/**
 * The test runner (runner/runner.go): registered tests carry an order, a
 * name, a setup callback and tags; `Run` sorts them by order, keeps those
 * whose tags match the filter, runs each on a fresh `TBImpl` and reports
 * the ones that failed.
 *
 * A test's setup callback, together with the steps it registers and runs,
 * is seen here as the calls it makes on the test's `TBImpl` handle.
 */
module Runner {
  import opened Wrappers
  import Text
  import TBImplementation

  /** A registered test; `order` stands for the `float64` ordering key. */
  datatype Test = Test(
    order: int,
    name: string,
    setup: seq<TBImplementation.Call>,
    categoryTags: map<string, seq<string>>,
    tags: seq<string>)

  // ---------------------------------------------------------------------
  // Tags: `strings.SplitN(tag, "=", 2)` and `splitTags`
  // ---------------------------------------------------------------------

  /** A tag of the form `key=value`: it holds an `=`. */
  predicate IsCategory(tag: string)
  {
    '=' in tag
  }

  /** The text before the first `=`. */
  function Key(tag: string): (k: string)
    requires IsCategory(tag)
    ensures '=' !in k
    ensures |k| < |tag| && tag[..|k|] == k && tag[|k|] == '='
  {
    if tag[0] == '=' then "" else [tag[0]] + Key(tag[1..])
  }

  /** The text after the first `=`; it may hold further `=` signs. */
  function Val(tag: string): (v: string)
    requires IsCategory(tag)
    ensures |v| < |tag|
  {
    if tag[0] == '=' then tag[1..] else Val(tag[1..])
  }

  /** Splitting at the first `=` loses nothing: key, `=` and value put back together give the tag. */
  lemma {:induction false} KeyValSplit(tag: string)
    requires IsCategory(tag)
    ensures Key(tag) + "=" + Val(tag) == tag
  {
    if tag[0] != '=' {
      KeyValSplit(tag[1..]);
      assert tag == [tag[0]] + tag[1..];
    }
  }

  /** The plain tags, in input order. */
  function FlatTags(tags: seq<string>): (flat: seq<string>)
    ensures forall t :: t in flat ==> t in tags && !IsCategory(t)
  {
    if tags == [] then []
    else
      var last := tags[|tags| - 1];
      var prefix := FlatTags(tags[..|tags| - 1]);
      if IsCategory(last) then prefix else prefix + [last]
  }

  /** The values of the `key=value` tags with the given key, in input order. */
  function ValuesFor(tags: seq<string>, key: string): (vs: seq<string>)
    ensures |vs| <= |tags|
  {
    if tags == [] then []
    else
      var last := tags[|tags| - 1];
      var prefix := ValuesFor(tags[..|tags| - 1], key);
      if IsCategory(last) && Key(last) == key then prefix + [Val(last)] else prefix
  }

  /** The category map `splitTags` builds, one `key=value` tag at a time. */
  function CategoryTags(tags: seq<string>): (m: map<string, seq<string>>)
  {
    if tags == [] then map[]
    else
      var last := tags[|tags| - 1];
      var prefix := CategoryTags(tags[..|tags| - 1]);
      if IsCategory(last) then prefix[Key(last) := Lookup(prefix, Key(last)) + [Val(last)]]
      else prefix
  }

  /** A lookup in a Go map of slices: a missing key reads as the empty slice. */
  function Lookup(m: map<string, seq<string>>, key: string): seq<string>
  {
    if key in m then m[key] else []
  }

  /**
   * The category map groups the `key=value` tags by key: each key holds
   * exactly the values given for it, in input order, and no key is
   * present without a value.
   */
  lemma {:induction false} CategoryTagsGroupByKey(tags: seq<string>, key: string)
    ensures Lookup(CategoryTags(tags), key) == ValuesFor(tags, key)
    ensures key in CategoryTags(tags) <==> ValuesFor(tags, key) != []
  {
    if tags != [] {
      CategoryTagsGroupByKey(tags[..|tags| - 1], key);
    }
  }

  /** Every tag lands in exactly one of the two outputs: the plain list or its key's value list. */
  lemma {:induction false} SplitTagsPartition(tags: seq<string>)
    ensures |FlatTags(tags)| + |CategorisedTags(tags)| == |tags|
    ensures forall t :: t in tags && !IsCategory(t) ==> t in FlatTags(tags)
  {
    if tags != [] {
      var prefix := tags[..|tags| - 1];
      SplitTagsPartition(prefix);
      forall t | t in tags && !IsCategory(t)
        ensures t in FlatTags(tags)
      {
        if t != tags[|tags| - 1] {
          assert t in prefix by {
            var i :| 0 <= i < |tags| && tags[i] == t;
            assert prefix[i] == t;
          }
        }
      }
    }
  }

  /** The `key=value` tags, in input order. */
  ghost function CategorisedTags(tags: seq<string>): seq<string>
  {
    if tags == [] then []
    else
      var last := tags[|tags| - 1];
      var prefix := CategorisedTags(tags[..|tags| - 1]);
      if IsCategory(last) then prefix + [last] else prefix
  }

  /** `splitTags`: the plain tags and the category map, built in one pass. */
  method SplitTags(tags: seq<string>) returns (flat: seq<string>, categories: map<string, seq<string>>)
    ensures flat == FlatTags(tags)
    ensures categories == CategoryTags(tags)
  {
    flat := [];
    categories := map[];
    var i := 0;
    while i < |tags|
      invariant 0 <= i <= |tags|
      invariant flat == FlatTags(tags[..i])
      invariant categories == CategoryTags(tags[..i])
    {
      assert tags[..i + 1][..i] == tags[..i];
      var tag := tags[i];
      if IsCategory(tag) {
        var category := if Key(tag) in categories then categories[Key(tag)] else [];
        category := category + [Val(tag)];
        categories := categories[Key(tag) := category];
      } else {
        flat := flat + [tag];
      }
      i := i + 1;
    }
    assert tags[..i] == tags;
  }

  // ---------------------------------------------------------------------
  // Filters
  // ---------------------------------------------------------------------

  /** Every filter tag is among the test's plain tags. */
  ghost predicate MatchesTags(test: Test, filter: seq<string>)
  {
    forall f :: f in filter ==> f in test.tags
  }

  /** For every filter key, at least one of its values is among the test's values for that key. */
  ghost predicate MatchesCategories(test: Test, filter: map<string, seq<string>>)
  {
    forall key :: key in filter ==> exists v :: v in filter[key] && v in Lookup(test.categoryTags, key)
  }

  /** `Test.TagsMatch`: stops at the first filter tag the test lacks. */
  method TagsMatch(test: Test, filter: seq<string>) returns (r: bool)
    ensures r <==> MatchesTags(test, filter)
  {
    var i := 0;
    while i < |filter|
      invariant 0 <= i <= |filter|
      invariant forall j :: 0 <= j < i ==> filter[j] in test.tags
    {
      var matched := filter[i] in test.tags;
      if !matched {
        return false;
      }
      i := i + 1;
    }
    return true;
  }

  /** `Test.CategoriesMatch`: visits the filter keys in any order and stops at the first unmatched one. */
  method CategoriesMatch(test: Test, filter: map<string, seq<string>>) returns (r: bool)
    ensures r <==> MatchesCategories(test, filter)
  {
    var keys := filter.Keys;
    while keys != {}
      invariant keys <= filter.Keys
      invariant forall key :: key in filter && key !in keys ==>
        exists v :: v in filter[key] && v in Lookup(test.categoryTags, key)
      decreases keys
    {
      var key :| key in keys;
      var values := filter[key];
      var matched := false;
      var j := 0;
      while j < |values|
        invariant 0 <= j <= |values|
        invariant matched <==> exists i :: 0 <= i < j && values[i] in Lookup(test.categoryTags, key)
      {
        if values[j] in Lookup(test.categoryTags, key) {
          matched := true;
        }
        j := j + 1;
      }
      if !matched {
        return false;
      }
      keys := keys - {key};
    }
    return true;
  }

  /** A filter key listed with no values can never be matched. */
  lemma EmptyCategoryNeverMatches(test: Test, filter: map<string, seq<string>>, key: string)
    requires key in filter && filter[key] == []
    ensures !MatchesCategories(test, filter)
  {
  }

  // ---------------------------------------------------------------------
  // Running
  // ---------------------------------------------------------------------

  /** The test fails when its setup and steps, run on a fresh handle, leave the handle failed. */
  predicate Fails(test: Test)
  {
    TBImplementation.Exec(false, test.setup).failed
  }

  /** `fmt.Sprintf("%f: %s", Order, Name)`: an integral order prints with six zero decimals. */
  function Label(test: Test): (s: string)
    ensures Text.StartsWith(s, Text.IntToString(test.order))
  {
    Text.IntToString(test.order) + ".000000: " + test.name
  }

  /** The message of the error `Run` returns after `n` failures. */
  function FailureMessage(n: nat): string
  {
    "tests complete with " + Text.NatToString(n) + " failures"
  }

  ghost predicate SortedByOrder(s: seq<Test>)
  {
    forall a, b :: 0 <= a < b < |s| ==> s[a].order <= s[b].order
  }

  /** The tests that pass both filters, in the given order. */
  ghost function Selected(tests: seq<Test>, flat: seq<string>, categories: map<string, seq<string>>): (r: seq<Test>)
    ensures |r| <= |tests|
    ensures forall t :: t in r ==> t in tests && MatchesTags(t, flat) && MatchesCategories(t, categories)
    ensures forall t :: t in tests && MatchesTags(t, flat) && MatchesCategories(t, categories) ==> t in r
  {
    if tests == [] then []
    else
      var last := tests[|tests| - 1];
      var prefix := Selected(tests[..|tests| - 1], flat, categories);
      if MatchesTags(last, flat) && MatchesCategories(last, categories) then prefix + [last] else prefix
  }

  /** The elements of `s` that satisfy `keep`, in order. */
  ghost function Filter<T>(s: seq<T>, keep: T -> bool): seq<T>
  {
    if s == [] then [] else Filter(s[..|s| - 1], keep) + (if keep(s[|s| - 1]) then [s[|s| - 1]] else [])
  }

  /**
   * `Filter` keeps exactly the elements that satisfy `keep`, in their order:
   * `idx` lists their positions, strictly increasing, and every position
   * whose element satisfies `keep` is listed.
   */
  lemma {:induction false} FilterPositions<T>(s: seq<T>, keep: T -> bool) returns (idx: seq<nat>)
    ensures |idx| == |Filter(s, keep)|
    ensures forall k :: 0 <= k < |idx| ==> idx[k] < |s| && Filter(s, keep)[k] == s[idx[k]]
    ensures forall k, l :: 0 <= k < l < |idx| ==> idx[k] < idx[l]
    ensures forall i :: 0 <= i < |s| && keep(s[i]) ==> i in idx
  {
    if s == [] {
      idx := [];
    } else {
      var n := |s| - 1;
      var pidx := FilterPositions(s[..n], keep);
      var prev := Filter(s[..n], keep);
      assert forall i :: 0 <= i < n ==> s[..n][i] == s[i];
      if keep(s[n]) {
        assert Filter(s, keep) == prev + [s[n]];
        idx := pidx + [n];
      } else {
        assert Filter(s, keep) == prev;
        idx := pidx;
      }
    }
  }

  /** `Selected` is the filter of the tests by both filters. */
  lemma {:induction false} SelectedIsFilter(tests: seq<Test>, flat: seq<string>, categories: map<string, seq<string>>)
    ensures Selected(tests, flat, categories) == Filter(tests, t => MatchesTags(t, flat) && MatchesCategories(t, categories))
  {
    if tests != [] {
      SelectedIsFilter(tests[..|tests| - 1], flat, categories);
    }
  }

  /**
   * `Selected` keeps exactly the tests that pass both filters, in their
   * order: `idx` lists their positions in `tests`, strictly increasing, and
   * every position whose test matches is listed.
   */
  lemma SelectedPositions(tests: seq<Test>, flat: seq<string>, categories: map<string, seq<string>>)
    returns (idx: seq<nat>)
    ensures |idx| == |Selected(tests, flat, categories)|
    ensures forall k :: 0 <= k < |idx| ==> idx[k] < |tests| && Selected(tests, flat, categories)[k] == tests[idx[k]]
    ensures forall k, l :: 0 <= k < l < |idx| ==> idx[k] < idx[l]
    ensures forall i :: 0 <= i < |tests| && MatchesTags(tests[i], flat) && MatchesCategories(tests[i], categories) ==> i in idx
  {
    var keep := t => MatchesTags(t, flat) && MatchesCategories(t, categories);
    SelectedIsFilter(tests, flat, categories);
    idx := FilterPositions(tests, keep);
    assert forall i :: 0 <= i < |tests| ==> keep(tests[i]) == (MatchesTags(tests[i], flat) && MatchesCategories(tests[i], categories));
  }

  /** The labels of the failing tests, in run order. */
  function FailureLabels(run: seq<Test>): (labels: seq<string>)
    ensures |labels| <= |run|
  {
    if run == [] then []
    else
      var last := run[|run| - 1];
      var prefix := FailureLabels(run[..|run| - 1]);
      if Fails(last) then prefix + [Label(last)] else prefix
  }

  /** Some label is recorded exactly when some test of the run fails. */
  lemma {:induction false} FailureLabelsEmpty(run: seq<Test>)
    ensures FailureLabels(run) == [] <==> forall t :: t in run ==> !Fails(t)
  {
    if run != [] {
      var prefix := run[..|run| - 1];
      FailureLabelsEmpty(prefix);
      assert run == prefix + [run[|run| - 1]];
    }
  }

  /** A swap exchanges two entries and so keeps the same tests. */
  lemma SwapPermutes(s: seq<Test>, i: nat, j: nat)
    requires i < |s| && j < |s|
    ensures multiset(s[i := s[j]][j := s[i]]) == multiset(s)
  {
  }

  /** A test set: the slice that `Register` appends to and `Run` sorts in place. */
  class TestSet {
    var tests: seq<Test>

    constructor ()
      ensures tests == []
    {
      tests := [];
    }

    /** `TestSet.Len`. */
    method Len() returns (n: nat)
      ensures n == |tests|
    {
      n := |tests|;
    }

    /** `TestSet.Less`: ordering by the order key alone. */
    method Less(i: nat, j: nat) returns (less: bool)
      requires i < |tests| && j < |tests|
      ensures less <==> tests[i].order < tests[j].order
    {
      less := tests[i].order < tests[j].order;
    }

    /** `TestSet.Swap`. */
    method Swap(i: nat, j: nat)
      requires i < |tests| && j < |tests|
      modifies this
      ensures tests == old(tests)[i := old(tests)[j]][j := old(tests)[i]]
      ensures multiset(tests) == multiset(old(tests))
    {
      SwapPermutes(tests, i, j);
      tests := tests[i := tests[j]][j := tests[i]];
    }

    /** `TestSet.Register`: appends one test with the tags split into plain tags and categories. */
    method Register(order: int, name: string, setup: seq<TBImplementation.Call>, tags: seq<string>)
      modifies this
      ensures tests == old(tests) + [Test(order, name, setup, CategoryTags(tags), FlatTags(tags))]
    {
      var flat, categories := SplitTags(tags);
      tests := tests + [Test(order, name, setup, categories, flat)];
    }

    /**
     * `sort.Sort` over `Len`/`Less`/`Swap`: afterwards the tests are in
     * ascending order and are the same tests as before.
     */
    method Sort()
      modifies this
      ensures SortedByOrder(tests)
      ensures multiset(tests) == multiset(old(tests))
    {
      var n := Len();
      var i := 0;
      while i < n
        invariant 0 <= i <= n == |tests|
        invariant multiset(tests) == multiset(old(tests))
        invariant SortedByOrder(tests[..i])
        invariant forall a, b :: 0 <= a < i <= b < n ==> tests[a].order <= tests[b].order
      {
        ghost var before := tests;
        var m := i;
        var j := i + 1;
        while j < n
          invariant tests == before
          invariant i <= m < n && i < j <= n
          invariant forall b :: i <= b < j ==> tests[m].order <= tests[b].order
        {
          var less := Less(j, m);
          if less {
            m := j;
          }
          j := j + 1;
        }
        Swap(i, m);
        i := i + 1;
      }
      assert tests[..i] == tests;
    }

    /** The tests, in their current order, that pass both filters. */
    method Select(flatFilter: seq<string>, catFilter: map<string, seq<string>>) returns (toRun: seq<Test>)
      ensures toRun == Selected(tests, flatFilter, catFilter)
    {
      toRun := [];
      var i := 0;
      while i < |tests|
        invariant 0 <= i <= |tests|
        invariant toRun == Selected(tests[..i], flatFilter, catFilter)
      {
        assert tests[..i + 1][..i] == tests[..i];
        var test := tests[i];
        var tagsOk := TagsMatch(test, flatFilter);
        var categoriesOk := CategoriesMatch(test, catFilter);
        if tagsOk && categoriesOk {
          toRun := toRun + [test];
        }
        i := i + 1;
      }
      assert tests[..i] == tests;
    }

    /**
     * `TestSet.Run`: sorts the set, keeps the tests that match the
     * filter, runs each on a fresh handle and collects the labels of the
     * failed ones; `failures` is the list printed under the summary line.
     */
    method Run(filter: seq<string>) returns (err: Option<string>, failures: seq<string>)
      modifies this
      ensures SortedByOrder(tests)
      ensures multiset(tests) == multiset(old(tests))
      ensures failures == FailureLabels(Selected(tests, FlatTags(filter), CategoryTags(filter)))
      ensures err.Some? <==> exists t :: t in Selected(tests, FlatTags(filter), CategoryTags(filter)) && Fails(t)
      ensures err.Some? ==> err.value == FailureMessage(|failures|)
    {
      Sort();
      var flatFilter, catFilter := SplitTags(filter);
      var toRun := Select(flatFilter, catFilter);
      failures := RunTests(toRun);
      FailureLabelsEmpty(toRun);
      if |failures| > 0 {
        err := Some(FailureMessage(|failures|));
      } else {
        err := None;
      }
    }
  }

  /** Runs each test on a fresh handle, in the given order, keeping the labels of those that fail. */
  method RunTests(toRun: seq<Test>) returns (failures: seq<string>)
    ensures failures == FailureLabels(toRun)
  {
    failures := [];
    var k := 0;
    while k < |toRun|
      invariant 0 <= k <= |toRun|
      invariant failures == FailureLabels(toRun[..k])
    {
      assert toRun[..k + 1][..k] == toRun[..k];
      var test := toRun[k];
      var testLabel := Label(test);
      var tb := new TBImplementation.TBImpl();
      var _ := tb.Execute(test.setup);
      if tb.failed {
        failures := failures + [testLabel];
      }
      k := k + 1;
    }
    assert toRun[..k] == toRun;
  }
}
