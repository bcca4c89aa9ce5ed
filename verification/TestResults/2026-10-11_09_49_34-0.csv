TestResult.DisplayName,TestResult.Outcome,TestResult.Duration,TestResult.ResourceCount,RandomSeed
StepperSpec.TranscriptLayout (correctness),Passed,00:00:00.1161552,226746,2
StepperSpec.TranscriptLayout (well-formedness),Passed,00:00:00.0956035,64927,2
