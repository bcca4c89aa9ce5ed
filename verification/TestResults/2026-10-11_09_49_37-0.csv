TestResult.DisplayName,TestResult.Outcome,TestResult.Duration,TestResult.ResourceCount,RandomSeed
StepperSpec.TranscriptLayout (correctness),Passed,00:00:00.1208412,199894,3
StepperSpec.TranscriptLayout (well-formedness),Passed,00:00:00.0927269,64991,3
