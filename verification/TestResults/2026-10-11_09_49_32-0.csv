TestResult.DisplayName,TestResult.Outcome,TestResult.Duration,TestResult.ResourceCount,RandomSeed
StepperSpec.TranscriptLayout (correctness),Passed,00:00:00.1101419,166549,1
StepperSpec.TranscriptLayout (well-formedness),Passed,00:00:00.0947996,66772,1
