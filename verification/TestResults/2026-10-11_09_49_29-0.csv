TestResult.DisplayName,TestResult.Outcome,TestResult.Duration,TestResult.ResourceCount,RandomSeed
StepperSpec.TranscriptLayout (correctness),Passed,00:00:00.1141264,144801,0
StepperSpec.TranscriptLayout (well-formedness),Passed,00:00:00.1032900,64918,0
