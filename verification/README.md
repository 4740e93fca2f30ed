# Conflict detection for Salesforce DX projects, modelled in Dafny

`ConflictDetector` checks whether metadata in an org has drifted from the
local source tree. It does this in six steps:

1. It creates a workspace directory `.sfdx/tools/conflicts` inside the project and copies the manifest there as `package.xml`.
2. It runs `sfdx force:mdapi:retrieve`, which leaves `unpackaged.zip` in the workspace.
3. It extracts the archive in place.
4. It runs `sfdx force:mdapi:convert` to turn `unpackaged/` into source format under `converted/`.
5. It asks the injected directory differ to compare the package directory with `converted/`.
6. It removes the workspace.

This project models that orchestration:

- `strings.dfy` (module `Strings`) joins with a separator and splits again, and proves the round trip both ways.
- `paths.dfy` (module `Paths`) models `path.join` with `/` and the "strictly inside a directory" relation. It also defines `rm -rf` over an abstract set of existing paths.
- `workspace.dfy` (module `Workspace`) holds the staging paths, relative to the project and under a given project path.
- `commands.dfy` (module `Commands`) holds the detection config and the `SfdxCommandBuilder` chain. It covers the two built commands, their command-line rendering, and the execution record (command, working directory, environment).
- `pipeline.dfy` (module `Pipeline`) holds `checkForConflictsInternal` as a pure function.
  - The outcome of every side-effecting step is an input (`Effects`): setup, retrieve, extract, convert and remove. The differ is a function parameter, as it is injected through the constructor.
  - A run (`Run`) returns how the promise settles (`Resolved(diffs)` or `Rejected(reason)`), the steps it started in order, the errors it reported by message key, and whether the workspace directory is left on disk.

A reader might expect a pipeline that cleans up on every exit and reports every failure. The code does neither, and the model follows the code:

- Only the success path removes the workspace. The two early `return Promise.reject()` exits, the rejections of the awaited commands and an exception from the differ all leave it in place.
- A cleanup that throws is reported under `error_cleanup_temp_files`, and the diff result is still returned.
- The pipeline's own code never checks the cancellation token. The token goes to the CLI executor and to the command-status notification; the token source goes to the progress notification and the task view, which can fire it. No step is skipped by a check of the token. A cancellation that makes the running command reject skips the later steps like any other rejection.

## Model

| member | source | states |
|---|---|---|
| Paths.Join | packages/salesforcedx-vscode-core/src/conflict/conflictDetectionService.ts:56-77 | `path.join` gives `.` when every segment is empty; otherwise the path begins with the first non-empty segment (so it is never empty) |
| Paths.JoinSplitsIntoSegments | packages/salesforcedx-vscode-core/src/conflict/conflictDetectionService.ts:56-77 | when no segment contains `/` and some segment is non-empty, splitting the joined path at `/` gives back exactly the non-empty segments, in order |
| Paths.JoinNested | packages/salesforcedx-vscode-core/src/conflict/conflictDetectionService.ts:56-77 | joining a directory onto `parent/name`, or joining it onto `parent` first and then `name`, gives the same path |
| Paths.JoinPair | packages/salesforcedx-vscode-core/src/conflict/conflictDetectionService.ts:123-126 | `path.join(dir, name)` is `dir/name`, or just `name` when `dir` is empty (zero-length segments are ignored) |
| Workspace.RelativeLayout | packages/salesforcedx-vscode-core/src/conflict/conflictDetectionService.ts:56-77 | the relative staging paths are `.sfdx/tools/conflicts`, `.../package.xml`, `.../unpackaged` and `.../converted` |
| Workspace.ConvertedPathIsChildOfTempRoot | packages/salesforcedx-vscode-core/src/conflict/conflictDetectionService.ts:72-77 | the converted path, although spelled out segment by segment, is the `converted` child of the workspace root |
| Workspace.UnpackedTreeIsChildOfTempRoot | packages/salesforcedx-vscode-core/src/conflict/conflictDetectionService.ts:56-70 | for every project path, the tree the convert command reads is the `unpackaged` child of the workspace root that the archive is extracted into |
| Workspace.StagedPathsUnderTempRoot | packages/salesforcedx-vscode-core/src/conflict/conflictDetectionService.ts:123-178 | for every project path, the staged manifest, the archive, the unpacked tree and the converted tree all lie strictly inside the one workspace root |
| Workspace.RemovingTempRootRemovesStaging | packages/salesforcedx-vscode-core/src/conflict/conflictDetectionService.ts:181-183 | removing the workspace root leaves neither the root nor any staged path, whatever else exists |
| Commands.BuildRetrieveOrgSourceCommand | packages/salesforcedx-vscode-core/src/conflict/conflictDetectionService.ts:79-88 | the retrieve command's arguments are exactly the listed flags and values, and its line is `sfdx force:mdapi:retrieve --retrievetargetdir .sfdx/tools/conflicts --unpackaged .sfdx/tools/conflicts/package.xml --targetusername <usernameOrAlias>`; description and log name are `conflict_detect_retrieve_org_source` |
| Commands.BuildMetadataApiConvertOrgSourceCommand | packages/salesforcedx-vscode-core/src/conflict/conflictDetectionService.ts:90-100 | the convert command's arguments are exactly the listed flags and values, and its line is `sfdx force:mdapi:convert --rootdir .sfdx/tools/conflicts/unpackaged --outputdir .sfdx/tools/conflicts/converted`; description and log name are `conflict_detect_convert_org_source` |
| Commands.RetrieveDependsOnlyOnUsername | packages/salesforcedx-vscode-core/test/vscode-integration/conflict/conflictDetectionService.test.ts:28-36 | two configs give the same retrieve command, and the same command line, if and only if their usernames or aliases are equal |
| Commands.ConvertIsSameForEveryConfig | packages/salesforcedx-vscode-core/test/vscode-integration/conflict/conflictDetectionService.test.ts:50-60 | every config gives the same convert command |
| Commands.ToCommand | packages/salesforcedx-vscode-core/test/vscode-integration/conflict/conflictDetectionService.test.ts:34-36 | the rendered command line begins with the executable |
| Commands.ExecuteCommand | packages/salesforcedx-vscode-core/src/conflict/conflictDetectionService.ts:192-203 | the execution runs the given command with the project path as working directory and overrides exactly one environment variable, `SFDX_JSON_TO_STDOUT`, set to `true` |
| Commands.CommandLineSplitsIntoArguments | packages/salesforcedx-vscode-core/test/vscode-integration/conflict/conflictDetectionService.test.ts:34-36 | when no word contains a space, splitting the rendered line at spaces gives back the executable followed by the arguments |
| Pipeline.CheckForConflictsInternal | packages/salesforcedx-vscode-core/src/conflict/conflictDetectionService.ts:117-190 | the run resolves if and only if setup, retrieve, extraction, convert and the differ all succeed. It then resolves to exactly what the differ returns for (`projectPath/packageDir`, `projectPath/.sfdx/tools/conflicts/converted`). The workspace is left on disk unless the run resolved and removal succeeded, or `mkdir` threw and there was no workspace before |
| Pipeline.CheckForConflicts | packages/salesforcedx-vscode-core/src/conflict/conflictDetectionService.ts:102-115 | a run against the root workspace folder resolves if and only if setup, retrieve, extraction, convert and the differ all succeed, and then to the differ's result for that folder's package directory and converted directory |
| Pipeline.TraceFollowsPlan | packages/salesforcedx-vscode-core/src/conflict/conflictDetectionService.ts:128-190 | the steps of every run are a non-empty prefix of mkdir, copy, retrieve, extract, convert, diff, remove; the whole sequence runs if and only if the run resolves |
| Pipeline.PlanStepsHandOffPaths | packages/salesforcedx-vscode-core/src/conflict/conflictDetectionService.ts:79-183 | each command's path arguments, resolved in its working directory, are the directories the file steps use: retrieve targets the created workspace root and reads the copied `package.xml`; the archive is extracted into that root; convert reads its `unpackaged` child and writes the tree the differ reads as its remote side; removal takes the same root |
| Pipeline.CommandsAreRetrieveThenConvert | packages/salesforcedx-vscode-core/src/conflict/conflictDetectionService.ts:142-170 | whatever fails, the executed commands are a prefix of [retrieve, convert], so convert never runs without retrieve before it |
| Pipeline.PlannedCommandsRunInProject | packages/salesforcedx-vscode-core/src/conflict/conflictDetectionService.ts:192-203 | each executed command runs with the project path as working directory and `SFDX_JSON_TO_STDOUT=true` as its environment |
| Pipeline.SetupFailureRunsNoCommand | packages/salesforcedx-vscode-core/src/conflict/conflictDetectionService.ts:134-140 | if `mkdir` or `cp` throws, the run rejects with no reason, reports `error_creating_packagexml` with the thrown error and executes no command. The workspace is left if the copy threw or it existed before |
| Pipeline.SuccessfulRunExecutesRetrieveThenConvert | packages/salesforcedx-vscode-core/src/conflict/conflictDetectionService.ts:142-179 | when every step succeeds, exactly two commands run: retrieve, then convert |
| Pipeline.ExtractionFailureStopsAfterRetrieve | packages/salesforcedx-vscode-core/src/conflict/conflictDetectionService.ts:150-162 | if extraction throws, the run rejects with no reason and reports `error_extracting_org_source`. The retrieve command is the only command; no diff or removal starts, and the workspace is left |
| Pipeline.RetrieveRejectionPropagates | packages/salesforcedx-vscode-core/src/conflict/conflictDetectionService.ts:142-148 | a rejected retrieve becomes the run's rejection with the same error. Nothing is reported, the steps stop right after retrieve, and the workspace is left |
| Pipeline.ConvertRejectionPropagates | packages/salesforcedx-vscode-core/src/conflict/conflictDetectionService.ts:164-170 | a rejected convert becomes the run's rejection with the same error. Nothing is reported, the steps stop right after convert, and the workspace is left |
| Pipeline.DiffFailurePropagates | packages/salesforcedx-vscode-core/src/conflict/conflictDetectionService.ts:172-179 | an exception from the differ becomes the run's rejection. The steps stop at the diff, and the workspace is left |
| Pipeline.CleanupOnlyOnSuccess | packages/salesforcedx-vscode-core/src/conflict/conflictDetectionService.ts:181-187 | a removal step occurs if and only if the run resolves |
| Pipeline.CleanupOutcomeDoesNotChangeResult | packages/salesforcedx-vscode-core/src/conflict/conflictDetectionService.ts:181-189 | whether removal throws changes neither the run's result nor its steps |
| Pipeline.SuccessfulRunCleansUp | packages/salesforcedx-vscode-core/src/conflict/conflictDetectionService.ts:181-189 | on the success path the last step removes the workspace root. Removing the path named by that step leaves neither it nor any staged path, whatever else exists. A removal that throws only adds an `error_cleanup_temp_files` report and leaves the workspace |
| Pipeline.ReasonlessRejectionIsReported | packages/salesforcedx-vscode-core/src/conflict/conflictDetectionService.ts:134-162 | a run rejects with no reason if and only if it reported exactly one error, keyed `error_creating_packagexml` or `error_extracting_org_source` |

## Left out

- Cancellation: a `CancellationTokenSource` is created and passed along. The pipeline's own code never checks it. The token goes to `CliCommandExecutor.execute` (line 203) and to `reportCommandExecutionStatus` (line 222); the token source goes to `ProgressNotification.show` and `taskViewService.addCommandExecution` (lines 224-225), which can fire it. A cancelled command reaches the model only as that command's `Rejects` or `Completes` outcome, so there is no separate cancelled outcome.
- The directory differ's own algorithm (`CommonDirDirectoryDiffer` in `directoryDiffer`). That module is not part of this model, so the differ is an uninterpreted function that returns results or throws, and nothing is claimed about its buckets.
- Running the CLI (`CliCommandExecutor`, `CommandOutput`, the process-exit stream): each awaited command is an input that either completes with output or rejects with an error.
- `SfdxCommandBuilder` comes from a library whose source is not part of this model. Its `withArg`/`withFlag`/`toCommand` behaviour (arguments appended in order, the line being `sfdx` and the arguments joined by spaces) is taken from the expected command lines in the tests.
- Archive extraction (AdmZip) and the shelljs `mkdir`, `cp` and `rm` calls are foreign file-system calls. Whether each one throws is an input, not derived from file contents. shelljs usually reports failures through return codes rather than throwing, so "setup throws" is not derived from a missing manifest either.
- Node's `path.join` normalisation of `.`, `..` and repeated or trailing separators. Joining is modelled as dropping empty segments and joining the rest with `/`.
- Localisation: command descriptions and report messages are kept as message keys.
- `reportError`'s console output, output channel, notification and telemetry. Only the message key and the error are recorded.
- `executeCommand`'s UI wiring (`attachExecution`), the telemetry event and `process.hrtime`.
- The `getInstance` singleton, which is process-wide mutable state with no behaviour of its own.
- Two runs racing on the same workspace directory. Each run is modelled on its own.
- Pipeline.CheckForConflictsInternal: a shelljs `mkdir`, `cp` or `rm` that does not throw is taken to have done its work. Failures that shelljs signals only through its return code are not modelled; in the source they leave the workspace in place and report nothing.
- Pipeline.SuccessfulRunCleansUp: when `rm` throws, the workspace is modelled as still present, although a failed `rm -rf` may have removed part of it.
