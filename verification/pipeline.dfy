/**
  One conflict check, `checkForConflictsInternal`: stage the manifest in the
  workspace, retrieve the org's metadata, extract the archive, convert it to
  source format, diff it against the local package directory, and remove the
  workspace.

  Every side effect is an input: the outcome of each step is given by an
  `Effects` value, and the directory differ is a function parameter. A run
  yields its result, the steps it started in order, the errors it reported,
  and whether the workspace directory is left on disk.
 */
module Pipeline {
  import Paths
  import Workspace
  import Commands

  datatype Option<T> = None | Some(value: T)

  /** An exception or rejection value raised by a collaborator. */
  datatype Error = Error(message: string)

  /** An error reported to the user under a message key. */
  datatype Report = Report(key: string, error: Error)

  const ErrorCreatingPackageXml: string := "error_creating_packagexml"
  const ErrorExtractingOrgSource: string := "error_extracting_org_source"
  const ErrorCleanupTempFiles: string := "error_cleanup_temp_files"

  /** Creating the workspace directory, then copying the manifest into it. */
  datatype SetupOutcome = SetupSucceeds | MkdirThrows(error: Error) | CopyThrows(error: Error)

  /** An awaited CLI command: its promise resolves with output or rejects. */
  datatype CommandOutcome = Completes(stdout: string) | Rejects(error: Error)

  /** A synchronous step that may throw. */
  datatype StepOutcome = Succeeds | Throws(error: Error)

  /** What the injected directory differ does with two roots. */
  datatype DiffOutcome<D> = Diffs(results: D) | DiffThrows(error: Error)

  /** How each side-effecting step would turn out if it is reached. */
  datatype Effects = Effects(
    workspacePreexists: bool,
    setup: SetupOutcome,
    retrieve: CommandOutcome,
    extract: StepOutcome,
    convert: CommandOutcome,
    remove: StepOutcome)

  /**
    How the returned promise settles. `Rejected(None)` is `Promise.reject()`
    with no reason; `Rejected(Some(e))` passes on a collaborator's error.
   */
  datatype Outcome<D> = Resolved(diffs: D) | Rejected(reason: Option<Error>)

  /** One step a run starts. */
  datatype Step =
    | MakeDir(path: string)
    | Copy(source: string, target: string)
    | Execute(execution: Commands.Execution)
    | Extract(archive: string, target: string)
    | Diff(local: string, remote: string)
    | RemoveTree(path: string)

  datatype Run<D> = Run(result: Outcome<D>, trace: seq<Step>, reports: seq<Report>, workspaceExists: bool)

  function RetrieveExecution(projectPath: string, data: Commands.Config): Commands.Execution
  {
    Commands.ExecuteCommand(Commands.BuildRetrieveOrgSourceCommand(data), projectPath)
  }

  function ConvertExecution(projectPath: string, data: Commands.Config): Commands.Execution
  {
    Commands.ExecuteCommand(Commands.BuildMetadataApiConvertOrgSourceCommand(data), projectPath)
  }

  /** The full sequence of steps of a run in which nothing fails. */
  function Plan(projectPath: string, data: Commands.Config): seq<Step>
  {
    var temp := Workspace.ProjectMetadataTempPath(projectPath);
    [ MakeDir(temp),
      Copy(data.manifest, Workspace.RetrievePackageXmlPath(projectPath)),
      Execute(RetrieveExecution(projectPath, data)),
      Extract(Workspace.UnpackagedZipFile(projectPath), temp),
      Execute(ConvertExecution(projectPath, data)),
      Diff(Workspace.LocalSourcePath(projectPath, data.packageDir), Workspace.RemoteSourcePath(projectPath)),
      RemoveTree(temp) ]
  }

  /**
    The steps of a run hand their directories to each other: each command's
    relative path arguments, resolved in its working directory, are the paths
    the file steps around it create, extract into and diff.
   */
  lemma PlanStepsHandOffPaths(projectPath: string, data: Commands.Config)
    ensures var plan := Plan(projectPath, data);
            var retrieve := plan[2].execution;
            var convert := plan[4].execution;
            && Paths.Join([retrieve.cwd, retrieve.command.args[2]]) == Workspace.ProjectMetadataTempPath(projectPath)
            && Paths.Join([retrieve.cwd, retrieve.command.args[4]]) == Workspace.RetrievePackageXmlPath(projectPath)
            && Paths.Join([convert.cwd, convert.command.args[2]]) == Workspace.UnpackagedPath(projectPath)
            && Paths.Join([convert.cwd, convert.command.args[4]]) == Workspace.RemoteSourcePath(projectPath)
    ensures var plan := Plan(projectPath, data);
            var retrieve := plan[2].execution;
            var convert := plan[4].execution;
            var target := Paths.Join([retrieve.cwd, retrieve.command.args[2]]);
            && target == plan[0].path
            && Paths.Join([retrieve.cwd, retrieve.command.args[4]]) == plan[1].target
            && plan[3].archive == Paths.Join([target, Workspace.ArchiveName])
            && plan[3].target == target
            && Paths.Join([convert.cwd, convert.command.args[2]]) == Paths.Join([plan[3].target, "unpackaged"])
            && Paths.Join([convert.cwd, convert.command.args[4]]) == plan[5].remote
            && plan[6].path == target
  {
    Workspace.RelativeLayout();
    Workspace.UnpackedTreeIsChildOfTempRoot(projectPath);
  }

  /** The CLI executions among the steps, in order. */
  function CommandsOf(trace: seq<Step>): (executions: seq<Commands.Execution>)
    decreases |trace|
  {
    if |trace| == 0 then []
    else
      var rest := CommandsOf(trace[1..]);
      if trace[0].Execute? then [trace[0].execution] + rest else rest
  }

  /** `checkForConflictsInternal` with the differ injected and every side effect's outcome given. */
  function CheckForConflictsInternal<D>(
    differ: (string, string) -> DiffOutcome<D>,
    projectPath: string,
    data: Commands.Config,
    fx: Effects): (run: Run<D>)
    ensures run.result.Resolved? <==>
              && fx.setup.SetupSucceeds?
              && fx.retrieve.Completes?
              && fx.extract.Succeeds?
              && fx.convert.Completes?
              && differ(Workspace.LocalSourcePath(projectPath, data.packageDir),
                        Workspace.RemoteSourcePath(projectPath)).Diffs?
    ensures run.result.Resolved? ==>
              run.result.diffs == differ(Workspace.LocalSourcePath(projectPath, data.packageDir),
                                            Workspace.RemoteSourcePath(projectPath)).results
    ensures run.workspaceExists <==>
              && !(run.result.Resolved? && fx.remove.Succeeds?)
              && (fx.setup.MkdirThrows? ==> fx.workspacePreexists)
  {
    var temp := Workspace.ProjectMetadataTempPath(projectPath);
    var packageXml := Workspace.RetrievePackageXmlPath(projectPath);
    match fx.setup
    case MkdirThrows(e) =>
      Run(Rejected(None), [MakeDir(temp)], [Report(ErrorCreatingPackageXml, e)], fx.workspacePreexists)
    case CopyThrows(e) =>
      Run(Rejected(None), [MakeDir(temp), Copy(data.manifest, packageXml)],
          [Report(ErrorCreatingPackageXml, e)], true)
    case SetupSucceeds =>
      var staged := [MakeDir(temp), Copy(data.manifest, packageXml)];
      var retrieved := staged + [Execute(RetrieveExecution(projectPath, data))];
      match fx.retrieve
      case Rejects(e) => Run(Rejected(Some(e)), retrieved, [], true)
      case Completes(_) =>
        var extracted := retrieved + [Extract(Workspace.UnpackagedZipFile(projectPath), temp)];
        match fx.extract
        case Throws(e) => Run(Rejected(None), extracted, [Report(ErrorExtractingOrgSource, e)], true)
        case Succeeds =>
          var converted := extracted + [Execute(ConvertExecution(projectPath, data))];
          match fx.convert
          case Rejects(e) => Run(Rejected(Some(e)), converted, [], true)
          case Completes(_) =>
            var local := Workspace.LocalSourcePath(projectPath, data.packageDir);
            var remote := Workspace.RemoteSourcePath(projectPath);
            var diffed := converted + [Diff(local, remote)];
            match differ(local, remote)
            case DiffThrows(e) => Run(Rejected(Some(e)), diffed, [], true)
            case Diffs(diffs) =>
              var cleaned := diffed + [RemoveTree(temp)];
              match fx.remove
              case Succeeds => Run(Resolved(diffs), cleaned, [], false)
              case Throws(e) => Run(Resolved(diffs), cleaned, [Report(ErrorCleanupTempFiles, e)], true)
  }

  /** `checkForConflicts`: a run against the root workspace folder, which is passed in. */
  function CheckForConflicts<D>(
    differ: (string, string) -> DiffOutcome<D>,
    rootWorkspacePath: string,
    data: Commands.Config,
    fx: Effects): (result: Outcome<D>)
    ensures result.Resolved? <==>
              && fx.setup.SetupSucceeds?
              && fx.retrieve.Completes?
              && fx.extract.Succeeds?
              && fx.convert.Completes?
              && differ(Paths.Join([rootWorkspacePath, data.packageDir]),
                        Paths.Join([rootWorkspacePath, Workspace.RelativeConvertedPath])).Diffs?
    ensures result.Resolved? ==>
              var diffed := differ(Paths.Join([rootWorkspacePath, data.packageDir]),
                                   Paths.Join([rootWorkspacePath, Workspace.RelativeConvertedPath]));
              diffed.Diffs? && result.diffs == diffed.results
  {
    CheckForConflictsInternal(differ, rootWorkspacePath, data, fx).result
  }

  /** Commands of a prefix are a prefix of the commands. */
  lemma {:induction false} CommandsOfPrefix(a: seq<Step>, b: seq<Step>)
    requires a <= b
    ensures CommandsOf(a) <= CommandsOf(b)
    decreases |a|
  {
    if |a| > 0 {
      assert a[1..] <= b[1..];
      CommandsOfPrefix(a[1..], b[1..]);
    }
  }

  /** Appending a step appends its execution, if it is one. */
  lemma {:induction false} CommandsOfSnoc(a: seq<Step>, s: Step)
    ensures CommandsOf(a + [s]) == CommandsOf(a) + (if s.Execute? then [s.execution] else [])
    decreases |a|
  {
    if |a| > 0 {
      assert (a + [s])[1..] == a[1..] + [s];
      CommandsOfSnoc(a[1..], s);
    }
  }

  /** The executions among the steps of the failure-free plan, cut after `k` steps. */
  lemma CommandsOfPlanPrefix(
    m: Step, cp: Step, r: Commands.Execution, x: Step, c: Commands.Execution, d: Step, rm: Step, k: nat)
    requires !m.Execute? && !cp.Execute? && !x.Execute? && !d.Execute? && !rm.Execute?
    requires k <= 7
    ensures var steps := [m, cp, Execute(r), x, Execute(c), d, rm];
            CommandsOf(steps[..k]) == (if k <= 2 then [] else if k <= 4 then [r] else [r, c])
  {
    var steps := [m, cp, Execute(r), x, Execute(c), d, rm];
    var i := 0;
    while i < k
      invariant i <= k
      invariant CommandsOf(steps[..i]) == (if i <= 2 then [] else if i <= 4 then [r] else [r, c])
    {
      CommandsOfSnoc(steps[..i], steps[i]);
      assert steps[..i + 1] == steps[..i] + [steps[i]];
      i := i + 1;
    }
  }

  /** A run in which nothing fails executes the retrieve command and then the convert command. */
  lemma CommandsOfPlan(projectPath: string, data: Commands.Config, k: nat)
    requires k <= 7
    ensures CommandsOf(Plan(projectPath, data)[..k]) ==
              (if k <= 2 then [] else if k <= 4 then [RetrieveExecution(projectPath, data)]
               else [RetrieveExecution(projectPath, data), ConvertExecution(projectPath, data)])
    ensures CommandsOf(Plan(projectPath, data)) ==
              [RetrieveExecution(projectPath, data), ConvertExecution(projectPath, data)]
  {
    var plan := Plan(projectPath, data);
    CommandsOfPlanPrefix(plan[0], plan[1], RetrieveExecution(projectPath, data), plan[3],
                         ConvertExecution(projectPath, data), plan[5], plan[6], k);
    CommandsOfPlanPrefix(plan[0], plan[1], RetrieveExecution(projectPath, data), plan[3],
                         ConvertExecution(projectPath, data), plan[5], plan[6], 7);
    assert plan[..7] == plan;
    assert plan == [plan[0], plan[1], Execute(RetrieveExecution(projectPath, data)), plan[3],
                    Execute(ConvertExecution(projectPath, data)), plan[5], plan[6]];
  }

  /**
    The steps of every run are the steps of the failure-free plan, cut off
    after the step that failed; the whole plan runs exactly when the run resolves.
   */
  lemma TraceFollowsPlan<D>(
    differ: (string, string) -> DiffOutcome<D>, projectPath: string, data: Commands.Config, fx: Effects)
    ensures var run := CheckForConflictsInternal(differ, projectPath, data, fx);
            && 1 <= |run.trace|
            && run.trace <= Plan(projectPath, data)
            && (run.result.Resolved? <==> run.trace == Plan(projectPath, data))
  {
  }

  /** Any prefix of the plan executes retrieve then convert, or a prefix of that. */
  lemma PlanPrefixCommands(trace: seq<Step>, projectPath: string, data: Commands.Config)
    requires trace <= Plan(projectPath, data)
    ensures CommandsOf(trace) <= [RetrieveExecution(projectPath, data), ConvertExecution(projectPath, data)]
  {
    var plan := Plan(projectPath, data);
    CommandsOfPrefix(trace, plan);
    CommandsOfPlan(projectPath, data, 7);
  }

  /** Both commands run in the project directory with JSON output sent to stdout. */
  lemma PlannedCommandsRunInProject(cmds: seq<Commands.Execution>, projectPath: string, data: Commands.Config)
    requires cmds <= [RetrieveExecution(projectPath, data), ConvertExecution(projectPath, data)]
    ensures forall e :: e in cmds ==> e.cwd == projectPath && e.env == Commands.JsonToStdoutEnv
  {
  }

  /**
    Whatever fails, the commands a run executes are the retrieve command
    and then the convert command, or a prefix of that; each runs in the
    project directory with JSON output sent to stdout.
   */
  lemma CommandsAreRetrieveThenConvert<D>(
    differ: (string, string) -> DiffOutcome<D>, projectPath: string, data: Commands.Config, fx: Effects)
    ensures var run := CheckForConflictsInternal(differ, projectPath, data, fx);
            CommandsOf(run.trace) <= [RetrieveExecution(projectPath, data), ConvertExecution(projectPath, data)]
    ensures var run := CheckForConflictsInternal(differ, projectPath, data, fx);
            forall e :: e in CommandsOf(run.trace) ==>
              e.cwd == projectPath && e.env == Commands.JsonToStdoutEnv
  {
    var run := CheckForConflictsInternal(differ, projectPath, data, fx);
    TraceFollowsPlan(differ, projectPath, data, fx);
    PlanPrefixCommands(run.trace, projectPath, data);
    PlannedCommandsRunInProject(CommandsOf(run.trace), projectPath, data);
  }

  /** If creating the workspace or copying the manifest throws, the run rejects before any command. */
  lemma SetupFailureRunsNoCommand<D>(
    differ: (string, string) -> DiffOutcome<D>, projectPath: string, data: Commands.Config, fx: Effects)
    requires !fx.setup.SetupSucceeds?
    ensures var run := CheckForConflictsInternal(differ, projectPath, data, fx);
            && run.result == Rejected(None)
            && run.reports == [Report(ErrorCreatingPackageXml, fx.setup.error)]
            && CommandsOf(run.trace) == []
            && (run.workspaceExists <==> fx.setup.CopyThrows? || fx.workspacePreexists)
  {
    var run := CheckForConflictsInternal(differ, projectPath, data, fx);
    var plan := Plan(projectPath, data);
    if fx.setup.MkdirThrows? {
      assert run.trace == plan[..1];
      CommandsOfPlan(projectPath, data, 1);
    } else {
      assert run.trace == plan[..2];
      CommandsOfPlan(projectPath, data, 2);
    }
  }

  /** When every step succeeds, exactly two commands run: retrieve, then convert. */
  lemma SuccessfulRunExecutesRetrieveThenConvert<D>(
    differ: (string, string) -> DiffOutcome<D>, projectPath: string, data: Commands.Config, fx: Effects)
    requires fx.setup.SetupSucceeds? && fx.retrieve.Completes? && fx.extract.Succeeds? && fx.convert.Completes?
    requires differ(Workspace.LocalSourcePath(projectPath, data.packageDir), Workspace.RemoteSourcePath(projectPath)).Diffs?
    ensures var run := CheckForConflictsInternal(differ, projectPath, data, fx);
            CommandsOf(run.trace) == [RetrieveExecution(projectPath, data), ConvertExecution(projectPath, data)]
  {
    TraceFollowsPlan(differ, projectPath, data, fx);
    CommandsOfPlan(projectPath, data, 7);
  }

  /** If extraction throws, the run rejects after the retrieve command alone; nothing later starts. */
  lemma ExtractionFailureStopsAfterRetrieve<D>(
    differ: (string, string) -> DiffOutcome<D>, projectPath: string, data: Commands.Config, fx: Effects)
    requires fx.setup.SetupSucceeds? && fx.retrieve.Completes? && fx.extract.Throws?
    ensures var run := CheckForConflictsInternal(differ, projectPath, data, fx);
            && run.result == Rejected(None)
            && run.reports == [Report(ErrorExtractingOrgSource, fx.extract.error)]
            && CommandsOf(run.trace) == [RetrieveExecution(projectPath, data)]
            && (forall s :: s in run.trace ==> !s.Diff? && !s.RemoveTree?)
            && run.workspaceExists
  {
    var run := CheckForConflictsInternal(differ, projectPath, data, fx);
    assert run.trace == Plan(projectPath, data)[..4];
    CommandsOfPlan(projectPath, data, 4);
  }

  /** A rejected retrieve command becomes the run's rejection; nothing after it starts, and nothing is removed. */
  lemma RetrieveRejectionPropagates<D>(
    differ: (string, string) -> DiffOutcome<D>, projectPath: string, data: Commands.Config, fx: Effects)
    requires fx.setup.SetupSucceeds? && fx.retrieve.Rejects?
    ensures var run := CheckForConflictsInternal(differ, projectPath, data, fx);
            && run.result == Rejected(Some(fx.retrieve.error))
            && run.reports == []
            && run.trace == Plan(projectPath, data)[..3]
            && run.workspaceExists
  {
  }

  /** A rejected convert command becomes the run's rejection; neither the diff nor the removal starts. */
  lemma ConvertRejectionPropagates<D>(
    differ: (string, string) -> DiffOutcome<D>, projectPath: string, data: Commands.Config, fx: Effects)
    requires fx.setup.SetupSucceeds? && fx.retrieve.Completes? && fx.extract.Succeeds? && fx.convert.Rejects?
    ensures var run := CheckForConflictsInternal(differ, projectPath, data, fx);
            && run.result == Rejected(Some(fx.convert.error))
            && run.reports == []
            && run.trace == Plan(projectPath, data)[..5]
            && run.workspaceExists
  {
  }

  /** An exception from the differ becomes the run's rejection, and the workspace is not removed. */
  lemma DiffFailurePropagates<D>(
    differ: (string, string) -> DiffOutcome<D>, projectPath: string, data: Commands.Config, fx: Effects)
    requires fx.setup.SetupSucceeds? && fx.retrieve.Completes? && fx.extract.Succeeds? && fx.convert.Completes?
    requires differ(Workspace.LocalSourcePath(projectPath, data.packageDir), Workspace.RemoteSourcePath(projectPath)).DiffThrows?
    ensures var run := CheckForConflictsInternal(differ, projectPath, data, fx);
            && run.result == Rejected(Some(differ(Workspace.LocalSourcePath(projectPath, data.packageDir),
                                                  Workspace.RemoteSourcePath(projectPath)).error))
            && run.reports == []
            && run.trace == Plan(projectPath, data)[..6]
            && run.workspaceExists
  {
  }

  /** The workspace is removed on the success path only: a removal step occurs iff the run resolves. */
  lemma CleanupOnlyOnSuccess<D>(
    differ: (string, string) -> DiffOutcome<D>, projectPath: string, data: Commands.Config, fx: Effects)
    ensures var run := CheckForConflictsInternal(differ, projectPath, data, fx);
            (exists s :: s in run.trace && s.RemoveTree?) <==> run.result.Resolved?
  {
    var run := CheckForConflictsInternal(differ, projectPath, data, fx);
    var plan := Plan(projectPath, data);
    TraceFollowsPlan(differ, projectPath, data, fx);
    if run.result.Resolved? {
      assert plan[6] in run.trace;
    } else {
      assert run.trace <= plan && run.trace != plan;
      forall s | s in run.trace
        ensures !s.RemoveTree?
      {
        var i :| 0 <= i < |run.trace| && run.trace[i] == s;
        assert i < 6;
      }
    }
  }

  /** Whether removing the workspace throws changes neither the result nor the steps taken. */
  lemma CleanupOutcomeDoesNotChangeResult<D>(
    differ: (string, string) -> DiffOutcome<D>, projectPath: string, data: Commands.Config, fx: Effects,
    remove: StepOutcome)
    ensures var run := CheckForConflictsInternal(differ, projectPath, data, fx);
            var other := CheckForConflictsInternal(differ, projectPath, data, fx.(remove := remove));
            run.result == other.result && run.trace == other.trace
  {
  }

  /**
    On the success path a failed removal only adds an `error_cleanup_temp_files`
    report and leaves the workspace; a successful one leaves no workspace
    and none of the staged paths.
   */
  lemma SuccessfulRunCleansUp<D>(
    differ: (string, string) -> DiffOutcome<D>, projectPath: string, data: Commands.Config, fx: Effects,
    fs: set<string>)
    requires fx.setup.SetupSucceeds? && fx.retrieve.Completes? && fx.extract.Succeeds? && fx.convert.Completes?
    requires differ(Workspace.LocalSourcePath(projectPath, data.packageDir), Workspace.RemoteSourcePath(projectPath)).Diffs?
    ensures var run := CheckForConflictsInternal(differ, projectPath, data, fx);
            && run.reports == (if fx.remove.Succeeds? then [] else [Report(ErrorCleanupTempFiles, fx.remove.error)])
            && (run.workspaceExists <==> fx.remove.Throws?)
            && run.trace[|run.trace| - 1] == RemoveTree(Workspace.ProjectMetadataTempPath(projectPath))
    ensures var run := CheckForConflictsInternal(differ, projectPath, data, fx);
            var removed := run.trace[|run.trace| - 1].path;
            && removed !in Paths.RemoveTree(fs, removed)
            && forall p :: p in Workspace.StagedPaths(projectPath) ==> p !in Paths.RemoveTree(fs, removed)
  {
    TraceFollowsPlan(differ, projectPath, data, fx);
    Workspace.RemovingTempRootRemovesStaging(fs, projectPath);
  }

  /** A rejection without a reason is exactly a rejection that reported a setup or extraction error. */
  lemma ReasonlessRejectionIsReported<D>(
    differ: (string, string) -> DiffOutcome<D>, projectPath: string, data: Commands.Config, fx: Effects)
    ensures var run := CheckForConflictsInternal(differ, projectPath, data, fx);
            run.result == Rejected(None) <==>
              |run.reports| == 1 && run.reports[0].key in {ErrorCreatingPackageXml, ErrorExtractingOrgSource}
  {
  }
}
