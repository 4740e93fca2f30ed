/**
  The two Salesforce CLI commands a conflict check runs, built the way
  `SfdxCommandBuilder` builds them, their rendering as one command line,
  and the record of one execution (command, working directory, environment).
 */
module Commands {
  import Strings
  import Workspace

  /** What the caller asks to check: whose org, which local package, which manifest. */
  datatype Config = Config(usernameOrAlias: string, packageDir: string, manifest: string)

  /** The CLI executable every built command starts with. */
  const Sfdx: string := "sfdx"

  /**
    A built command. `description` holds the message key that the UI
    localises; the arguments follow the executable in order.
   */
  datatype Command = Command(command: string, description: string, args: seq<string>, logName: string)

  /** A command under construction: flags append their name and then their value. */
  datatype CommandBuilder = CommandBuilder(description: string, args: seq<string>, logName: string)
  {
    function WithDescription(key: string): CommandBuilder
    {
      this.(description := key)
    }

    function WithArg(arg: string): CommandBuilder
    {
      this.(args := args + [arg])
    }

    function WithFlag(name: string, value: string): CommandBuilder
    {
      this.(args := args + [name, value])
    }

    function WithLogName(name: string): CommandBuilder
    {
      this.(logName := name)
    }

    function Build(): Command
    {
      Command(Sfdx, description, args, logName)
    }
  }

  function NewSfdxCommandBuilder(): CommandBuilder
  {
    CommandBuilder("", [], "")
  }

  /** The command line: the executable and its arguments separated by single spaces; it begins with the executable. */
  function ToCommand(c: Command): (line: string)
    ensures |line| >= |c.command| && line[..|c.command|] == c.command
  {
    var words := [c.command] + c.args;
    Strings.JoinWithStartsWithFirst(' ', words);
    Strings.JoinWith(' ', words)
  }

  const RetrieveKey: string := "conflict_detect_retrieve_org_source"
  const ConvertKey: string := "conflict_detect_convert_org_source"

  /** Fixed text of the retrieve command line, up to the org's username or alias. */
  const RetrieveLinePrefix: string :=
    "sfdx" + " " + "force:mdapi:retrieve" + " " + "--retrievetargetdir" + " " + ".sfdx/tools/conflicts"
    + " " + "--unpackaged" + " " + ".sfdx/tools/conflicts/package.xml" + " " + "--targetusername" + " "

  /** The whole convert command line. */
  const ConvertLineText: string :=
    "sfdx" + " " + "force:mdapi:convert" + " " + "--rootdir" + " " + ".sfdx/tools/conflicts/unpackaged"
    + " " + "--outputdir" + " " + ".sfdx/tools/conflicts/converted"

  /** Retrieve the manifest's metadata from the org into the workspace root. */
  function BuildRetrieveOrgSourceCommand(data: Config): (c: Command)
    ensures c.args == [ "force:mdapi:retrieve",
                        "--retrievetargetdir", ".sfdx/tools/conflicts",
                        "--unpackaged", ".sfdx/tools/conflicts/package.xml",
                        "--targetusername", data.usernameOrAlias ]
    ensures ToCommand(c) == RetrieveLinePrefix + data.usernameOrAlias
    ensures c.description == RetrieveKey && c.logName == RetrieveKey
  {
    Workspace.RelativeLayout();
    var c := NewSfdxCommandBuilder()
      .WithDescription(RetrieveKey)
      .WithArg("force:mdapi:retrieve")
      .WithFlag("--retrievetargetdir", Workspace.RelativeMetadataTempPath)
      .WithFlag("--unpackaged", Workspace.RelativePackageXmlPath)
      .WithFlag("--targetusername", data.usernameOrAlias)
      .WithLogName(RetrieveKey)
      .Build();
    JoinEightWords(Sfdx, "force:mdapi:retrieve", "--retrievetargetdir", ".sfdx/tools/conflicts",
                   "--unpackaged", ".sfdx/tools/conflicts/package.xml", "--targetusername",
                   data.usernameOrAlias);
    c
  }

  /** Convert the extracted metadata into source format inside the workspace. */
  function BuildMetadataApiConvertOrgSourceCommand(data: Config): (c: Command)
    ensures c.args == [ "force:mdapi:convert",
                        "--rootdir", ".sfdx/tools/conflicts/unpackaged",
                        "--outputdir", ".sfdx/tools/conflicts/converted" ]
    ensures ToCommand(c) == ConvertLineText
    ensures c.description == ConvertKey && c.logName == ConvertKey
  {
    Workspace.RelativeLayout();
    var c := NewSfdxCommandBuilder()
      .WithDescription(ConvertKey)
      .WithArg("force:mdapi:convert")
      .WithFlag("--rootdir", Workspace.RelativeUnpackagedPath)
      .WithFlag("--outputdir", Workspace.RelativeConvertedPath)
      .WithLogName(ConvertKey)
      .Build();
    JoinSixWords(Sfdx, "force:mdapi:convert", "--rootdir", ".sfdx/tools/conflicts/unpackaged",
                 "--outputdir", ".sfdx/tools/conflicts/converted");
    c
  }

  /** Eight words joined by spaces, written out. */
  lemma JoinEightWords(w0: string, w1: string, w2: string, w3: string,
                       w4: string, w5: string, w6: string, w7: string)
    ensures Strings.JoinWith(' ', [w0, w1, w2, w3, w4, w5, w6, w7])
            == w0 + " " + w1 + " " + w2 + " " + w3 + " " + w4 + " " + w5 + " " + w6 + " " + w7
  {
    JoinSixWords(w0, w1, w2, w3, w4, w5);
    Strings.JoinWithSnoc(' ', [w0, w1, w2, w3, w4, w5], w6);
    assert [w0, w1, w2, w3, w4, w5] + [w6] == [w0, w1, w2, w3, w4, w5, w6];
    Strings.JoinWithSnoc(' ', [w0, w1, w2, w3, w4, w5, w6], w7);
    assert [w0, w1, w2, w3, w4, w5, w6] + [w7] == [w0, w1, w2, w3, w4, w5, w6, w7];
  }

  /** Six words joined by spaces, written out. */
  lemma JoinSixWords(w0: string, w1: string, w2: string, w3: string, w4: string, w5: string)
    ensures Strings.JoinWith(' ', [w0, w1, w2, w3, w4, w5])
            == w0 + " " + w1 + " " + w2 + " " + w3 + " " + w4 + " " + w5
  {
    Strings.JoinWithSnoc(' ', [w0], w1);
    assert [w0] + [w1] == [w0, w1];
    Strings.JoinWithSnoc(' ', [w0, w1], w2);
    assert [w0, w1] + [w2] == [w0, w1, w2];
    Strings.JoinWithSnoc(' ', [w0, w1, w2], w3);
    assert [w0, w1, w2] + [w3] == [w0, w1, w2, w3];
    Strings.JoinWithSnoc(' ', [w0, w1, w2, w3], w4);
    assert [w0, w1, w2, w3] + [w4] == [w0, w1, w2, w3, w4];
    Strings.JoinWithSnoc(' ', [w0, w1, w2, w3, w4], w5);
    assert [w0, w1, w2, w3, w4] + [w5] == [w0, w1, w2, w3, w4, w5];
  }

  /** Only the org's username or alias shapes the retrieve command: equal commands iff equal usernames. */
  lemma RetrieveDependsOnlyOnUsername(a: Config, b: Config)
    ensures BuildRetrieveOrgSourceCommand(a) == BuildRetrieveOrgSourceCommand(b)
            <==> a.usernameOrAlias == b.usernameOrAlias
    ensures ToCommand(BuildRetrieveOrgSourceCommand(a)) == ToCommand(BuildRetrieveOrgSourceCommand(b))
            <==> a.usernameOrAlias == b.usernameOrAlias
  {
    var la := ToCommand(BuildRetrieveOrgSourceCommand(a));
    var lb := ToCommand(BuildRetrieveOrgSourceCommand(b));
    if la == lb {
      assert a.usernameOrAlias == la[|RetrieveLinePrefix|..];
      assert b.usernameOrAlias == lb[|RetrieveLinePrefix|..];
    }
    if BuildRetrieveOrgSourceCommand(a) == BuildRetrieveOrgSourceCommand(b) {
      assert BuildRetrieveOrgSourceCommand(a).args[6] == a.usernameOrAlias;
    }
  }

  /** The convert command is the same whatever the configuration. */
  lemma ConvertIsSameForEveryConfig(a: Config, b: Config)
    ensures BuildMetadataApiConvertOrgSourceCommand(a) == BuildMetadataApiConvertOrgSourceCommand(b)
  {
  }

  /**
    When no word contains a space, the command line splits back into the
    executable and the arguments: rendering loses nothing.
   */
  lemma CommandLineSplitsIntoArguments(c: Command)
    requires ' ' !in c.command
    requires forall i :: 0 <= i < |c.args| ==> ' ' !in c.args[i]
    ensures Strings.Split(' ', ToCommand(c)) == [c.command] + c.args
  {
    var words := [c.command] + c.args;
    assert forall i :: 0 <= i < |words| ==> ' ' !in words[i] by {
      forall i | 0 <= i < |words|
        ensures ' ' !in words[i]
      {
        if i > 0 {
          assert words[i] == c.args[i - 1];
        }
      }
    }
    Strings.SplitJoin(' ', words);
  }

  /** The environment every command runs with: CLI JSON output goes to stdout. */
  const JsonToStdoutEnv: map<string, string> := map["SFDX_JSON_TO_STDOUT" := "true"]

  /** One CLI execution as started: what ran, in which directory, with which environment overrides. */
  datatype Execution = Execution(command: Command, cwd: string, env: map<string, string>)

  /**
    The execution started for `command`: it runs in the project directory and
    overrides exactly one environment variable, sending the CLI's JSON to stdout.
   */
  function ExecuteCommand(command: Command, projectPath: string): (e: Execution)
    ensures e.command == command && e.cwd == projectPath
    ensures e.env.Keys == {"SFDX_JSON_TO_STDOUT"} && e.env["SFDX_JSON_TO_STDOUT"] == "true"
  {
    Execution(command, projectPath, JsonToStdoutEnv)
  }
}
