/**
  The temporary workspace of one conflict check: a single root directory,
  `.sfdx/tools/conflicts` under the project, holding the staged manifest,
  the retrieved archive, the extracted tree and the converted tree.
 */
module Workspace {
  import Strings
  import Paths

  /** Root of the workspace, relative to the project. */
  const RelativeMetadataTempPath: string := Paths.Join([".sfdx", "tools", "conflicts"])

  /** Where the manifest is staged for the retrieve command. */
  const RelativePackageXmlPath: string := Paths.Join([RelativeMetadataTempPath, "package.xml"])

  /** Where the retrieved archive unpacks its `unpackaged` folder. */
  const RelativeUnpackagedPath: string := Paths.Join([RelativeMetadataTempPath, "unpackaged"])

  /** Output of the convert command; written out segment by segment in the source. */
  const RelativeConvertedPath: string := Paths.Join([".sfdx", "tools", "conflicts", "converted"])

  /** Name of the archive the retrieve command leaves in the workspace root. */
  const ArchiveName: string := "unpackaged.zip"

  function ProjectMetadataTempPath(projectPath: string): string
  {
    Paths.Join([projectPath, RelativeMetadataTempPath])
  }

  function RetrievePackageXmlPath(projectPath: string): string
  {
    Paths.Join([projectPath, RelativePackageXmlPath])
  }

  function UnpackagedPath(projectPath: string): string
  {
    Paths.Join([projectPath, RelativeUnpackagedPath])
  }

  function UnpackagedZipFile(projectPath: string): string
  {
    Paths.Join([ProjectMetadataTempPath(projectPath), ArchiveName])
  }

  /** The remote side of the diff: the converted tree. */
  function RemoteSourcePath(projectPath: string): string
  {
    Paths.Join([projectPath, RelativeConvertedPath])
  }

  /** The local side of the diff: the project's package directory. */
  function LocalSourcePath(projectPath: string, packageDir: string): string
  {
    Paths.Join([projectPath, packageDir])
  }

  /** Everything a run stages inside the workspace. */
  function StagedPaths(projectPath: string): seq<string>
  {
    [ RetrievePackageXmlPath(projectPath), UnpackagedZipFile(projectPath),
      UnpackagedPath(projectPath), RemoteSourcePath(projectPath) ]
  }

  /** The relative layout, written out as literal strings. */
  lemma RelativeLayout()
    ensures RelativeMetadataTempPath == ".sfdx/tools/conflicts"
    ensures RelativePackageXmlPath == ".sfdx/tools/conflicts/package.xml"
    ensures RelativeUnpackagedPath == ".sfdx/tools/conflicts/unpackaged"
    ensures RelativeConvertedPath == ".sfdx/tools/conflicts/converted"
  {
    TempRootText();
    ChildText("package.xml");
    ChildText("unpackaged");
    ConvertedText();
  }

  lemma TempRootText()
    ensures RelativeMetadataTempPath == ".sfdx/tools/conflicts"
  {
    var segments := [".sfdx", "tools", "conflicts"];
    Paths.JoinNonEmptySegments(segments);
    Strings.JoinWithCons('/', "tools", ["conflicts"]);
    assert segments[1..] == ["tools", "conflicts"];
    Strings.JoinWithCons('/', ".sfdx", segments[1..]);
    assert segments == [".sfdx"] + segments[1..];
  }

  lemma ChildText(name: string)
    requires name != ""
    ensures Paths.Join([".sfdx/tools/conflicts", name]) == ".sfdx/tools/conflicts/" + name
  {
    Paths.JoinPair(".sfdx/tools/conflicts", name);
  }

  lemma ConvertedText()
    ensures RelativeConvertedPath == ".sfdx/tools/conflicts/converted"
  {
    var segments := [".sfdx", "tools", "conflicts", "converted"];
    Paths.JoinNonEmptySegments(segments);
    Strings.JoinWithCons('/', "conflicts", ["converted"]);
    assert segments[2..] == ["conflicts", "converted"];
    Strings.JoinWithCons('/', "tools", segments[2..]);
    assert segments[1..] == ["tools"] + segments[2..];
    Strings.JoinWithCons('/', ".sfdx", segments[1..]);
    assert segments == [".sfdx"] + segments[1..];
    assert ".sfdx/tools/conflicts/converted" == ".sfdx/tools/conflicts" + "/" + "converted";
    TempRootText();
  }

  /** The converted directory is the workspace root's `converted` child, although spelled out separately. */
  lemma ConvertedPathIsChildOfTempRoot()
    ensures RelativeConvertedPath == Paths.Join([RelativeMetadataTempPath, "converted"])
  {
    ConvertedText();
    TempRootText();
    ChildText("converted");
  }

  /** The directory the archive unpacks to is the `unpackaged` child of the workspace root, under any project path. */
  lemma UnpackedTreeIsChildOfTempRoot(projectPath: string)
    ensures UnpackagedPath(projectPath) == Paths.Join([ProjectMetadataTempPath(projectPath), "unpackaged"])
  {
    TempRootText();
    Paths.JoinNested(projectPath, RelativeMetadataTempPath, "unpackaged");
  }

  /** Every staged path lies strictly inside the one workspace root, for any project path. */
  lemma StagedPathsUnderTempRoot(projectPath: string)
    ensures forall p :: p in StagedPaths(projectPath) ==>
              Paths.IsStrictlyUnder(ProjectMetadataTempPath(projectPath), p)
  {
    RelativeLayout();
    var root := RelativeMetadataTempPath;
    Paths.ChildIsStrictlyUnder(root, "package.xml");
    Paths.ChildIsStrictlyUnder(root, "unpackaged");
    ConvertedPathIsChildOfTempRoot();
    Paths.ChildIsStrictlyUnder(root, "converted");
    Paths.JoinKeepsStrictlyUnder(projectPath, root, RelativePackageXmlPath);
    Paths.JoinKeepsStrictlyUnder(projectPath, root, RelativeUnpackagedPath);
    Paths.JoinKeepsStrictlyUnder(projectPath, root, RelativeConvertedPath);
    Paths.JoinPair(projectPath, root);
    Paths.ChildIsStrictlyUnder(ProjectMetadataTempPath(projectPath), ArchiveName);
  }

  /** Removing the workspace root removes the root and every staged path. */
  lemma RemovingTempRootRemovesStaging(fs: set<string>, projectPath: string)
    ensures ProjectMetadataTempPath(projectPath) !in Paths.RemoveTree(fs, ProjectMetadataTempPath(projectPath))
    ensures forall p :: p in StagedPaths(projectPath) ==>
              p !in Paths.RemoveTree(fs, ProjectMetadataTempPath(projectPath))
  {
    StagedPathsUnderTempRoot(projectPath);
  }
}
