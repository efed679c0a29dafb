/** The settings src/config.py computes once at import time: the project
    root, the Terraform workspace and the log directory, each from the
    environment with a fallback chain over filesystem facts. */
module Config {
  import opened Process

  const ProjectRootVar := "PROJECT_ROOT"
  const WorkspaceVar := "TERRAFORM_WORKSPACE"
  const LogDirVar := "LOG_DIR"

  /** os.getenv: the value when the variable is set. */
  function Getenv(env: map<string, string>, name: string): (r: Option<string>)
    ensures r.Some? <==> name in env
    ensures r.Some? ==> r.value == env[name]
  {
    if name in env then Some(env[name]) else None
  }

  /** The value counts as given: set and not the empty string (Python truthiness). */
  predicate Given(env: map<string, string>, name: string) {
    Getenv(env, name).Some? && Getenv(env, name).value != ""
  }

  /** What the filesystem answers: which paths exist and whether as a file or
      a directory, and for each root the main.tf paths the recursive glob finds below it,
      in glob order. */
  datatype Kind = File | Dir
  datatype Disk = Disk(kinds: map<string, Kind>, mainTf: map<string, seq<string>>)

  predicate Exists(disk: Disk, p: string) {
    p in disk.kinds
  }

  predicate IsDir(disk: Disk, p: string) {
    p in disk.kinds && disk.kinds[p] == Dir
  }

  function MainTfUnder(disk: Disk, root: string): seq<string> {
    if root in disk.mainTf then disk.mainTf[root] else []
  }

  /** The `/` operator of pathlib, without normalisation. */
  function PathJoin(base: string, name: string): string {
    base + "/" + name
  }

  /** The `.parent` of a path: everything before its last `/`. */
  function Parent(p: string): string
    decreases |p|
  {
    if p == [] then "."
    else if p[|p| - 1] == '/' then p[..|p| - 1]
    else Parent(p[..|p| - 1])
  }

  /** Joining a name without `/` to a directory and taking the parent gives back the directory. */
  lemma {:induction false} ParentOfJoin(dir: string, name: string)
    requires '/' !in name
    ensures Parent(PathJoin(dir, name)) == dir
    decreases |name|
  {
    if name == [] {
      assert PathJoin(dir, name)[..|PathJoin(dir, name)| - 1] == dir;
    } else {
      var shorter := name[..|name| - 1];
      assert PathJoin(dir, name)[..|PathJoin(dir, name)| - 1] == PathJoin(dir, shorter);
      assert name[|name| - 1] in name;
      ParentOfJoin(dir, shorter);
    }
  }

  /** PROJECT_ROOT: the environment value when given, otherwise the directory
      two levels above config.py (passed in as `installRoot`). */
  function ProjectRoot(env: map<string, string>, installRoot: string): string {
    if Given(env, ProjectRootVar) then env[ProjectRootVar] else installRoot
  }

  function SamplePath(root: string): string {
    PathJoin(PathJoin(root, "examples"), "sample_terraform")
  }

  /** TERRAFORM_WORKSPACE: the environment value when given; otherwise the
      sample directory when it exists and is a directory; otherwise the parent
      of the first main.tf under the root; otherwise the root. */
  function Workspace(env: map<string, string>, disk: Disk, root: string): string {
    if Given(env, WorkspaceVar) then env[WorkspaceVar]
    else if Exists(disk, SamplePath(root)) && IsDir(disk, SamplePath(root)) then SamplePath(root)
    else
      var hits := MainTfUnder(disk, root);
      if hits != [] then Parent(hits[0]) else root
  }

  /** LOG_DIR: the environment value whenever the variable is set, otherwise root/logs. */
  function LogDir(env: map<string, string>, root: string): string {
    match Getenv(env, LogDirVar)
    case Some(dir) => dir
    case None => PathJoin(root, "logs")
  }

  datatype Settings = Settings(root: string, workspace: string, logDir: string)

  /** The module's globals after import; the workspace and log directory are
      both resolved against the root chosen first. */
  function Load(env: map<string, string>, disk: Disk, installRoot: string): (s: Settings)
    ensures s.workspace == Workspace(env, disk, s.root) && s.logDir == LogDir(env, s.root)
    ensures Given(env, ProjectRootVar) ==> s.root == env[ProjectRootVar]
    ensures !Given(env, ProjectRootVar) ==> s.root == installRoot
  {
    var root := ProjectRoot(env, installRoot);
    Settings(root, Workspace(env, disk, root), LogDir(env, root))
  }

  /** An empty PROJECT_ROOT behaves as if the variable were unset. */
  lemma EmptyProjectRootIsUnset(env: map<string, string>, installRoot: string)
    ensures ProjectRoot(env[ProjectRootVar := ""], installRoot) == ProjectRoot(env - {ProjectRootVar}, installRoot)
    ensures ProjectRoot(env - {ProjectRootVar}, installRoot) == installRoot
  {
  }

  /** The root is never empty when the install directory is not. */
  lemma ProjectRootNonEmpty(env: map<string, string>, installRoot: string)
    requires installRoot != ""
    ensures ProjectRoot(env, installRoot) != ""
  {
  }

  /** A given TERRAFORM_WORKSPACE decides the workspace whatever the filesystem and the root. */
  lemma WorkspaceFromEnvironment(env: map<string, string>, disk1: Disk, disk2: Disk, root1: string, root2: string)
    requires Given(env, WorkspaceVar)
    ensures Workspace(env, disk1, root1) == env[WorkspaceVar]
    ensures Workspace(env, disk1, root1) == Workspace(env, disk2, root2)
  {
  }

  /** An empty TERRAFORM_WORKSPACE behaves as if the variable were unset. */
  lemma EmptyWorkspaceIsUnset(env: map<string, string>, disk: Disk, root: string)
    ensures Workspace(env[WorkspaceVar := ""], disk, root) == Workspace(env - {WorkspaceVar}, disk, root)
  {
  }

  /** A sample directory is used whenever no workspace is given. */
  lemma SampleDirectoryChosen(env: map<string, string>, disk: Disk, root: string)
    requires !Given(env, WorkspaceVar)
    requires IsDir(disk, SamplePath(root))
    ensures Workspace(env, disk, root) == SamplePath(root)
  {
  }

  /** A plain file where the sample directory would be behaves as if nothing
      were there: the main.tf search runs. */
  lemma SampleFileSkipped(env: map<string, string>, disk: Disk, root: string)
    requires SamplePath(root) in disk.kinds && disk.kinds[SamplePath(root)] == File
    ensures Workspace(env, disk, root) == Workspace(env, disk.(kinds := disk.kinds - {SamplePath(root)}), root)
  {
  }

  /** Without a given workspace or a sample directory, the directory holding
      the first main.tf found is the workspace, and later ones do not matter. */
  lemma FirstMainTfWins(env: map<string, string>, disk: Disk, root: string, dir: string, rest: seq<string>)
    requires !Given(env, WorkspaceVar) && !IsDir(disk, SamplePath(root))
    requires MainTfUnder(disk, root) == [PathJoin(dir, "main.tf")] + rest
    ensures Workspace(env, disk, root) == dir
  {
    ParentOfJoin(dir, "main.tf");
  }

  /** With nothing given and nothing found, the workspace is the root. */
  lemma WorkspaceFallsBackToRoot(env: map<string, string>, disk: Disk, root: string)
    requires !Given(env, WorkspaceVar) && !Exists(disk, SamplePath(root)) && MainTfUnder(disk, root) == []
    ensures Workspace(env, disk, root) == root
  {
  }

  /** Unlike the other two variables, an empty LOG_DIR is kept: it differs
      from leaving the variable unset. */
  lemma EmptyLogDirIsKept(env: map<string, string>, root: string)
    ensures LogDir(env[LogDirVar := ""], root) == ""
    ensures LogDir(env - {LogDirVar}, root) == root + "/logs"
    ensures LogDir(env[LogDirVar := ""], root) != LogDir(env - {LogDirVar}, root)
  {
  }
}
