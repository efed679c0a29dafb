/** src/handlers/terraform.py: the TerraformHandler class. Its constructor checks
    the workspace and finds the terraform executable; each operation builds an
    argument vector, runs it (here: receives the run's Outcome) and turns the
    outcome into the text it returns. No operation raises. */
module Handler {
  import opened Text
  import opened Process
  import opened Utils

  const DefaultExecutable := "terraform"
  const SavedNote := "\n\nPlan visualization saved as " + "terraform_plan.png"
  const FailedNote := "\n\nNote: Plan visualization " + "failed"
  const NoResources := "No resources found in the current state."

  /** The two prefixes of each operation's error messages: a non-zero exit, then any other exception. */
  const InitFailed := "Error during terraform init: "
  const InitUnexpected := "Unexpected error during terraform init: "
  const PlanFailed := "Error generating plan: "
  const PlanUnexpected := "Unexpected error during plan: "
  const ApplyFailed := "Error applying configuration: "
  const ApplyUnexpected := "Unexpected error during apply: "
  const DestroyFailed := "Error destroying infrastructure: "
  const DestroyUnexpected := "Unexpected error during destroy: "
  const StateFailed := "Error listing state: "
  const StateUnexpected := "Unexpected error during state list: "
  const ShowFailed := "Error showing state: "
  const ShowUnexpected := "Unexpected error during show: "

  /** Why the constructor raises: ValueError for a bad workspace, RuntimeError
      when terraform cannot be found. */
  datatype InitError = InvalidWorkspace(message: string) | NotInstalled(message: string)

  /** The (is_installed, error_message) pair check_tool_installed returns. */
  datatype ToolCheck = ToolCheck(installed: bool, error: string)

  /** The three attributes __init__ assigns. */
  datatype Fields = Fields(envVars: map<string, string>, workspacePath: string,
                           terraformPath: Option<string>)

  /** Python truthiness of terraform_path: neither None nor "". */
  predicate IsSet(path: Option<string>) {
    path.Some? && path.value != ""
  }

  /** `env_vars or os.environ.copy()`: a missing or empty mapping falls back to the
      process environment. */
  function ResolveEnv(envArg: Option<map<string, string>>, osEnv: map<string, string>)
    : (env: map<string, string>)
    ensures envArg.Some? && |envArg.value| > 0 ==> env == envArg.value
    ensures envArg.None? || |envArg.value| == 0 ==> env == osEnv
  {
    if envArg.Some? && |envArg.value| > 0 then envArg.value else osEnv
  }

  /** os.environ.get(key, default). */
  function EnvGet(env: map<string, string>, key: string, default: string): string {
    if key in env then env[key] else default
  }

  /** pathlib's `base / name` rendered with the platform separator sep. An empty
      base is Path(""), i.e. ".", which contributes nothing. */
  function PathJoin(base: string, name: string, sep: string): string {
    if base == "" then name
    else if EndsWith(base, sep) then base + name
    else base + sep + name
  }

  /** The three install locations tried when `which` finds nothing, in order. */
  function CommonPaths(osEnv: map<string, string>, sep: string): (paths: seq<string>)
    ensures |paths| == 3
  {
    [ PathJoin(PathJoin(EnvGet(osEnv, "ProgramFiles", "C:\\Program Files"), "terraform", sep), "terraform.exe", sep),
      PathJoin(PathJoin(EnvGet(osEnv, "ProgramFiles(x86)", "C:\\Program Files (x86)"), "terraform", sep), "terraform.exe", sep),
      PathJoin(PathJoin(PathJoin(EnvGet(osEnv, "LOCALAPPDATA", ""), "Programs", sep), "terraform", sep), "terraform.exe", sep) ]
  }

  /** The suffix every candidate shares: the "terraform" directory and the executable in it. */
  function Tail(sep: string): string {
    "terraform" + sep + "terraform.exe"
  }

  /** With either platform separator, each candidate is its environment
      variable's value (when set, non-empty and not ending in the separator) or
      its default, followed by the separator and the fixed tail; an unset
      LOCALAPPDATA is Path(""), so the third candidate starts at "Programs". */
  lemma CommonPathsSpelled(osEnv: map<string, string>, sep: string)
    requires sep == "/" || sep == "\\"
    ensures "ProgramFiles" !in osEnv ==>
              CommonPaths(osEnv, sep)[0] == "C:\\Program Files" + sep + Tail(sep)
    ensures "ProgramFiles" in osEnv && osEnv["ProgramFiles"] != "" && !EndsWith(osEnv["ProgramFiles"], sep) ==>
              CommonPaths(osEnv, sep)[0] == osEnv["ProgramFiles"] + sep + Tail(sep)
    ensures "ProgramFiles(x86)" !in osEnv ==>
              CommonPaths(osEnv, sep)[1] == "C:\\Program Files (x86)" + sep + Tail(sep)
    ensures "ProgramFiles(x86)" in osEnv && osEnv["ProgramFiles(x86)"] != ""
            && !EndsWith(osEnv["ProgramFiles(x86)"], sep) ==>
              CommonPaths(osEnv, sep)[1] == osEnv["ProgramFiles(x86)"] + sep + Tail(sep)
    ensures "LOCALAPPDATA" !in osEnv ==>
              CommonPaths(osEnv, sep)[2] == "Programs" + sep + Tail(sep)
    ensures "LOCALAPPDATA" in osEnv && osEnv["LOCALAPPDATA"] != "" && !EndsWith(osEnv["LOCALAPPDATA"], sep) ==>
              CommonPaths(osEnv, sep)[2] == osEnv["LOCALAPPDATA"] + sep + "Programs" + sep + Tail(sep)
  {
    JoinDirectory(EnvGet(osEnv, "ProgramFiles", "C:\\Program Files"), sep);
    JoinDirectory(EnvGet(osEnv, "ProgramFiles(x86)", "C:\\Program Files (x86)"), sep);
    DefaultsEndVisibly(sep);
    JoinLocal(EnvGet(osEnv, "LOCALAPPDATA", ""), sep);
  }

  /** A one-character separator ends a text only if the text's last character is it. */
  lemma LastCharDecides(d: string, sep: string)
    requires |sep| == 1 && d != [] && d[|d| - 1] != sep[0]
    ensures !EndsWith(d, sep)
  {
  }

  /** A join ends like its name, so it does not end in a separator the name does not end in. */
  lemma JoinEndsLikeName(base: string, sep: string, name: string)
    requires |sep| == 1 && name != [] && name[|name| - 1] != sep[0]
    ensures !EndsWith(base + sep + name, sep)
  {
    var d := base + sep + name;
    assert d[|d| - 1] == name[|name| - 1];
    LastCharDecides(d, sep);
  }

  /** Two joins below a base that is neither empty nor ends in the separator. */
  lemma JoinTwice(base: string, a: string, b: string, sep: string)
    requires |sep| == 1 && base != [] && !EndsWith(base, sep)
    requires a != [] && a[|a| - 1] != sep[0]
    ensures PathJoin(PathJoin(base, a, sep), b, sep) == base + sep + (a + sep + b)
  {
    JoinEndsLikeName(base, sep, a);
    assert base + sep + a + sep + b == base + sep + (a + sep + b);
  }

  /** One candidate below a non-empty base that does not end in the separator. */
  lemma JoinDirectory(base: string, sep: string)
    requires sep == "/" || sep == "\\"
    ensures base != "" && !EndsWith(base, sep) ==>
              PathJoin(PathJoin(base, "terraform", sep), "terraform.exe", sep) == base + sep + Tail(sep)
  {
    if base != "" && !EndsWith(base, sep) {
      JoinTwice(base, "terraform", "terraform.exe", sep);
    }
  }

  /** The defaults of ProgramFiles and ProgramFiles(x86) do not end in a separator. */
  lemma DefaultsEndVisibly(sep: string)
    requires sep == "/" || sep == "\\"
    ensures !EndsWith("C:\\Program Files", sep) && !EndsWith("C:\\Program Files (x86)", sep)
  {
    LastCharDecides("C:\\Program Files", sep);
    LastCharDecides("C:\\Program Files (x86)", sep);
  }

  /** The third candidate, below Path(LOCALAPPDATA) / "Programs". */
  lemma JoinLocal(base: string, sep: string)
    requires sep == "/" || sep == "\\"
    ensures base == "" ==>
              PathJoin(PathJoin(PathJoin(base, "Programs", sep), "terraform", sep), "terraform.exe", sep)
              == "Programs" + sep + Tail(sep)
    ensures base != "" && !EndsWith(base, sep) ==>
              PathJoin(PathJoin(PathJoin(base, "Programs", sep), "terraform", sep), "terraform.exe", sep)
              == base + sep + "Programs" + sep + Tail(sep)
  {
    var p := PathJoin(base, "Programs", sep);
    if base == "" {
      LastCharDecides("Programs", sep);
    } else if !EndsWith(base, sep) {
      JoinEndsLikeName(base, sep, "Programs");
    }
    if p != [] && !EndsWith(p, sep) {
      JoinTwice(p, "terraform", "terraform.exe", sep);
    }
  }

  /** The first of paths that exists, in list order. */
  function FirstPathIn(paths: seq<string>, existing: set<string>): (found: Option<string>)
    ensures found.Some? ==>
              exists k :: 0 <= k < |paths| && paths[k] == found.value && paths[k] in existing
                          && forall j :: 0 <= j < k ==> paths[j] !in existing
    ensures found.None? <==> forall k :: 0 <= k < |paths| ==> paths[k] !in existing
  {
    if paths == [] then None
    else if paths[0] in existing then Some(paths[0])
    else
      var rest := FirstPathIn(paths[1..], existing);
      assert forall k :: 1 <= k < |paths| ==> paths[k] == paths[1..][k - 1];
      rest
  }

  /** The for-loop of __init__ over common_paths, stopping at the first hit. */
  method FirstExisting(paths: seq<string>, existing: set<string>) returns (found: Option<string>)
    ensures found == FirstPathIn(paths, existing)
  {
    found := None;
    var i := 0;
    while i < |paths|
      invariant 0 <= i <= |paths|
      invariant FirstPathIn(paths, existing) == FirstPathIn(paths[i..], existing)
    {
      if paths[i] in existing {
        found := Some(paths[i]);
        return;
      }
      assert paths[i..][1..] == paths[i + 1..];
      i := i + 1;
    }
  }

  /** What __init__ does, step by step in the source's order: choose the
      environment, validate the workspace (ValueError), take `which`, then the
      common paths, then give up only if check_tool_installed also fails
      (RuntimeError). A handler built without a located path keeps None. */
  function Construct(workspacePath: string, ws: PathFacts, parent: PathFacts,
                     envArg: Option<map<string, string>>, osEnv: map<string, string>,
                     which: Option<string>, existing: set<string>, sep: string,
                     check: ToolCheck): (r: Result<Fields, InitError>)
    ensures r.Err? && r.error.InvalidWorkspace? <==> !ValidateWorkspace(ws, parent)
    ensures !ValidateWorkspace(ws, parent) ==>
              r == Err(InvalidWorkspace("Invalid Terraform workspace: " + workspacePath))
    ensures r.Err? && r.error.NotInstalled? <==>
              ValidateWorkspace(ws, parent) && !IsSet(which)
              && (forall k :: 0 <= k < 3 ==> CommonPaths(osEnv, sep)[k] !in existing)
              && !check.installed
    ensures r.Err? && r.error.NotInstalled? ==>
              r.error.message == "Terraform not installed: " + check.error
    ensures r.Ok? ==> r.value.envVars == ResolveEnv(envArg, osEnv)
                      && r.value.workspacePath == workspacePath
    ensures r.Ok? && IsSet(which) ==> r.value.terraformPath == which
    ensures r.Ok? && !IsSet(which) && FirstPathIn(CommonPaths(osEnv, sep), existing).Some? ==>
              r.value.terraformPath == FirstPathIn(CommonPaths(osEnv, sep), existing)
    ensures r.Ok? && !IsSet(which) && FirstPathIn(CommonPaths(osEnv, sep), existing).None? ==>
              r.value.terraformPath == which
  {
    var env := ResolveEnv(envArg, osEnv);
    if !ValidateWorkspace(ws, parent) then
      Err(InvalidWorkspace("Invalid Terraform workspace: " + workspacePath))
    else
      var path := if IsSet(which) then which
                  else match FirstPathIn(CommonPaths(osEnv, sep), existing)
                       case Some(p) => Some(p)
                       case None => which;
      if !IsSet(path) && !check.installed then
        Err(NotInstalled("Terraform not installed: " + check.error))
      else
        Ok(Fields(env, workspacePath, path))
  }

  /** How an operation turns its one command outcome into text: formatted output
      on success, the operation's failure prefix plus the error detail on a
      non-zero exit, and "Unexpected error during ...: " plus the message for any
      other exception. */
  function Respond(run: Outcome, failPrefix: string, unexpectedPrefix: string): string {
    match run
    case Completed(out, err) => FormatOutput(out, err)
    case ProcFailed(_, err, msg) => failPrefix + FailureDetail(err, msg)
    case NotFound(msg) => unexpectedPrefix + msg
    case OtherError(msg) => unexpectedPrefix + msg
  }

  /** A non-zero exit is never reported silently: the text is the failure prefix
      followed by the captured stderr, or by str(e) when stderr is empty. */
  lemma RespondReportsFailure(run: Outcome, failPrefix: string, unexpectedPrefix: string)
    requires run.ProcFailed?
    ensures StartsWith(Respond(run, failPrefix, unexpectedPrefix), failPrefix)
    ensures run.stderr != "" ==> EndsWith(Respond(run, failPrefix, unexpectedPrefix), run.stderr)
    ensures run.stderr == "" ==> EndsWith(Respond(run, failPrefix, unexpectedPrefix), run.message)
  {
    var t := Respond(run, failPrefix, unexpectedPrefix);
    var d := FailureDetail(run.stderr, run.message);
    assert t == failPrefix + d;
    assert t[..|failPrefix|] == failPrefix;
    assert t[|t| - |d|..] == d;
  }

  /** Adding a note that ends in a visible character after stdout keeps the
      plan text: the stripped stdout still starts the stripped result. */
  lemma StripKeepsLeadingText(out: string, note: string)
    requires note != [] && !IsSpace(note[|note| - 1])
    ensures StartsWith(Strip(out + note), Strip(out))
  {
    TrimStartAppend(out, note);
    if !AllSpace(out) {
      var u := TrimStart(out);
      VisibleEndKept(u, note);
      PrefixOfAppend(TrimEnd(u), u, note);
    } else {
      StripEmptyIffAllSpace(out);
    }
  }

  /** Text ending in a visible character loses nothing to TrimEnd. */
  lemma VisibleEndKept(u: string, note: string)
    requires note != [] && !IsSpace(note[|note| - 1])
    ensures TrimEnd(u + note) == u + note
  {
    assert (u + note)[|u + note| - 1] == note[|note| - 1];
  }

  lemma PrefixOfAppend(v: string, u: string, note: string)
    requires |v| <= |u| && v == u[..|v|]
    ensures StartsWith(u + note, v)
  {
    assert (u + note)[..|v|] == u[..|v|];
  }


  lemma AllSpaceCons(a: string)
    requires a != []
    ensures AllSpace(a) <==> IsSpace(a[0]) && AllSpace(a[1..])
  {
    if IsSpace(a[0]) && AllSpace(a[1..]) {
      forall k | 0 <= k < |a| ensures IsSpace(a[k]) {
        if k > 0 { assert a[k] == a[1..][k - 1]; }
      }
    }
  }

  lemma {:induction false} TrimStartAppend(a: string, b: string)
    ensures !AllSpace(a) ==> TrimStart(a + b) == TrimStart(a) + b
    ensures AllSpace(a) ==> TrimStart(a + b) == TrimStart(b)
    decreases |a|
  {
    if a == [] {
      assert a + b == b;
    } else {
      AllSpaceCons(a);
      var s := a + b;
      assert s[0] == a[0];
      if IsSpace(a[0]) {
        assert s[1..] == a[1..] + b;
        assert TrimStart(s) == TrimStart(s[1..]);
        assert TrimStart(a) == TrimStart(a[1..]);
        TrimStartAppend(a[1..], b);
      } else {
        assert TrimStart(s) == s;
        assert TrimStart(a) == a;
      }
    }
  }

  /** The shell pipeline plan() runs for the picture; it names the bare
      "terraform", not the resolved path. */
  function GraphCommand(outFile: string): string {
    "terraform graph -type=plan " + outFile + " | dot -Tpng > terraform_plan.png"
  }

  class TerraformHandler {
    var envVars: map<string, string>
    var workspacePath: string
    var terraformPath: Option<string>

    /** Only reached from Create, once __init__'s checks have passed. */
    constructor (fields: Fields)
      ensures envVars == fields.envVars && workspacePath == fields.workspacePath
      ensures terraformPath == fields.terraformPath
    {
      envVars := fields.envVars;
      workspacePath := fields.workspacePath;
      terraformPath := fields.terraformPath;
    }

    /** TerraformHandler(workspace_path, env_vars): raises exactly when Construct
        reports an error, and otherwise holds the fields Construct computes. */
    static method Create(workspacePath: string, ws: PathFacts, parent: PathFacts,
                         envArg: Option<map<string, string>>, osEnv: map<string, string>,
                         which: Option<string>, existing: set<string>, sep: string,
                         check: ToolCheck) returns (r: Result<TerraformHandler, InitError>)
      ensures Construct(workspacePath, ws, parent, envArg, osEnv, which, existing, sep, check).Err? ==>
                r.Err? && r.error == Construct(workspacePath, ws, parent, envArg, osEnv, which, existing, sep, check).error
      ensures Construct(workspacePath, ws, parent, envArg, osEnv, which, existing, sep, check).Ok? ==>
                r.Ok? && fresh(r.value)
                && r.value.State() == Construct(workspacePath, ws, parent, envArg, osEnv, which, existing, sep, check).value
    {
      var env := ResolveEnv(envArg, osEnv);
      if !ValidateWorkspace(ws, parent) {
        return Err(InvalidWorkspace("Invalid Terraform workspace: " + workspacePath));
      }
      var path := which;
      if !IsSet(path) {
        var hit := FirstExisting(CommonPaths(osEnv, sep), existing);
        if hit.Some? {
          path := hit;
        }
      }
      if !IsSet(path) && !check.installed {
        return Err(NotInstalled("Terraform not installed: " + check.error));
      }
      var h := new TerraformHandler(Fields(env, workspacePath, path));
      return Ok(h);
    }

    function State(): Fields
      reads this
    {
      Fields(envVars, workspacePath, terraformPath)
    }

    /** `self.terraform_path or "terraform"`. */
    function Executable(): (exe: string)
      reads this
      ensures IsSet(terraformPath) ==> exe == terraformPath.value
      ensures !IsSet(terraformPath) ==> exe == DefaultExecutable
    {
      if IsSet(terraformPath) then terraformPath.value else DefaultExecutable
    }

    /** _run_terraform_command's full_cmd: the executable, then cmd unchanged. */
    function Command(cmd: seq<string>): (argv: seq<string>)
      reads this
      ensures |argv| == |cmd| + 1 && argv[0] == Executable() && argv[1..] == cmd
    {
      [Executable()] + cmd
    }

    method Init(run: Outcome) returns (argv: seq<string>, text: string)
      ensures argv == Command(["init"])
      ensures text == Respond(run, InitFailed, InitUnexpected)
    {
      argv := Command(["init"]);
      text := Respond(run, InitFailed, InitUnexpected);
    }

    /** plan(out_file): the plan run, then (only if it succeeded and dot is
        installed) the graph pipeline. A failed picture only changes the note; an
        exception other than CalledProcessError from the pipeline reaches the
        outer handler. */
    method Plan(outFile: string, run: Outcome, dotInstalled: bool, graph: Outcome)
      returns (argv: seq<string>, pipeline: Option<string>, text: string)
      ensures argv == Command(["plan", "-out=" + outFile])
      ensures pipeline == if run.Completed? && dotInstalled then Some(GraphCommand(outFile)) else None
      ensures run.Completed? && dotInstalled && graph.Completed? ==>
                text == FormatOutput(run.stdout + SavedNote, run.stderr)
      ensures run.Completed? && dotInstalled && graph.ProcFailed? ==>
                text == FormatOutput(run.stdout + FailedNote, run.stderr)
      ensures run.Completed? && dotInstalled && (graph.NotFound? || graph.OtherError?) ==>
                text == PlanUnexpected + graph.message
      ensures run.Completed? && !dotInstalled ==> text == FormatOutput(run.stdout, run.stderr)
      ensures !run.Completed? ==>
                text == Respond(run, PlanFailed, PlanUnexpected)
    {
      argv := Command(["plan", "-out=" + outFile]);
      pipeline := None;
      if !run.Completed? {
        text := Respond(run, PlanFailed, PlanUnexpected);
        return;
      }
      if dotInstalled {
        pipeline := Some(GraphCommand(outFile));
        match graph {
          case Completed(_, _) =>
            text := FormatOutput(run.stdout + SavedNote, run.stderr);
          case ProcFailed(_, _, _) =>
            text := FormatOutput(run.stdout + FailedNote, run.stderr);
          case NotFound(msg) =>
            text := PlanUnexpected + msg;
          case OtherError(msg) =>
            text := PlanUnexpected + msg;
        }
        return;
      }
      text := FormatOutput(run.stdout, run.stderr);
    }

    method Apply(autoApprove: bool, run: Outcome) returns (argv: seq<string>, text: string)
      ensures |argv| >= 2 && argv[0] == Executable()
      ensures argv[1..] == if autoApprove then ["apply", "-auto-approve"] else ["apply"]
      ensures text == Respond(run, ApplyFailed, ApplyUnexpected)
    {
      var cmd := ["apply"];
      if autoApprove {
        cmd := cmd + ["-auto-approve"];
      }
      argv := Command(cmd);
      text := Respond(run, ApplyFailed, ApplyUnexpected);
    }

    method Destroy(autoApprove: bool, run: Outcome) returns (argv: seq<string>, text: string)
      ensures |argv| >= 2 && argv[0] == Executable()
      ensures argv[1..] == if autoApprove then ["destroy", "-auto-approve"] else ["destroy"]
      ensures text == Respond(run, DestroyFailed, DestroyUnexpected)
    {
      var cmd := ["destroy"];
      if autoApprove {
        cmd := cmd + ["-auto-approve"];
      }
      argv := Command(cmd);
      text := Respond(run, DestroyFailed, DestroyUnexpected);
    }

    /** state_list: the stripped stdout alone (stderr of a successful run is not
        shown), or a fixed sentence when there is none. */
    method StateList(run: Outcome) returns (argv: seq<string>, text: string)
      ensures argv == Command(["state", "list"])
      ensures run.Completed? && Strip(run.stdout) != "" ==> text == Strip(run.stdout)
      ensures run.Completed? && Strip(run.stdout) == "" ==> text == NoResources
      ensures !run.Completed? ==>
                text == Respond(run, StateFailed, StateUnexpected)
    {
      argv := Command(["state", "list"]);
      if run.Completed? {
        var output := Strip(run.stdout);
        text := if output != "" then output else NoResources;
      } else {
        text := Respond(run, StateFailed, StateUnexpected);
      }
    }

    method Show(run: Outcome) returns (argv: seq<string>, text: string)
      ensures argv == Command(["show"])
      ensures text == Respond(run, ShowFailed, ShowUnexpected)
    {
      argv := Command(["show"]);
      text := Respond(run, ShowFailed, ShowUnexpected);
    }
  }

  /** Whatever the visualisation step does, a successful plan's own output is the
      start of the returned text (when the plan printed anything). */
  lemma PlanKeepsPlanOutput(out: string, err: string, note: string)
    requires note == SavedNote || note == FailedNote
    ensures StartsWith(FormatOutput(out + note, err), Strip(out))
  {
    if note == SavedNote {
      SavedNoteVisible();
    } else {
      FailedNoteVisible();
    }
    StripKeepsLeadingText(out, note);
    assert out + note != "";
    FormatOutputOrder(out + note, err);
    StartsWithTrans(FormatOutput(out + note, err), Strip(out + note), Strip(out));
  }

  lemma SavedNoteVisible()
    ensures SavedNote != [] && !IsSpace(SavedNote[|SavedNote| - 1])
  {
  }

  lemma FailedNoteVisible()
    ensures FailedNote != [] && !IsSpace(FailedNote[|FailedNote| - 1])
  {
  }

}
