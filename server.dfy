/** The query tool of the stand-alone script (terraform-mcp-server.py): a longer
    ordered keyword table than the packaged server's, a passthrough of whatever
    is left once the word "terraform" is removed, and one reply per branch built
    from the outcomes of the commands that branch runs. */
module Server {
  import opened Text
  import opened Process
  import opened Intent

  datatype ServerOp =
    | Plan
    | State
    | Cost
    | Security
    | Drift
    | Explain
    | Apply
    | Destroy
    | Passthrough(command: string)
    | Unrecognised

  const PlanWords := ["plan", "what will change", "execution plan", "visualize"]
  const StateWords := ["state list", "resources exist", "current state", "list all resources"]
  const CostWords := ["cost", "expense", "price", "pricing", "how much"]
  const SecurityWords := ["security", "vulnerabilit", "secure", "issues"]
  const DriftWords := ["drift", "changed since", "consistent"]
  const ExplainWords := ["explain", "documentation", "what does", "show"]
  const ApplyWords := ["apply", "deploy"]
  const DestroyWords := ["destroy", "remove", "tear down"]

  const UnrecognisedMessage :=
    "I couldn't determine which Terraform operation to perform. Please be more specific."

  /** What the passthrough branch would run: the query with every "terraform"
      deleted, then trimmed. */
  function Remainder(q: string): string {
    Strip(RemoveAll(q, "terraform"))
  }

  /** The remainder is already trimmed, and a query without "terraform" is
      only trimmed. */
  lemma RemainderTrimmed(q: string)
    ensures Strip(Remainder(q)) == Remainder(q)
    ensures !Contains(q, "terraform") ==> Remainder(q) == Strip(q)
  {
    StripIdempotent(RemoveAll(q, "terraform"));
    if !Contains(q, "terraform") {
      RemoveAllAbsent(q, "terraform");
    }
  }

  /** The else branch: nothing left means no operation, anything else is handed
      to terraform. */
  function Fallback(q: string): (op: ServerOp)
    ensures op.Passthrough? || op.Unrecognised?
    ensures op.Unrecognised? <==> Remainder(q) == ""
    ensures op.Passthrough? ==> op.command == Remainder(q)
  {
    var rest := Remainder(q);
    if rest == "" then Unrecognised else Passthrough(rest)
  }

  /** The if/elif chain of handle_terraform_query, in source order, on a query
      that is already lower-cased and trimmed. Show (explain) is tested before
      apply here. */
  function Select(q: string): ServerOp {
    if Mentions(q, PlanWords) then Plan
    else if Mentions(q, StateWords) then State
    else if Mentions(q, CostWords) then Cost
    else if Mentions(q, SecurityWords) then Security
    else if Mentions(q, DriftWords) then Drift
    else if Mentions(q, ExplainWords) then Explain
    else if Mentions(q, ApplyWords) then Apply
    else if Mentions(q, DestroyWords) then Destroy
    else Fallback(q)
  }

  /** The operation handle_terraform_query selects for a query. */
  function ServerIntent(query: string): ServerOp {
    Select(Normalize(query))
  }

  /** The same chain as an ordered rule table. */
  const ServerRules: seq<Rule<ServerOp>> := [
    Rule(Plan, PlanWords), Rule(State, StateWords), Rule(Cost, CostWords),
    Rule(Security, SecurityWords), Rule(Drift, DriftWords), Rule(Explain, ExplainWords),
    Rule(Apply, ApplyWords), Rule(Destroy, DestroyWords)
  ]

  /** The chain is first-match dispatch over the table, with the passthrough as
      the default. */
  lemma SelectIsDispatch(q: string)
    ensures Select(q) == Dispatch(ServerRules, q, Fallback(q))
  {
    var d := Fallback(q);
    var r1 := ServerRules[1..];
    var r2 := r1[1..];
    var r3 := r2[1..];
    var r4 := r3[1..];
    var r5 := r4[1..];
    var r6 := r5[1..];
    var r7 := r6[1..];
    assert r7 == [Rule(Destroy, DestroyWords)] && r7[1..] == [];
    assert Dispatch(r7, q, d) == if Mentions(q, DestroyWords) then Destroy else d;
    assert Dispatch(r6, q, d) == if Mentions(q, ApplyWords) then Apply else Dispatch(r7, q, d);
    assert Dispatch(r5, q, d) == if Mentions(q, ExplainWords) then Explain else Dispatch(r6, q, d);
    assert Dispatch(r4, q, d) == if Mentions(q, DriftWords) then Drift else Dispatch(r5, q, d);
    assert Dispatch(r3, q, d) == if Mentions(q, SecurityWords) then Security else Dispatch(r4, q, d);
    assert Dispatch(r2, q, d) == if Mentions(q, CostWords) then Cost else Dispatch(r3, q, d);
    assert Dispatch(r1, q, d) == if Mentions(q, StateWords) then State else Dispatch(r2, q, d);
    assert Dispatch(ServerRules, q, d) == if Mentions(q, PlanWords) then Plan else Dispatch(r1, q, d);
  }

  /** Each rule of the table has its own operation, and none is a passthrough. */
  lemma RuleTagsDistinct()
    ensures forall m, j :: 0 <= m < j < |ServerRules| ==> ServerRules[m].tag != ServerRules[j].tag
    ensures forall k :: 0 <= k < |ServerRules| ==>
              !ServerRules[k].tag.Passthrough? && !ServerRules[k].tag.Unrecognised?
  {
  }

  /** Priority: once a rule fires, no later rule of the table is selected. */
  lemma EarlierRuleDecides(q: string, i: nat, j: nat)
    requires i < j < |ServerRules| && Mentions(q, ServerRules[i].keywords)
    ensures Select(q) != ServerRules[j].tag
  {
    SelectIsDispatch(q);
    RuleTagsDistinct();
    EarlierRuleWins(ServerRules, q, Fallback(q), i, j);
  }

  /** The passthrough is reached only when no rule of the table fires. */
  lemma FallbackOnlyWithoutKeyword(q: string)
    ensures Select(q).Passthrough? || Select(q).Unrecognised? ==>
              forall k :: 0 <= k < |ServerRules| ==> !Mentions(q, ServerRules[k].keywords)
  {
    SelectIsDispatch(q);
    DispatchSelects(ServerRules, q, Fallback(q));
    RuleTagsDistinct();
  }

  /** Only the else branch hands a command to terraform. */
  lemma PassthroughFromFallback(q: string)
    ensures Select(q).Passthrough? ==> Select(q) == Fallback(q)
  {
  }

  /** What is handed to terraform is the remainder of the query: never empty and
      already trimmed. */
  lemma PassthroughIsRemainder(q: string)
    ensures Fallback(q).Passthrough? ==>
              Fallback(q).command == Remainder(q) && Remainder(q) != ""
              && Strip(Fallback(q).command) == Fallback(q).command
  {
    StripIdempotent(RemoveAll(q, "terraform"));
  }

  /** Matching sees only the lower-cased, trimmed query. */
  lemma ServerIntentNormalizes(query: string)
    ensures ServerIntent(Normalize(query)) == ServerIntent(query)
  {
    NormalizeIdempotent(query);
  }

  // ----- Concrete queries -----
  //
  // Each example query is proved in three steps: its lower-cased form, the
  // keyword found at a fixed position, and the earlier keyword lists it does
  // not mention. Several literal facts in one proof make it expensive, so
  // the costly steps (a split into halves, a lowered half, a letter set that
  // rules keywords out) are lemmas of their own.

  /** "Has anything changed since last apply?" checks drift, although it also
      says "apply". */
  lemma ChangedSinceSelectsDrift()
    ensures ServerIntent("Has anything changed since last apply?") == Drift
  {
    ChangedSinceLower();
    StripOfTrimmed("has anything changed since last apply?");
    ChangedSinceSelect();
  }

  lemma ChangedSinceLower()
    ensures Lower("Has anything changed since last apply?") == "has anything changed since last apply?"
  {
    ChangedSinceQueryHalves();
    ChangedSinceFirstHalfLowered();
    ChangedSinceSecondHalfLower();
    ChangedSinceLoweredHalves();
    LowerAppend("Has anything ", "changed since last apply?");
  }

  lemma ChangedSinceQueryHalves()
    ensures "Has anything changed since last apply?" == "Has anything " + "changed since last apply?"
  {
  }

  lemma ChangedSinceLoweredHalves()
    ensures "has anything changed since last apply?" == "has anything " + "changed since last apply?"
  {
  }

  lemma ChangedSinceFirstHalfLowered()
    ensures Lower("Has anything ") == "has anything "
  {
  }

  lemma ChangedSinceSecondHalfLower()
    ensures Lower("changed since last apply?") == "changed since last apply?"
  {
  }

  lemma ChangedSinceSelect()
    ensures Select("has anything changed since last apply?") == Drift
  {
    var l := "has anything changed since last apply?";
    ChangedSinceNoPlan();
    ChangedSinceNoState();
    ChangedSinceNoCostOrSecurity();
    assert forall k :: 0 <= k < 13 ==> l[13 + k] == "changed since"[k];
    MentionsAt(l, DriftWords, "changed since", 13);
  }

  lemma ChangedSinceNoPlan()
    ensures !Mentions("has anything changed since last apply?", PlanWords)
  {
    ChangedSinceNoPlanWord();
    ChangedSinceNoOtherPlanWord();
    MentionsCons("has anything changed since last apply?", PlanWords);
  }

  /** "plan" uses only letters of the query: the space at 31 splits it into a
      part without 'p' and "apply?", which has no 'n'. */
  lemma ChangedSinceNoPlanWord()
    ensures !Contains("has anything changed since last apply?", "plan")
  {
    CutOnce("has anything changed since last apply?", 31, "plan", 'p', 'n');
  }

  lemma ChangedSinceNoOtherPlanWord()
    ensures !Mentions("has anything changed since last apply?", PlanWords[1..])
  {
    var l := "has anything changed since last apply?";
    assert Within(l, ChangedSinceLetters);
    MentionsNone(l, ChangedSinceLetters, PlanWords[1..], "wxv");
  }

  lemma ChangedSinceNoState()
    ensures !Mentions("has anything changed since last apply?", StateWords)
  {
    ChangedSinceNoStateList();
    ChangedSinceNoOtherStateWord();
    MentionsCons("has anything changed since last apply?", StateWords);
  }

  /** Likewise "state list", split at the 'c' at 24 into a part without 'l' and
      one without 'i'. */
  lemma ChangedSinceNoStateList()
    ensures !Contains("has anything changed since last apply?", "state list")
  {
    CutOnce("has anything changed since last apply?", 24, "state list", 'l', 'i');
  }

  lemma ChangedSinceNoOtherStateWord()
    ensures !Mentions("has anything changed since last apply?", StateWords[1..])
  {
    var l := "has anything changed since last apply?";
    assert Within(l, ChangedSinceLetters);
    MentionsNone(l, ChangedSinceLetters, StateWords[1..], "xur");
  }

  lemma ChangedSinceNoCostOrSecurity()
    ensures !Mentions("has anything changed since last apply?", CostWords)
    ensures !Mentions("has anything changed since last apply?", SecurityWords)
  {
    var l := "has anything changed since last apply?";
    assert Within(l, ChangedSinceLetters);
    MentionsNone(l, ChangedSinceLetters, CostWords, "oxrro");
    MentionsNone(l, ChangedSinceLetters, SecurityWords, "uuuu");
  }

  /** The letters of "has anything changed since last apply?". */
  const ChangedSinceLetters := {'h', 'a', 's', ' ', 'n', 'y', 't', 'i', 'g', 'c', 'e', 'd', 'l', 'p', '?'}

  /** "Show me the execution plan" is a plan, not a show. */
  lemma ExecutionPlanSelectsPlan()
    ensures ServerIntent("Show me the execution plan") == Plan
  {
    ExecutionPlanLower();
    StripOfTrimmed("show me the execution plan");
    ExecutionPlanSelect();
  }

  lemma ExecutionPlanLower()
    ensures Lower("Show me the execution plan") == "show me the execution plan"
  {
  }

  lemma ExecutionPlanSelect()
    ensures Select("show me the execution plan") == Plan
  {
    var l := "show me the execution plan";
    assert forall k :: 0 <= k < 14 ==> l[12 + k] == "execution plan"[k];
    MentionsAt(l, PlanWords, "execution plan", 12);
  }

  /** The letters of "terraform init". */
  const CommandLetters := {'t', 'e', 'r', 'a', 'f', 'o', 'm', ' ', 'i', 'n'}

  /** A query spelled from those letters triggers no rule (each keyword has a
      letter outside them), so it goes to the passthrough. */
  lemma CommandLettersFallBack(q: string)
    requires Within(q, CommandLetters)
    ensures Select(q) == Fallback(q)
  {
    CommandLettersNoPlanOrState(q);
    CommandLettersNoCostOrSecurity(q);
    CommandLettersNoDriftOrExplain(q);
    CommandLettersNoApplyOrDestroy(q);
  }

  lemma CommandLettersNoPlanOrState(q: string)
    requires Within(q, CommandLetters)
    ensures !Mentions(q, PlanWords) && !Mentions(q, StateWords)
  {
    MentionsNone(q, CommandLetters, PlanWords, "pwxv");
    MentionsNone(q, CommandLetters, StateWords, "ssul");
  }

  lemma CommandLettersNoCostOrSecurity(q: string)
    requires Within(q, CommandLetters)
    ensures !Mentions(q, CostWords) && !Mentions(q, SecurityWords)
  {
    MentionsNone(q, CommandLetters, CostWords, "cxpph");
    MentionsNone(q, CommandLetters, SecurityWords, "suss");
  }

  lemma CommandLettersNoDriftOrExplain(q: string)
    requires Within(q, CommandLetters)
    ensures !Mentions(q, DriftWords) && !Mentions(q, ExplainWords)
  {
    MentionsNone(q, CommandLetters, DriftWords, "dcc");
    MentionsNone(q, CommandLetters, ExplainWords, "xdws");
  }

  lemma CommandLettersNoApplyOrDestroy(q: string)
    requires Within(q, CommandLetters)
    ensures !Mentions(q, ApplyWords) && !Mentions(q, DestroyWords)
  {
    MentionsNone(q, CommandLetters, ApplyWords, "pd");
    MentionsNone(q, CommandLetters, DestroyWords, "dvd");
  }

  /** "terraform init" hands "init" to terraform. */
  lemma TerraformInitPassesThrough()
    ensures ServerIntent("terraform init") == Passthrough("init")
  {
    TerraformInitNormal();
    TerraformInitSelect();
  }

  lemma TerraformInitNormal()
    ensures Normalize("terraform init") == "terraform init"
  {
    var l := "terraform init";
    LowerOfLowerCase(l);
    StripOfTrimmed(l);
  }

  lemma TerraformInitSelect()
    ensures Select("terraform init") == Passthrough("init")
  {
    assert Within("terraform init", CommandLetters);
    CommandLettersFallBack("terraform init");
    TerraformInitRemainder();
  }

  lemma TerraformInitRemainder()
    ensures Remainder("terraform init") == "init"
  {
    assert "terraform init" == "terraform" + " init";
    RemoveAllPrefix("terraform", " init");
    assert " init" == [' '] + "init";
    StripAfterSpace(' ', "init");
  }

  /** "Terraform" alone leaves nothing to run. */
  lemma TerraformAloneIsUnrecognised()
    ensures ServerIntent("Terraform") == Unrecognised
  {
    assert Lower("Terraform") == "terraform";
    StripOfTrimmed("terraform");
    TerraformAloneSelect();
  }

  lemma TerraformAloneSelect()
    ensures Select("terraform") == Unrecognised
  {
    assert Within("terraform", CommandLetters);
    CommandLettersFallBack("terraform");
    assert "terraform" == "terraform" + "";
    RemoveAllPrefix("terraform", "");
  }

  // ----- Replies -----

  /** A run without check=True, as in the drift branch: the exit status and the
      captured streams, or an exception when the program cannot be started. */
  datatype Exit = Exited(code: int, stdout: string, stderr: string) | SpawnFailed(message: string)

  /** shlex.split of the passthrough remainder: the tokens, or the ValueError it
      raises on an unbalanced quote. */
  datatype Tokens = Tokens(args: seq<string>) | Unbalanced(message: string)

  const InfracostMissing :=
    "Error: 'infracost' is required for cost estimation but was not found. Please install it from https://www.infracost.io/docs/"
  const TfsecMissing :=
    "Error: 'tfsec' is required for security analysis but was not found. Please install it from https://github.com/aquasecurity/tfsec"
  const SecurityHeader := "Security analysis results:\n\n"
  const NoIssues := "No security issues " + "found in the configuration."
  const IssuesHeader := "Security issues detected:\n\n"
  const NoDrift := "No drift detected. " + "The infrastructure matches the configuration."
  const DriftHeader :=
    "Drift detected! " + "The current infrastructure state differs from the configuration:\n\n"
  const DriftError := "Error checking for drift: "
  const CommandHint :=
    "\n\nI couldn't determine the specific Terraform operation you want to perform. "
    + "Please try queries related to plan visualization, state inspection, cost estimation, "
    + "security analysis, drift detection, module documentation, or use explicit commands like "
    + "'terraform init', 'terraform apply', or 'terraform destroy'."

  /** The shape shared by the branches that run one checked command: the header
      and stdout on success; on a non-zero exit the failure prefix, the error
      detail and a suffix; any other exception escapes. */
  function Report(run: Outcome, header: string, failPrefix: string, failSuffix: string): (r: Reply)
    ensures r.Raised? <==> run.NotFound? || run.OtherError?
    ensures run.Completed? ==> StartsWith(r.body, header) && r.body[|header|..] == run.stdout
    ensures run.Completed? ==> r == Text(header + run.stdout)
    ensures run.ProcFailed? ==>
              StartsWith(r.body, failPrefix) && Contains(r.body, FailureDetail(run.stderr, run.message))
    ensures run.ProcFailed? ==> r == Text(failPrefix + FailureDetail(run.stderr, run.message) + failSuffix)
    ensures run.ProcFailed? && failSuffix == "" ==> r == Text(failPrefix + FailureDetail(run.stderr, run.message))
    ensures run.NotFound? || run.OtherError? ==> r == Raised(run.message)
  {
    match run
    case Completed(out, _) => Text(header + out)
    case ProcFailed(_, err, msg) =>
      var body := failPrefix + FailureDetail(err, msg) + failSuffix;
      ContainsMiddle(failPrefix, FailureDetail(err, msg), failSuffix);
      assert body[..|failPrefix|] == failPrefix;
      assert failSuffix == "" ==> body == failPrefix + FailureDetail(err, msg);
      Text(body)
    case NotFound(msg) => Raised(msg)
    case OtherError(msg) => Raised(msg)
  }

  /** The branches that first probe for a tool (`<tool> --version`): a probe
      that exits non-zero or cannot find the program gives the fixed install
      hint, any other exception escapes, and a working tool goes on to `next`. */
  function Probed(probe: Outcome, missing: string, next: Reply): (r: Reply)
    ensures probe.ProcFailed? || probe.NotFound? ==> r == Text(missing)
    ensures probe.Completed? ==> r == next
    ensures probe.OtherError? ==> r == Raised(probe.message)
  {
    match probe
    case Completed(_, _) => next
    case ProcFailed(_, _, _) => Text(missing)
    case NotFound(_) => Text(missing)
    case OtherError(msg) => Raised(msg)
  }

  const CostHeader := "Cost estimation:\n\n"
  const CostFailed := "Error estimating costs: "

  /** Cost branch: `infracost --version`, then `infracost breakdown --path .`. */
  function CostReply(probe: Outcome, run: Outcome): (r: Reply)
    ensures probe.ProcFailed? || probe.NotFound? ==> r == Text(InfracostMissing)
    ensures probe.OtherError? ==> r == Raised(probe.message)
    ensures probe.Completed? && run.Completed? ==> r == Text(CostHeader + run.stdout)
    ensures probe.Completed? && run.ProcFailed? ==> r == Text(CostFailed + FailureDetail(run.stderr, run.message))
    ensures probe.Completed? && (run.NotFound? || run.OtherError?) ==> r == Raised(run.message)
  {
    Probed(probe, InfracostMissing, Report(run, CostHeader, CostFailed, ""))
  }


  /** Security branch: `tfsec --version`, then `tfsec .`. A clean run reports
      its stripped stdout; a non-zero exit (tfsec's way of saying it found
      something) reports the captured stdout, or str(e) when there is none. */
  function SecurityScan(run: Outcome): Reply {
    match run
    case Completed(out, _) =>
      var found := Strip(out);
      if found != "" then Text(SecurityHeader + found) else Text(NoIssues)
    case ProcFailed(out, _, msg) => Text(IssuesHeader + FailureDetail(out, msg))
    case NotFound(msg) => Raised(msg)
    case OtherError(msg) => Raised(msg)
  }

  function SecurityReply(probe: Outcome, run: Outcome): (r: Reply)
    ensures probe.ProcFailed? || probe.NotFound? ==> r == Text(TfsecMissing)
    ensures probe.OtherError? ==> r == Raised(probe.message)
    ensures probe.Completed? && run.ProcFailed? ==> r == Text(IssuesHeader + FailureDetail(run.stdout, run.message))
    ensures probe.Completed? && (run.NotFound? || run.OtherError?) ==> r == Raised(run.message)
  {
    Probed(probe, TfsecMissing, SecurityScan(run))
  }

  /** Drift branch: `terraform plan -detailed-exitcode` without check=True, so
      the exit status itself is inspected. */
  function DriftReply(exit: Exit): (r: Reply)
    ensures exit.Exited? && exit.code == 0 ==> r == Text(NoDrift)
    ensures exit.Exited? && exit.code == 2 ==> r == Text(DriftHeader + exit.stdout)
    ensures exit.Exited? && exit.code != 0 && exit.code != 2 ==> r == Text(DriftError + exit.stderr)
    ensures exit.SpawnFailed? ==> r == Raised(exit.message)
  {
    match exit
    case Exited(code, out, err) =>
      if code == 0 then Text(NoDrift)
      else if code == 2 then Text(DriftHeader + out)
      else Text(DriftError + err)
    case SpawnFailed(msg) => Raised(msg)
  }

  const ExplainHeader := "Current Terraform configuration details:\n\n"
  const ExplainFailed := "Error showing configuration: "

  /** Explain branch: `terraform show`. */
  function ExplainReply(run: Outcome): (r: Reply)
    ensures run.Completed? ==> r == Text(ExplainHeader + run.stdout)
    ensures run.ProcFailed? ==> r == Text(ExplainFailed + FailureDetail(run.stderr, run.message))
    ensures run.NotFound? || run.OtherError? ==> r == Raised(run.message)
  {
    Report(run, ExplainHeader, ExplainFailed, "")
  }

  const ApplyHeader := "Terraform apply executed successfully:\n\n"
  const ApplyFailed := "Error during terraform apply: "

  /** Apply branch: `terraform apply -auto-approve`. */
  function ApplyReply(run: Outcome): (r: Reply)
    ensures run.Completed? ==> r == Text(ApplyHeader + run.stdout)
    ensures run.ProcFailed? ==> r == Text(ApplyFailed + FailureDetail(run.stderr, run.message))
    ensures run.NotFound? || run.OtherError? ==> r == Raised(run.message)
  {
    Report(run, ApplyHeader, ApplyFailed, "")
  }

  const DestroyHeader := "Terraform destroy executed successfully:\n\n"
  const DestroyFailed := "Error during terraform destroy: "

  /** Destroy branch: `terraform destroy -auto-approve`. */
  function DestroyReply(run: Outcome): (r: Reply)
    ensures run.Completed? ==> r == Text(DestroyHeader + run.stdout)
    ensures run.ProcFailed? ==> r == Text(DestroyFailed + FailureDetail(run.stderr, run.message))
    ensures run.NotFound? || run.OtherError? ==> r == Raised(run.message)
  {
    Report(run, DestroyHeader, DestroyFailed, "")
  }

  /** Passthrough branch: `terraform` followed by the tokens of the remainder. */
  const CommandHeader := "Command output:\n\n"
  const CommandFailed := "Error executing command: "

  function PassthroughReply(split: Tokens, run: Outcome): (r: Reply)
    ensures split.Unbalanced? ==> r == Raised(split.message)
    ensures split == Tokens([]) ==> r == Text(UnrecognisedMessage)
    ensures split.Tokens? && split.args != [] && run.Completed? ==> r == Text(CommandHeader + run.stdout)
    ensures split.Tokens? && split.args != [] && run.ProcFailed? ==>
              r == Text(CommandFailed + FailureDetail(run.stderr, run.message) + CommandHint)
    ensures split.Tokens? && split.args != [] && (run.NotFound? || run.OtherError?) ==> r == Raised(run.message)
  {
    match split
    case Unbalanced(msg) => Raised(msg)
    case Tokens(args) =>
      if args == [] then Text(UnrecognisedMessage)
      else Report(run, CommandHeader, CommandFailed, CommandHint)
  }

  /** The argument vector the passthrough branch runs. */
  function PassthroughArgv(args: seq<string>): (argv: seq<string>)
    ensures |argv| == |args| + 1 && argv[0] == "terraform" && argv[1..] == args
  {
    ["terraform"] + args
  }

  /** The command the passthrough branch starts, if any: none when shlex fails
      or yields no tokens, otherwise `["terraform"] + args`. */
  function PassthroughCommand(split: Tokens): (cmd: Option<seq<string>>)
    ensures cmd.Some? <==> split.Tokens? && split.args != []
    ensures cmd.Some? ==> cmd.value == PassthroughArgv(split.args)
  {
    match split
    case Unbalanced(_) => None
    case Tokens(args) => if args == [] then None else Some(PassthroughArgv(args))
  }

  /** What `Popen` raises when the plan and state branches call `subprocess.run`
      with several positional strings: the second lands in `bufsize`, whose type
      is checked before any process is started, and only `CalledProcessError` is
      caught around it. */
  const BufsizeTypeError := "bufsize must be an integer"

  /** The whole query tool, given the outcome of every command a branch may run:
      `probe` for the tool check, `run` for the branch's checked command, `exit`
      for the drift run and `split` for the tokens of the remainder. */
  function Answer(query: string, probe: Outcome, run: Outcome, exit: Exit, split: Tokens): Reply {
    match ServerIntent(query)
    case Plan => Raised(BufsizeTypeError)
    case State => Raised(BufsizeTypeError)
    case Cost => CostReply(probe, run)
    case Security => SecurityReply(probe, run)
    case Drift => DriftReply(exit)
    case Explain => ExplainReply(run)
    case Apply => ApplyReply(run)
    case Destroy => DestroyReply(run)
    case Passthrough(_) => PassthroughReply(split, run)
    case Unrecognised => Text(UnrecognisedMessage)
  }

  // ----- Properties of the replies -----

  lemma FirstCharacters(s: string, p: string)
    requires p != [] && StartsWith(s, p)
    ensures s != [] && s[0] == p[0]
  {
    assert s[..|p|][0] == p[0];
  }

  /** A missing tool is reported before the analysis could run: the reply does
      not depend on the analysis outcome. */
  lemma MissingToolIgnoresRun(probe: Outcome, run1: Outcome, run2: Outcome)
    requires probe.ProcFailed? || probe.NotFound?
    ensures CostReply(probe, run1) == CostReply(probe, run2) == Text(InfracostMissing)
    ensures SecurityReply(probe, run1) == SecurityReply(probe, run2) == Text(TfsecMissing)
  {
  }

  /** A clean tfsec run says "no issues" exactly when its stripped output is
      empty; otherwise the findings follow the header. */
  lemma SecurityCleanIff(probe: Outcome, run: Outcome)
    requires probe.Completed? && run.Completed?
    ensures SecurityReply(probe, run) == Text(NoIssues) <==> Strip(run.stdout) == ""
    ensures Strip(run.stdout) != "" ==> SecurityReply(probe, run) == Text(SecurityHeader + Strip(run.stdout))
  {
    var found := Strip(run.stdout);
    if found != "" {
      var body := SecurityHeader + found;
      assert body[0] == 'S';
      assert NoIssues[0] == 'N';
    }
  }

  /** A failing tfsec run reports what tfsec printed on stdout, not stderr. */
  lemma SecurityIssuesShowStdout(probe: Outcome, run: Outcome)
    requires probe.Completed? && run.ProcFailed? && run.stdout != ""
    ensures SecurityReply(probe, run) == Text(IssuesHeader + run.stdout)
    ensures EndsWith(SecurityReply(probe, run).body, run.stdout)
  {
    var body := IssuesHeader + run.stdout;
    assert body[|body| - |run.stdout|..] == run.stdout;
  }

  /** The drift reply tells the three classes of exit status apart: each class
      has its own opening, so the class can be read back from the text. */
  lemma DriftReplyDecodes(exit: Exit)
    requires exit.Exited?
    ensures DriftReply(exit).Text?
    ensures DriftReply(exit).body == NoDrift <==> exit.code == 0
    ensures StartsWith(DriftReply(exit).body, DriftHeader) <==> exit.code == 2
    ensures StartsWith(DriftReply(exit).body, DriftError) <==> exit.code != 0 && exit.code != 2
  {
    var body := DriftReply(exit).body;
    assert NoDrift[0] == 'N' && DriftHeader[0] == 'D' && DriftError[0] == 'E';
    if exit.code == 0 {
      if StartsWith(body, DriftHeader) { FirstCharacters(body, DriftHeader); }
      if StartsWith(body, DriftError) { FirstCharacters(body, DriftError); }
    } else if exit.code == 2 {
      assert body == DriftHeader + exit.stdout;
      assert body[..|DriftHeader|] == DriftHeader;
      assert body[0] == 'D';
      if StartsWith(body, DriftError) { FirstCharacters(body, DriftError); }
    } else {
      assert body == DriftError + exit.stderr;
      assert body[..|DriftError|] == DriftError;
      assert body[0] == 'E';
      if StartsWith(body, DriftHeader) { FirstCharacters(body, DriftHeader); }
    }
  }

  /** Changes present: the plan output follows the drift header. */
  lemma DriftShowsPlanOutput(exit: Exit)
    requires exit.Exited? && exit.code == 2
    ensures DriftReply(exit).body[|DriftHeader|..] == exit.stdout
  {
  }

  /** The plan and state branches never reach a command: whatever the commands
      would have done, the query escapes with Popen's TypeError. */
  lemma PlanAndStateRaise(query: string, probe: Outcome, run: Outcome, exit: Exit, split: Tokens)
    requires ServerIntent(query) == Plan || ServerIntent(query) == State
    ensures Answer(query, probe, run, exit, split) == Raised(BufsizeTypeError)
  {
  }

  /** A remainder that shell-splits into nothing is unrecognised, like an
      empty one. */
  lemma NoTokensUnrecognised(run: Outcome)
    ensures PassthroughReply(Tokens([]), run) == Text(UnrecognisedMessage)
  {
  }

  /** The outcome of the passthrough run matters only when a command is started:
      without one, every outcome gives the same reply. */
  lemma PassthroughRunsOnlyItsCommand(split: Tokens, run1: Outcome, run2: Outcome)
    ensures PassthroughCommand(split).None? ==> PassthroughReply(split, run1) == PassthroughReply(split, run2)
    ensures PassthroughCommand(split).Some? ==>
              PassthroughReply(split, run1) == Report(run1, CommandHeader, CommandFailed, CommandHint)
  {
  }

  /** A failed passthrough reports the error detail and then the usage hint. */
  lemma PassthroughFailureHints(args: seq<string>, run: Outcome)
    requires args != [] && run.ProcFailed?
    ensures EndsWith(PassthroughReply(Tokens(args), run).body, CommandHint)
    ensures Contains(PassthroughReply(Tokens(args), run).body, FailureDetail(run.stderr, run.message))
  {
    var body := PassthroughReply(Tokens(args), run).body;
    assert body[|body| - |CommandHint|..] == CommandHint;
  }

  /** "Terraform" alone: the tool answers with the fixed request to be more
      specific, whatever the commands would have done. */
  lemma TerraformAloneAnswer(probe: Outcome, run: Outcome, exit: Exit, split: Tokens)
    ensures Answer("Terraform", probe, run, exit, split) == Text(UnrecognisedMessage)
  {
    TerraformAloneIsUnrecognised();
  }
}
