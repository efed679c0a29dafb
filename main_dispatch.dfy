/** The query tool of the packaged server (src/main.py): one ordered keyword
    table, then a call into TerraformHandler. Unlike the stand-alone script it
    has no passthrough: a query that matches nothing gets a fixed answer. */
module MainDispatch {
  import opened Text
  import opened Process
  import opened Intent
  import opened Utils
  import opened Handler

  datatype MainOp =
    | Plan
    | StateList
    | Apply(autoApprove: bool)
    | Destroy(autoApprove: bool)
    | Show
    | NotSure

  const NotSureMessage :=
    "I'm not sure what Terraform operation you want to perform. Please try rephrasing your request."

  const PlanWords := ["plan", "what will change", "execution plan", "visualize"]
  const StateWords := ["state list", "resources exist", "current state", "list all resources"]
  const ApplyWords := ["apply", "deploy", "create resources"]
  const DestroyWords := ["destroy", "tear down", "remove resources"]
  const ShowWords := ["show", "explain", "documentation"]

  /** The if/elif chain of handle_terraform_query, in source order, on a query
      that is already lower-cased and trimmed. */
  function Select(q: string): MainOp {
    if Mentions(q, PlanWords) then Plan
    else if Mentions(q, StateWords) then StateList
    else if Mentions(q, ApplyWords) then Apply(true)
    else if Mentions(q, DestroyWords) then Destroy(true)
    else if Mentions(q, ShowWords) then Show
    else NotSure
  }

  /** The operation handle_terraform_query selects for a query. */
  function MainIntent(query: string): MainOp {
    Select(Normalize(query))
  }

  /** The same chain as an ordered rule table. */
  const MainRules: seq<Rule<MainOp>> := [
    Rule(Plan, PlanWords), Rule(StateList, StateWords), Rule(Apply(true), ApplyWords),
    Rule(Destroy(true), DestroyWords), Rule(Show, ShowWords)
  ]

  /** The chain is first-match dispatch over the table (see DispatchSelects). */
  lemma SelectIsDispatch(q: string)
    ensures Select(q) == Dispatch(MainRules, q, NotSure)
  {
    var r1 := MainRules[1..];
    var r2 := r1[1..];
    var r3 := r2[1..];
    var r4 := r3[1..];
    assert r4 == [Rule(Show, ShowWords)] && r4[1..] == [];
    assert Dispatch(r4, q, NotSure) == if Mentions(q, ShowWords) then Show else NotSure;
    assert Dispatch(r3, q, NotSure) ==
           if Mentions(q, DestroyWords) then Destroy(true) else Dispatch(r4, q, NotSure);
    assert Dispatch(r2, q, NotSure) ==
           if Mentions(q, ApplyWords) then Apply(true) else Dispatch(r3, q, NotSure);
    assert Dispatch(r1, q, NotSure) ==
           if Mentions(q, StateWords) then StateList else Dispatch(r2, q, NotSure);
    assert Dispatch(MainRules, q, NotSure) ==
           if Mentions(q, PlanWords) then Plan else Dispatch(r1, q, NotSure);
  }

  /** Each rule of the table has its own operation, and none is the default. */
  lemma RuleTagsDistinct()
    ensures forall m, j :: 0 <= m < j < |MainRules| ==> MainRules[m].tag != MainRules[j].tag
    ensures forall k :: 0 <= k < |MainRules| ==> MainRules[k].tag != NotSure
  {
  }

  /** Priority: once a rule fires, no later rule of the table is selected. */
  lemma EarlierRuleDecides(q: string, i: nat, j: nat)
    requires i < j < |MainRules| && Mentions(q, MainRules[i].keywords)
    ensures Select(q) != MainRules[j].tag
  {
    SelectIsDispatch(q);
    RuleTagsDistinct();
    EarlierRuleWins(MainRules, q, NotSure, i, j);
  }

  /** Apply and destroy are always dispatched with auto-approval. */
  lemma SelectAutoApproves(q: string)
    ensures Select(q).Apply? || Select(q).Destroy? ==> Select(q).autoApprove
  {
  }

  /** Matching sees only the lower-cased, trimmed query: a query and its normal
      form select the same operation. */
  lemma MainIntentNormalizes(query: string)
    ensures MainIntent(Normalize(query)) == MainIntent(query)
  {
    NormalizeIdempotent(query);
  }

  /** Plan is tested first: any plan keyword decides the query, whatever else it
      mentions. */
  lemma PlanKeywordWins(q: string, k: string)
    requires k in PlanWords && Contains(q, k)
    ensures Select(q) == Plan
  {
  }

  /** Apply comes before show here, so a query mentioning "apply" or "deploy" is
      never answered by show. */
  lemma ShowExcludesApply(q: string)
    ensures Select(q) == Show ==> !Contains(q, "apply") && !Contains(q, "deploy")
  {
    assert "apply" in ApplyWords && "deploy" in ApplyWords;
  }

  // ----- Concrete queries -----
  //
  // As in the stand-alone script's model: each example is its lower-cased
  // form, the keyword found at a fixed position and the keyword lists it does
  // not mention, one fact about one fixed string per helper lemma.

  /** "What will change if I apply": the plan rule fires before the apply rule. */
  lemma WhatWillChangeSelectsPlan()
    ensures MainIntent("What will change if I apply") == Plan
  {
    var l := "what will change if i apply";
    WhatWillChangeLower();
    StripOfTrimmed(l);
    WhatWillChangeAt0();
    MentionsAt(l, PlanWords, "what will change", 0);
  }

  lemma WhatWillChangeAt0()
    ensures MatchesAt("what will change if i apply", "what will change", 0)
  {
    var l := "what will change if i apply";
    assert forall k :: 0 <= k < 16 ==> l[k] == "what will change"[k];
  }

  lemma WhatWillChangeLower()
    ensures Lower("What will change if I apply") == "what will change if i apply"
  {
  }

  /** "Show me the current state" is a state listing, not a show. */
  lemma CurrentStateSelectsStateList()
    ensures MainIntent("Show me the current state") == StateList
  {
    CurrentStateLower();
    StripOfTrimmed("show me the current state");
    CurrentStateSelect();
  }

  lemma CurrentStateLower()
    ensures Lower("Show me the current state") == "show me the current state"
  {
  }

  lemma CurrentStateSelect()
    ensures Select("show me the current state") == StateList
  {
    CurrentStateNoPlan();
    CurrentStateAt12();
    MentionsAt("show me the current state", StateWords, "current state", 12);
  }

  lemma CurrentStateNoPlan()
    ensures !Mentions("show me the current state", PlanWords)
  {
    var l := "show me the current state";
    var al := {'s', 'h', 'o', 'w', ' ', 'm', 'e', 't', 'c', 'u', 'r', 'n', 'a'};
    assert Within(l, al);
    MentionsNone(l, al, PlanWords, "plxv");
  }

  lemma CurrentStateAt12()
    ensures MatchesAt("show me the current state", "current state", 12)
  {
    var l := "show me the current state";
    assert forall k :: 0 <= k < 13 ==> l[12 + k] == "current state"[k];
  }

  /** "Tear down my resources" destroys, with auto-approval. */
  lemma TearDownSelectsDestroy()
    ensures MainIntent("Tear down my resources") == Destroy(true)
  {
    TearDownLower();
    StripOfTrimmed("tear down my resources");
    TearDownSelect();
  }

  lemma TearDownLower()
    ensures Lower("Tear down my resources") == "tear down my resources"
  {
  }

  lemma TearDownSelect()
    ensures Select("tear down my resources") == Destroy(true)
  {
    TearDownNoPlan();
    TearDownNoState();
    TearDownNoApply();
    TearDownAt0();
    MentionsAt("tear down my resources", DestroyWords, "tear down", 0);
  }

  lemma TearDownAt0()
    ensures MatchesAt("tear down my resources", "tear down", 0)
  {
    var l := "tear down my resources";
    assert forall k :: 0 <= k < 9 ==> l[k] == "tear down"[k];
  }

  lemma TearDownNoPlan()
    ensures !Mentions("tear down my resources", PlanWords)
  {
    var l := "tear down my resources";
    var al := {'t', 'e', 'a', 'r', ' ', 'd', 'o', 'w', 'n', 'm', 'y', 's', 'u', 'c'};
    assert Within(l, al);
    MentionsNone(l, al, PlanWords, "lllz");
  }

  lemma TearDownNoState()
    ensures !Mentions("tear down my resources", StateWords)
  {
    TearDownLacksOtherStateWords();
    TearDownNoCurrentState();
  }

  lemma TearDownLacksOtherStateWords()
    ensures !Mentions("tear down my resources", ["state list", "resources exist", "list all resources"])
  {
    var l := "tear down my resources";
    var al := {'t', 'e', 'a', 'r', ' ', 'd', 'o', 'w', 'n', 'm', 'y', 's', 'u', 'c'};
    assert Within(l, al);
    MentionsNone(l, al, ["state list", "resources exist", "list all resources"], "lxl");
  }

  /** "current state" uses only letters of the query, so the query is cut at
      letters it lacks, 'd' (5) and 'm' (10), into pieces shorter than it. */
  lemma TearDownNoCurrentState()
    ensures !Contains("tear down my resources", "current state")
  {
    CutTwice("tear down my resources", 5, 10, "current state");
  }

  lemma TearDownNoApply()
    ensures !Mentions("tear down my resources", ApplyWords)
  {
    TearDownLacksApplyOrDeploy();
    TearDownNoCreate();
  }

  lemma TearDownLacksApplyOrDeploy()
    ensures !Mentions("tear down my resources", ["apply", "deploy"])
  {
    var l := "tear down my resources";
    var al := {'t', 'e', 'a', 'r', ' ', 'd', 'o', 'w', 'n', 'm', 'y', 's', 'u', 'c'};
    assert Within(l, al);
    MentionsNone(l, al, ["apply", "deploy"], "ll");
  }

  /** Likewise "create resources", cut at 'd' (5) and 'w' (7). */
  lemma TearDownNoCreate()
    ensures !Contains("tear down my resources", "create resources")
  {
    CutTwice("tear down my resources", 5, 7, "create resources");
  }

  /** A query no rule recognises gets the fixed answer. */
  lemma HelpMeIsNotSure()
    ensures MainIntent("help me") == NotSure
  {
    LowerOfLowerCase("help me");
    StripOfTrimmed("help me");
    HelpMeSelect();
  }

  lemma HelpMeSelect()
    ensures Select("help me") == NotSure
  {
    var l := "help me";
    var al := {'h', 'e', 'l', 'p', ' ', 'm'};
    assert Within(l, al);
    MentionsNone(l, al, PlanWords, "ngnz");
    MentionsNone(l, al, StateWords, "ttts");
    MentionsNone(l, al, ApplyWords, "yys");
    MentionsNone(l, al, DestroyWords, "yns");
    MentionsNone(l, al, ShowWords, "wnn");
  }

  /** plan()'s default out_file spelled into its flag. */
  lemma DefaultPlanFlag()
    ensures "-out=" + "tfplan" == "-out=tfplan"
  {
  }

  /** The handler call of one branch of handle_terraform_query; `argv` is the
      command the handler runs, empty when no operation is chosen. */
  method Perform(h: TerraformHandler, op: MainOp, run: Outcome, dotInstalled: bool, graph: Outcome)
    returns (argv: seq<string>, text: string)
    ensures op == Plan ==> argv == h.Command(["plan", "-out=tfplan"])
    ensures op == StateList ==> argv == h.Command(["state", "list"])
    ensures op.Apply? ==> argv == h.Command(["apply"] + if op.autoApprove then ["-auto-approve"] else [])
    ensures op.Destroy? ==> argv == h.Command(["destroy"] + if op.autoApprove then ["-auto-approve"] else [])
    ensures op == Show ==> argv == h.Command(["show"])
    ensures op == NotSure ==> argv == [] && text == NotSureMessage
    ensures op == Plan && !run.Completed? ==> text == Respond(run, PlanFailed, PlanUnexpected)
    ensures op == Plan && run.Completed? && !dotInstalled ==> text == FormatOutput(run.stdout, run.stderr)
    ensures op == Plan && run.Completed? && dotInstalled && graph.Completed? ==>
              text == FormatOutput(run.stdout + SavedNote, run.stderr)
    ensures op == Plan && run.Completed? && dotInstalled && graph.ProcFailed? ==>
              text == FormatOutput(run.stdout + FailedNote, run.stderr)
    ensures op == Plan && run.Completed? && dotInstalled && (graph.NotFound? || graph.OtherError?) ==>
              text == PlanUnexpected + graph.message
    ensures op == StateList && !run.Completed? ==>
              text == Respond(run, StateFailed, StateUnexpected)
    ensures op == StateList && run.Completed? ==>
              text == if Strip(run.stdout) != "" then Strip(run.stdout) else NoResources
    ensures op.Apply? ==>
              text == Respond(run, ApplyFailed, ApplyUnexpected)
    ensures op.Destroy? ==>
              text == Respond(run, DestroyFailed, DestroyUnexpected)
    ensures op == Show ==> text == Respond(run, ShowFailed, ShowUnexpected)
  {
    argv := [];
    match op {
      case Plan =>
        var pipeline;
        argv, pipeline, text := h.Plan("tfplan", run, dotInstalled, graph);
        DefaultPlanFlag();
      case StateList =>
        argv, text := h.StateList(run);
      case Apply(auto) =>
        argv, text := h.Apply(auto, run);
        assert argv == [argv[0]] + argv[1..];
      case Destroy(auto) =>
        argv, text := h.Destroy(auto, run);
        assert argv == [argv[0]] + argv[1..];
      case Show =>
        argv, text := h.Show(run);
      case NotSure =>
        text := NotSureMessage;
    }
  }

  /** handle_terraform_query: select the operation, then run the handler method
      with the arguments main.py passes: plan() keeps its default output file
      "tfplan", apply and destroy are auto-approved. */
  method HandleQuery(h: TerraformHandler, query: string, run: Outcome, dotInstalled: bool, graph: Outcome)
    returns (op: MainOp, argv: seq<string>, text: string)
    ensures op == MainIntent(query)
    ensures op == Plan ==> argv == h.Command(["plan", "-out=tfplan"])
    ensures op == StateList ==> argv == h.Command(["state", "list"])
    ensures op.Apply? ==> argv == h.Command(["apply", "-auto-approve"])
    ensures op.Destroy? ==> argv == h.Command(["destroy", "-auto-approve"])
    ensures op == Show ==> argv == h.Command(["show"])
    ensures op == NotSure ==> argv == [] && text == NotSureMessage
    ensures op == Plan && !run.Completed? ==> text == Respond(run, PlanFailed, PlanUnexpected)
    ensures op == Plan && run.Completed? && !dotInstalled ==> text == FormatOutput(run.stdout, run.stderr)
    ensures op == Plan && run.Completed? && dotInstalled && graph.Completed? ==>
              text == FormatOutput(run.stdout + SavedNote, run.stderr)
    ensures op == Plan && run.Completed? && dotInstalled && graph.ProcFailed? ==>
              text == FormatOutput(run.stdout + FailedNote, run.stderr)
    ensures op == Plan && run.Completed? && dotInstalled && (graph.NotFound? || graph.OtherError?) ==>
              text == PlanUnexpected + graph.message
    ensures op == StateList && !run.Completed? ==>
              text == Respond(run, StateFailed, StateUnexpected)
    ensures op == StateList && run.Completed? ==>
              text == if Strip(run.stdout) != "" then Strip(run.stdout) else NoResources
    ensures op.Apply? ==>
              text == Respond(run, ApplyFailed, ApplyUnexpected)
    ensures op.Destroy? ==>
              text == Respond(run, DestroyFailed, DestroyUnexpected)
    ensures op == Show ==> text == Respond(run, ShowFailed, ShowUnexpected)
  {
    op := MainIntent(query);
    SelectAutoApproves(Normalize(query));
    argv, text := Perform(h, op, run, dotInstalled, graph);
  }
}
