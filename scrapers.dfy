/** The resources of the stand-alone script that scrape text: module names from
    `terraform state list`, and variable and provider names from `variable "x" {`
    and `provider "x" {` declarations in the *.tf files. */
module Scrapers {
  import opened Text
  import opened Process

  // ----- Listings -----

  /** One "- name" row per name. */
  function Bullets(names: seq<string>): (rows: seq<string>)
    ensures |rows| == |names|
    ensures forall k :: 0 <= k < |names| ==> rows[k] == "- " + names[k]
  {
    if names == [] then [] else ["- " + names[0]] + Bullets(names[1..])
  }

  /** header + "\n".join("- " + n for n in names), or the fixed text when there
      are no names. */
  function Listing(header: string, none: string, names: seq<string>): string {
    if names == [] then none else header + Join(Bullets(names), "\n")
  }

  lemma {:induction false} JoinStartsWith(parts: seq<string>, sep: string)
    requires parts != []
    ensures StartsWith(Join(parts, sep), parts[0])
  {
    var j := Join(parts, sep);
    if |parts| > 1 {
      assert j == parts[0] + (sep + Join(parts[1..], sep));
    }
    assert j[..|parts[0]|] == parts[0];
  }

  /** Splitting a join at its separator gives the parts back, when no part
      holds the separator. */
  lemma {:induction false} SplitOfJoin(parts: seq<string>, c: char)
    requires parts != [] && forall k :: 0 <= k < |parts| ==> c !in parts[k]
    ensures Split(Join(parts, [c]), c) == parts
    decreases |parts|
  {
    if |parts| == 1 {
      SplitNoSeparator(parts[0], c);
    } else {
      var rest := Join(parts[1..], [c]);
      assert Join(parts, [c]) == parts[0] + [c] + rest;
      SplitAtFirst(parts[0], c, rest);
      SplitOfJoin(parts[1..], c);
      assert parts == [parts[0]] + parts[1..];
    }
  }

  /** A listing reads back line by line: the header line, then one row per name
      in the given order. */
  lemma ListingLines(title: string, none: string, names: seq<string>)
    requires '\n' !in title && names != []
    requires forall k :: 0 <= k < |names| ==> '\n' !in names[k]
    ensures Split(Listing(title + "\n", none, names), '\n') == [title] + Bullets(names)
  {
    var rows := Bullets(names);
    forall k | 0 <= k < |rows| ensures '\n' !in rows[k] {
      assert rows[k] == "- " + names[k];
    }
    var body := Join(rows, "\n");
    assert Listing(title + "\n", none, names) == title + ['\n'] + body;
    SplitAtFirst(title, '\n', body);
    SplitOfJoin(rows, '\n');
  }

  // ----- list_terraform_modules -----

  const ModulesTitle := "Terraform modules in use:"
  const ModulesHeader := ModulesTitle + "\n"
  const NoModules := "No modules found " + "in the current Terraform state."
  const ModulesFailure := "Error listing Terraform modules: "

  /** The module a non-empty `state list` line belongs to: the second
      dot-separated part when the first is "module". */
  function ModuleOf(line: string): Option<string> {
    if line == "" then None
    else
      var parts := Split(line, '.');
      if |parts| > 1 && parts[0] == "module" then Some(parts[1]) else None
  }

  /** The address of a resource inside module `name` yields that name. */
  lemma ModuleOfAddress(name: string, rest: string)
    requires '.' !in name && (rest == "" || rest[0] == '.')
    ensures ModuleOf("module." + name + rest) == Some(name)
  {
    assert "module." + name + rest == "module" + ['.'] + (name + rest);
    SplitAtFirst("module", '.', name + rest);
    if rest == "" {
      assert name + rest == name;
      SplitNoSeparator(name, '.');
    } else {
      assert name + rest == name + [rest[0]] + rest[1..];
      SplitAtFirst(name, '.', rest[1..]);
    }
  }

  /** Conversely, a line yields a name only when it starts "module.<name>" and
      the name has no dot. */
  lemma ModuleOfShape(line: string)
    ensures ModuleOf(line).Some? ==>
              '.' !in ModuleOf(line).value && StartsWith(line, "module." + ModuleOf(line).value)
  {
    if ModuleOf(line).Some? {
      var parts := Split(line, '.');
      var n := parts[1];
      SplitJoin(line, '.');
      var tail := Join(parts[1..], ['.']);
      assert line == parts[0] + ['.'] + tail;
      JoinStartsWith(parts[1..], ['.']);
      assert tail[..|n|] == n;
      assert line[..|"module." + n|] == "module." + n;
    }
  }

  /** The module names of the lines. */
  function ModuleSet(lines: seq<string>): set<string> {
    if lines == [] then {}
    else
      var earlier := ModuleSet(lines[..|lines| - 1]);
      match ModuleOf(lines[|lines| - 1])
      case Some(m) => earlier + {m}
      case None => earlier
  }

  /** A name is collected exactly when some line yields it. */
  lemma {:induction false} ModuleSetMembers(lines: seq<string>, m: string)
    ensures m in ModuleSet(lines) <==> exists i :: 0 <= i < |lines| && ModuleOf(lines[i]) == Some(m)
    decreases |lines|
  {
    if lines != [] {
      var init := lines[..|lines| - 1];
      ModuleSetMembers(init, m);
      assert forall i :: 0 <= i < |init| ==> init[i] == lines[i];
    }
  }

  /** The loop over the lines, adding each module name to a set. */
  method CollectModules(lines: seq<string>) returns (modules: set<string>)
    ensures modules == ModuleSet(lines)
  {
    modules := {};
    var i := 0;
    while i < |lines|
      invariant i <= |lines|
      invariant modules == ModuleSet(lines[..i])
    {
      assert lines[..i + 1][..i] == lines[..i];
      match ModuleOf(lines[i]) {
        case Some(m) => modules := modules + {m};
        case None =>
      }
      i := i + 1;
    }
    assert lines[..|lines|] == lines;
  }

  /** The lines `terraform state list` printed. */
  function StateLines(stdout: string): seq<string> {
    Split(Strip(stdout), '\n')
  }

  /** list_terraform_modules: the module names in increasing order, each once,
      under a header; the fixed text when there are none. */
  method ListModules(run: Outcome) returns (names: seq<string>, r: Reply)
    ensures run.Completed? ==>
              StrictlySorted(names)
              && (forall x :: x in names <==> x in ModuleSet(StateLines(run.stdout)))
              && r == Text(Listing(ModulesHeader, NoModules, names))
    ensures run.ProcFailed? ==> r == Text(ModulesFailure + FailureDetail(run.stderr, run.message))
    ensures run.NotFound? || run.OtherError? ==> r == Raised(run.message)
  {
    names := [];
    match run {
      case Completed(out, _) =>
        var modules := CollectModules(StateLines(out));
        names := SortedMembers(modules);
        r := Text(Listing(ModulesHeader, NoModules, names));
      case ProcFailed(_, err, msg) =>
        r := Text(ModulesFailure + FailureDetail(err, msg));
      case NotFound(msg) =>
        r := Raised(msg);
      case OtherError(msg) =>
        r := Raised(msg);
    }
  }

  // ----- The declaration pattern kw\s+"([^"]+)"\s+{ -----

  /** Where a declaration was found: its quoted name and the index just past
      its opening brace, where the search resumes. */
  datatype Decl = Decl(name: string, end: nat)

  /** The index just past the run of whitespace that starts at i. */
  function SkipSpace(s: string, i: nat): (j: nat)
    requires i <= |s|
    ensures i <= j <= |s| && forall k :: i <= k < j ==> IsSpace(s[k])
    ensures j < |s| ==> !IsSpace(s[j])
    decreases |s| - i
  {
    if i < |s| && IsSpace(s[i]) then SkipSpace(s, i + 1) else i
  }

  /** The index of the first '"' at or after i, or |s|. */
  function SkipName(s: string, i: nat): (j: nat)
    requires i <= |s|
    ensures i <= j <= |s| && forall k :: i <= k < j ==> s[k] != '"'
    ensures j < |s| ==> s[j] == '"'
    decreases |s| - i
  {
    if i < |s| && s[i] != '"' then SkipName(s, i + 1) else i
  }

  /** The match of the pattern at index i, if any. */
  function DeclAt(s: string, kw: string, i: nat): (d: Option<Decl>)
    requires i <= |s|
    ensures d.Some? ==> i < d.value.end <= |s| && d.value.name != [] && '"' !in d.value.name
  {
    if !MatchesAt(s, kw, i) then None
    else
      var a := i + |kw|;
      var b := SkipSpace(s, a);
      if b == a || b == |s| || s[b] != '"' then None
      else
        var c := SkipName(s, b + 1);
        if c == b + 1 || c == |s| then None
        else
          var e := SkipSpace(s, c + 1);
          if e == c + 1 || e == |s| || s[e] != '{' then None
          else
            var name := s[b + 1..c];
            assert forall k :: 0 <= k < |name| ==> name[k] == s[b + 1 + k];
            Some(Decl(name, e + 1))
  }

  /** s[i..j] is a non-empty run of whitespace. */
  predicate SpaceRun(s: string, i: nat, j: nat) {
    i < j <= |s| && forall k :: i <= k < j ==> IsSpace(s[k])
  }

  /** s[i..j] is a non-empty run without '"'. */
  predicate NameRun(s: string, i: nat, j: nat) {
    i < j <= |s| && forall k :: i <= k < j ==> s[k] != '"'
  }

  /** The pattern matches at i with its parts at these indices: kw, whitespace
      up to the quote at b, the name up to the quote at c, whitespace up to the
      brace at e. */
  predicate DeclSpan(s: string, kw: string, i: nat, b: nat, c: nat, e: nat) {
    MatchesAt(s, kw, i) && SpaceRun(s, i + |kw|, b) && b < |s| && s[b] == '"'
    && NameRun(s, b + 1, c) && c < |s| && s[c] == '"'
    && SpaceRun(s, c + 1, e) && e < |s| && s[e] == '{'
  }

  /** A maximal whitespace run ends where SkipSpace stops. */
  lemma {:induction false} SkipSpaceOver(s: string, i: nat, j: nat)
    requires i <= j < |s| && (forall k :: i <= k < j ==> IsSpace(s[k])) && !IsSpace(s[j])
    ensures SkipSpace(s, i) == j
    decreases j - i
  {
    if i < j {
      SkipSpaceOver(s, i + 1, j);
    }
  }

  lemma {:induction false} SkipNameOver(s: string, i: nat, j: nat)
    requires i <= j < |s| && (forall k :: i <= k < j ==> s[k] != '"') && s[j] == '"'
    ensures SkipName(s, i) == j
    decreases j - i
  {
    if i < j {
      SkipNameOver(s, i + 1, j);
    }
  }

  /** Every occurrence of the pattern is found where it starts ... */
  lemma DeclAtSpan(s: string, kw: string, i: nat, b: nat, c: nat, e: nat)
    requires DeclSpan(s, kw, i, b, c, e)
    ensures DeclAt(s, kw, i) == Some(Decl(s[b + 1..c], e + 1))
  {
    SkipSpaceOver(s, i + |kw|, b);
    SkipNameOver(s, b + 1, c);
    SkipSpaceOver(s, c + 1, e);
  }

  /** ... and everything found is an occurrence of the pattern, so the scan
      matches exactly what the regular expression matches at i. */
  lemma DeclAtHasSpan(s: string, kw: string, i: nat)
    requires i <= |s|
    ensures DeclAt(s, kw, i).Some? ==>
              exists b: nat, c: nat, e: nat :: DeclSpan(s, kw, i, b, c, e)
                && DeclAt(s, kw, i).value == Decl(s[b + 1..c], e + 1)
  {
    if DeclAt(s, kw, i).Some? {
      var b := SkipSpace(s, i + |kw|);
      var c := SkipName(s, b + 1);
      var e := SkipSpace(s, c + 1);
      assert DeclSpan(s, kw, i, b, c, e);
    }
  }

  /** re.finditer: the names of all non-overlapping matches from index i on,
      left to right, each search resuming after the previous match. */
  function Decls(s: string, kw: string, i: nat): (names: seq<string>)
    requires i <= |s|
    ensures forall k :: 0 <= k < |names| ==> names[k] != [] && '"' !in names[k]
    decreases |s| - i
  {
    if i == |s| then []
    else
      match DeclAt(s, kw, i)
      case Some(d) => [d.name] + Decls(s, kw, d.end)
      case None => Decls(s, kw, i + 1)
  }

  // ----- get_terraform_variables -----

  const NoTfFiles := "No Terraform (.tf) files found " + "in the current directory."
  const NoVariables := "No variables found " + "in the Terraform configuration files."
  const VariablesTitle := "Terraform variables defined in the project:"
  const VariablesFailure := "Error retrieving Terraform variables: "

  /** The declared variable names of the files, in file order and then in
      order of appearance, duplicates kept. */
  function VariablesIn(files: seq<string>): seq<string> {
    if files == [] then []
    else VariablesIn(files[..|files| - 1]) + Decls(files[|files| - 1], "variable", 0)
  }

  /** How one `echo var.x | terraform console` attempt ended: its exit status
      and stdout, the 2-second timeout, or an exception the loop does not catch
      (which ends the whole resource). */
  datatype ConsoleRun = Answered(code: int, stdout: string) | TimedOut | Crashed(message: string)

  /** Run k answered for variable v with exit status 0. */
  predicate Succeeded(vars: seq<string>, runs: seq<ConsoleRun>, k: int, v: string)
    requires |runs| == |vars|
  {
    0 <= k < |vars| && vars[k] == v && runs[k].Answered? && runs[k].code == 0
  }

  /** The `values` dict after the loop over the variables (one console run per
      occurrence), or the message of the exception that stopped it. */
  function ConsoleValues(vars: seq<string>, runs: seq<ConsoleRun>): Result<map<string, string>, string>
    requires |runs| == |vars|
  {
    if vars == [] then Ok(map[])
    else
      var n := |vars| - 1;
      match ConsoleValues(vars[..n], runs[..n])
      case Err(msg) => Err(msg)
      case Ok(values) =>
        match runs[n]
        case Answered(code, out) => if code == 0 then Ok(values[vars[n] := Strip(out)]) else Ok(values)
        case TimedOut => Ok(values)
        case Crashed(msg) => Err(msg)
  }

  /** Proof helper: ConsoleValues unfolded by its last run, which the lemmas
      below use one step at a time. */
  lemma ConsoleStep(vars: seq<string>, runs: seq<ConsoleRun>)
    requires |runs| == |vars| && vars != []
    ensures var n := |vars| - 1;
      var prev := ConsoleValues(vars[..n], runs[..n]);
      ConsoleValues(vars, runs) ==
        if prev.Err? then prev
        else if runs[n].Crashed? then Err(runs[n].message)
        else if Succeeded(vars, runs, n, vars[n]) then Ok(prev.value[vars[n] := Strip(runs[n].stdout)])
        else prev
  {
  }

  lemma SucceededPrefix(vars: seq<string>, runs: seq<ConsoleRun>, n: nat, k: int, v: string)
    requires |runs| == |vars| && n <= |vars|
    ensures Succeeded(vars[..n], runs[..n], k, v) <==> k < n && Succeeded(vars, runs, k, v)
  {
  }

  /** A variable has a value exactly when one of its runs succeeded. */
  lemma {:induction false} ConsoleValuesHas(vars: seq<string>, runs: seq<ConsoleRun>, v: string)
    requires |runs| == |vars| && ConsoleValues(vars, runs).Ok?
    ensures v in ConsoleValues(vars, runs).value <==> exists k :: Succeeded(vars, runs, k, v)
    decreases |vars|
  {
    if vars != [] {
      var n := |vars| - 1;
      ConsoleStep(vars, runs);
      ConsoleValuesHas(vars[..n], runs[..n], v);
      if k :| Succeeded(vars, runs, k, v) {
        if k < n {
          SucceededPrefix(vars, runs, n, k, v);
        }
      }
      if k :| Succeeded(vars[..n], runs[..n], k, v) {
        SucceededPrefix(vars, runs, n, k, v);
      }
    }
  }

  /** Run k is the last successful run for v. */
  predicate LastSuccess(vars: seq<string>, runs: seq<ConsoleRun>, k: int, v: string)
    requires |runs| == |vars|
  {
    Succeeded(vars, runs, k, v) && forall j :: k < j < |vars| ==> !Succeeded(vars, runs, j, v)
  }

  lemma LastSuccessPrefix(vars: seq<string>, runs: seq<ConsoleRun>, k: int, v: string)
    requires |runs| == |vars| && vars != []
    requires LastSuccess(vars[..|vars| - 1], runs[..|vars| - 1], k, v)
    requires !Succeeded(vars, runs, |vars| - 1, v)
    ensures LastSuccess(vars, runs, k, v)
  {
    var n := |vars| - 1;
    SucceededPrefix(vars, runs, n, k, v);
    forall j | k < j < |vars| ensures !Succeeded(vars, runs, j, v) {
      if j < n {
        SucceededPrefix(vars, runs, n, j, v);
      }
    }
  }

  /** The value a variable has is the stripped answer of its last successful
      run: a later successful run for the same name overwrites it. */
  lemma {:induction false} ConsoleValuesLastAnswer(vars: seq<string>, runs: seq<ConsoleRun>, v: string)
    requires |runs| == |vars| && ConsoleValues(vars, runs).Ok?
    requires v in ConsoleValues(vars, runs).value
    ensures exists k :: LastSuccess(vars, runs, k, v) && ConsoleValues(vars, runs).value[v] == Strip(runs[k].stdout)
    decreases |vars|
  {
    var n := |vars| - 1;
    ConsoleStep(vars, runs);
    if Succeeded(vars, runs, n, v) {
      assert LastSuccess(vars, runs, n, v);
    } else {
      var pv, pr := vars[..n], runs[..n];
      ConsoleValuesLastAnswer(pv, pr, v);
      var k :| LastSuccess(pv, pr, k, v) && ConsoleValues(pv, pr).value[v] == Strip(pr[k].stdout);
      LastSuccessPrefix(vars, runs, k, v);
      assert pr[k] == runs[k];
    }
  }

  /** Only an exception stops the loop. */
  lemma {:induction false} ConsoleValuesOkIff(vars: seq<string>, runs: seq<ConsoleRun>)
    requires |runs| == |vars|
    ensures ConsoleValues(vars, runs).Ok? <==> forall k :: 0 <= k < |runs| ==> !runs[k].Crashed?
    decreases |vars|
  {
    if vars != [] {
      var n := |vars| - 1;
      ConsoleStep(vars, runs);
      ConsoleValuesOkIff(vars[..n], runs[..n]);
      assert forall k :: 0 <= k < n ==> runs[..n][k] == runs[k];
    }
  }

  /** The error reported is the message of the first run that raised. */
  lemma {:induction false} ConsoleValuesFirstCrash(vars: seq<string>, runs: seq<ConsoleRun>)
    requires |runs| == |vars| && ConsoleValues(vars, runs).Err?
    ensures exists k :: 0 <= k < |runs| && runs[k] == Crashed(ConsoleValues(vars, runs).error)
              && forall j :: 0 <= j < k ==> !runs[j].Crashed?
    decreases |vars|
  {
    var n := |vars| - 1;
    ConsoleStep(vars, runs);
    assert forall k :: 0 <= k < n ==> runs[..n][k] == runs[k];
    if ConsoleValues(vars[..n], runs[..n]).Err? {
      ConsoleValuesFirstCrash(vars[..n], runs[..n]);
    } else {
      ConsoleValuesOkIff(vars[..n], runs[..n]);
      assert runs[n] == Crashed(ConsoleValues(vars, runs).error);
    }
  }

  /** Once the loop has stopped with an error, the later runs change nothing. */
  lemma {:induction false} ConsoleErrorPersists(vars: seq<string>, runs: seq<ConsoleRun>, j: nat, msg: string)
    requires |runs| == |vars| && j <= |vars|
    requires ConsoleValues(vars[..j], runs[..j]) == Err(msg)
    ensures ConsoleValues(vars, runs) == Err(msg)
    decreases |vars| - j
  {
    if j < |vars| {
      assert vars[..j + 1][..j] == vars[..j] && runs[..j + 1][..j] == runs[..j];
      ConsoleErrorPersists(vars, runs, j + 1, msg);
    } else {
      assert vars[..j] == vars && runs[..j] == runs;
    }
  }

  /** One output row, without its newline: "- v = value" or "- v". */
  function RowLine(v: string, values: map<string, string>): string {
    if v in values then "- " + v + " = " + values[v] else "- " + v
  }

  /** One output row with its newline. */
  function Row(v: string, values: map<string, string>): string {
    RowLine(v, values) + "\n"
  }

  /** The rows the output loop appends, in the given order. */
  function Rows(vars: seq<string>, values: map<string, string>): string {
    if vars == [] then "" else Row(vars[0], values) + Rows(vars[1..], values)
  }

  function RowLines(vars: seq<string>, values: map<string, string>): (lines: seq<string>)
    ensures |lines| == |vars|
    ensures forall k :: 0 <= k < |vars| ==> lines[k] == RowLine(vars[k], values)
  {
    if vars == [] then [] else [RowLine(vars[0], values)] + RowLines(vars[1..], values)
  }

  lemma {:induction false} RowsAppend(vars: seq<string>, v: string, values: map<string, string>)
    ensures Rows(vars + [v], values) == Rows(vars, values) + Row(v, values)
    decreases |vars|
  {
    if vars == [] {
      assert [v][1..] == [];
    } else {
      assert (vars + [v])[1..] == vars[1..] + [v];
      RowsAppend(vars[1..], v, values);
    }
  }

  lemma RowsExtend(vars: seq<string>, k: nat, values: map<string, string>)
    requires k < |vars|
    ensures Rows(vars[..k + 1], values) == Rows(vars[..k], values) + Row(vars[k], values)
  {
    RowsAppend(vars[..k], vars[k], values);
    assert vars[..k + 1] == vars[..k] + [vars[k]];
  }

  /** No name or value spans lines. */
  predicate OneLine(vars: seq<string>, values: map<string, string>) {
    (forall k :: 0 <= k < |vars| ==> '\n' !in vars[k])
    && forall v :: v in values ==> '\n' !in values[v]
  }

  lemma RowLineOneLine(v: string, values: map<string, string>)
    requires '\n' !in v && (v in values ==> '\n' !in values[v])
    ensures '\n' !in RowLine(v, values)
  {
  }

  /** The rows read back line by line, one per occurrence in the given order. */
  lemma {:induction false} RowsLines(vars: seq<string>, values: map<string, string>)
    requires OneLine(vars, values)
    ensures Split(Rows(vars, values), '\n') == RowLines(vars, values) + [""]
    decreases |vars|
  {
    if vars != [] {
      RowLineOneLine(vars[0], values);
      assert OneLine(vars[1..], values);
      RowsLines(vars[1..], values);
      var line := RowLine(vars[0], values);
      assert Rows(vars, values) == line + ['\n'] + Rows(vars[1..], values);
      SplitAtFirst(line, '\n', Rows(vars[1..], values));
    }
  }

  /** What get_terraform_variables returns, given the contents of the *.tf
      files in glob order and one console run per variable occurrence. */
  function VariablesReport(files: seq<string>, runs: seq<ConsoleRun>): string
    requires |runs| == |VariablesIn(files)|
  {
    if files == [] then NoTfFiles
    else
      var vars := VariablesIn(files);
      if vars == [] then NoVariables
      else
        match ConsoleValues(vars, runs)
        case Err(msg) => VariablesFailure + msg
        case Ok(values) => VariablesTitle + "\n" + Rows(Sort(vars), values)
  }

  /** The report is its title line, then one row per variable occurrence in
      sorted order, then the empty piece after the final newline. */
  lemma VariablesReportLines(title: string, vars: seq<string>, values: map<string, string>)
    requires '\n' !in title && OneLine(vars, values)
    ensures Split(title + "\n" + Rows(Sort(vars), values), '\n') == [title] + RowLines(Sort(vars), values) + [""]
    ensures Sorted(Sort(vars)) && multiset(Sort(vars)) == multiset(vars)
  {
    var sorted := Sort(vars);
    forall k | 0 <= k < |sorted| ensures '\n' !in sorted[k] {
      assert sorted[k] in multiset(vars);
    }
    assert OneLine(sorted, values);
    RowsLines(sorted, values);
    assert title + "\n" + Rows(sorted, values) == title + ['\n'] + Rows(sorted, values);
    SplitAtFirst(title, '\n', Rows(sorted, values));
  }

  /** The loop over the files collecting the variable declarations. */
  method CollectVariables(files: seq<string>) returns (vars: seq<string>)
    ensures vars == VariablesIn(files)
  {
    vars := [];
    var i := 0;
    while i < |files|
      invariant i <= |files|
      invariant vars == VariablesIn(files[..i])
    {
      assert files[..i + 1][..i] == files[..i];
      vars := vars + Decls(files[i], "variable", 0);
      i := i + 1;
    }
    assert files[..|files|] == files;
  }

  /** The loop asking terraform console for each variable's value. */
  method AskConsole(vars: seq<string>, runs: seq<ConsoleRun>) returns (values: Result<map<string, string>, string>)
    requires |runs| == |vars|
    ensures values == ConsoleValues(vars, runs)
  {
    var found: map<string, string> := map[];
    var j := 0;
    while j < |vars|
      invariant j <= |vars|
      invariant ConsoleValues(vars[..j], runs[..j]) == Ok(found)
    {
      ConsoleStep(vars[..j + 1], runs[..j + 1]);
      assert vars[..j + 1][..j] == vars[..j] && runs[..j + 1][..j] == runs[..j];
      match runs[j] {
        case Answered(code, out) =>
          if code == 0 {
            found := found[vars[j] := Strip(out)];
          }
        case TimedOut =>
        case Crashed(msg) =>
          ConsoleErrorPersists(vars, runs, j + 1, msg);
          return Err(msg);
      }
      j := j + 1;
    }
    assert vars[..j] == vars && runs[..j] == runs;
    values := Ok(found);
  }

  /** The loop appending one row per variable. */
  method AppendRows(sorted: seq<string>, values: map<string, string>) returns (text: string)
    ensures text == Rows(sorted, values)
  {
    text := "";
    var k := 0;
    while k < |sorted|
      invariant k <= |sorted|
      invariant text == Rows(sorted[..k], values)
    {
      RowsExtend(sorted, k, values);
      text := text + Row(sorted[k], values);
      k := k + 1;
    }
    assert sorted[..k] == sorted;
  }

  /** get_terraform_variables over the file contents and the console runs. */
  method GetVariables(files: seq<string>, runs: seq<ConsoleRun>) returns (text: string)
    requires |runs| == |VariablesIn(files)|
    ensures text == VariablesReport(files, runs)
  {
    if files == [] {
      return NoTfFiles;
    }
    var vars := CollectVariables(files);
    if vars == [] {
      return NoVariables;
    }
    var values := AskConsole(vars, runs);
    match values {
      case Err(msg) =>
        text := VariablesFailure + msg;
      case Ok(found) =>
        var rows := AppendRows(Sort(vars), found);
        text := VariablesTitle + "\n" + rows;
    }
  }

  // ----- get_terraform_providers -----

  const NoProviderInfo := "No provider information available."
  const ProvidersHeader := "Terraform providers:\n\n"
  const ProvidersTitle := "Terraform providers in use:"
  const ProvidersListHeader := ProvidersTitle + "\n"
  const NoProviders := "No providers found " + "in the Terraform configuration files."

  /** The set of provider names declared across the files. */
  function ProviderSet(files: seq<string>): set<string> {
    if files == [] then {}
    else
      var n := |files| - 1;
      ProviderSet(files[..n]) + (set x | x in Decls(files[n], "provider", 0))
  }

  /** File k declares provider x. */
  predicate DeclaresProvider(files: seq<string>, k: int, x: string) {
    0 <= k < |files| && x in Decls(files[k], "provider", 0)
  }

  lemma DeclaresProviderPrefix(files: seq<string>, n: nat, k: int, x: string)
    requires n <= |files|
    ensures DeclaresProvider(files[..n], k, x) <==> k < n && DeclaresProvider(files, k, x)
  {
    if 0 <= k < n {
      assert files[..n][k] == files[k];
    }
  }

  /** A name is a provider exactly when some file declares it. */
  lemma {:induction false} ProviderSetMembers(files: seq<string>, x: string)
    ensures x in ProviderSet(files) <==> exists k :: DeclaresProvider(files, k, x)
    decreases |files|
  {
    if files != [] {
      var n := |files| - 1;
      ProviderSetMembers(files[..n], x);
      if x in ProviderSet(files[..n]) {
        var k :| DeclaresProvider(files[..n], k, x);
        DeclaresProviderPrefix(files, n, k, x);
      } else if x in ProviderSet(files) {
        assert DeclaresProvider(files, n, x);
      }
      if k :| DeclaresProvider(files, k, x) {
        DeclaresProviderPrefix(files, n, k, x);
      }
    }
  }

  /** The loop over the files, adding each file's provider names to a set. */
  method CollectProviders(files: seq<string>) returns (providers: set<string>)
    ensures providers == ProviderSet(files)
  {
    providers := {};
    var i := 0;
    while i < |files|
      invariant i <= |files|
      invariant providers == ProviderSet(files[..i])
    {
      assert files[..i + 1][..i] == files[..i];
      var found := Decls(files[i], "provider", 0);
      providers := providers + (set x | x in found);
      i := i + 1;
    }
    assert files[..|files|] == files;
  }

  /** get_terraform_providers: the output of `terraform providers`; when that
      command fails, the provider names declared in the *.tf files, each once
      and in increasing order. */
  method GetProviders(run: Outcome, files: seq<string>) returns (names: seq<string>, r: Reply)
    ensures run.Completed? ==>
              names == [] && r == Text(if Strip(run.stdout) == "" then NoProviderInfo else ProvidersHeader + run.stdout)
    ensures run.ProcFailed? && files == [] ==> names == [] && r == Text(NoTfFiles)
    ensures run.ProcFailed? && files != [] ==>
              StrictlySorted(names)
              && (forall x :: x in names <==> x in ProviderSet(files))
              && r == Text(Listing(ProvidersListHeader, NoProviders, names))
    ensures run.NotFound? || run.OtherError? ==> names == [] && r == Raised(run.message)
  {
    names := [];
    match run {
      case Completed(out, _) =>
        if Strip(out) == "" {
          r := Text(NoProviderInfo);
        } else {
          r := Text(ProvidersHeader + out);
        }
      case ProcFailed(_, _, _) =>
        if files == [] {
          r := Text(NoTfFiles);
        } else {
          var providers := CollectProviders(files);
          names := SortedMembers(providers);
          r := Text(Listing(ProvidersListHeader, NoProviders, names));
        }
      case NotFound(msg) =>
        r := Raised(msg);
      case OtherError(msg) =>
        r := Raised(msg);
    }
  }
}
