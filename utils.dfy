/** src/handlers/utils.py: formatting of captured output and the check that a
    directory is a Terraform workspace. check_tool_installed is not modelled: its
    verdict is an input wherever the source consults it. */
module Utils {
  import opened Text

  const NoOutput := "No output"
  const ErrorsLabel := "Errors/Warnings:\n"
  const BlockSeparator := "\n\n"

  /** The list `output` that format_output fills: the stripped stdout if stdout
      is non-empty, then the labelled stripped stderr if stderr is non-empty.
      Inclusion is decided on the raw strings. */
  function OutputBlocks(stdout: string, stderr: string): seq<string> {
    (if stdout != "" then [Strip(stdout)] else [])
    + (if stderr != "" then [ErrorsLabel + Strip(stderr)] else [])
  }

  /** format_output: the blocks joined by a blank line, or "No output". */
  function FormatOutput(stdout: string, stderr: string): (r: string)
    ensures stdout == "" && stderr == "" ==> r == NoOutput
    ensures stdout != "" && stderr == "" ==> r == Strip(stdout)
    ensures stdout == "" && stderr != "" ==> r == ErrorsLabel + Strip(stderr)
    ensures stdout != "" && stderr != "" ==>
              r == Strip(stdout) + BlockSeparator + ErrorsLabel + Strip(stderr)
  {
    var blocks := OutputBlocks(stdout, stderr);
    if blocks == [] then NoOutput
    else
      assert stdout != "" && stderr != "" ==>
        blocks == [Strip(stdout), ErrorsLabel + Strip(stderr)]
        && blocks[1..] == [ErrorsLabel + Strip(stderr)]
        && Join(blocks, BlockSeparator) == blocks[0] + BlockSeparator + Join(blocks[1..], BlockSeparator);
      Join(blocks, BlockSeparator)
  }

  /** The stdout block always comes first and the error text is never dropped:
      the result begins with the stripped stdout and, when stderr is non-empty,
      ends with the stripped stderr. */
  lemma FormatOutputOrder(stdout: string, stderr: string)
    ensures stdout != "" ==> StartsWith(FormatOutput(stdout, stderr), Strip(stdout))
    ensures stderr != "" ==> EndsWith(FormatOutput(stdout, stderr), Strip(stderr))
    ensures stderr != "" ==> Contains(FormatOutput(stdout, stderr), ErrorsLabel)
  {
    var r := FormatOutput(stdout, stderr);
    if stderr != "" {
      var pre := if stdout != "" then Strip(stdout) + BlockSeparator else "";
      assert r == pre + ErrorsLabel + Strip(stderr);
      ContainsMiddle(pre, ErrorsLabel, Strip(stderr));
      assert r[|r| - |Strip(stderr)|..] == Strip(stderr);
    }
    if stdout != "" {
      assert r[..|Strip(stdout)|] == Strip(stdout);
    }
  }

  /** A whitespace-only stdout with empty stderr gives "", not "No output": the
      emptiness test runs before stripping. */
  lemma FormatOutputBlankStdout(stdout: string)
    requires stdout != "" && AllSpace(stdout)
    ensures FormatOutput(stdout, "") == ""
  {
    StripEmptyIffAllSpace(stdout);
  }

  /** What the model knows of one filesystem path: whether it exists, whether it
      is a directory, and the names of its entries. */
  datatype PathFacts = PathFacts(present: bool, directory: bool, entries: seq<string>)

  /** Names that glob('*.tf') matches. */
  predicate IsTfName(name: string) {
    EndsWith(name, ".tf")
  }

  function TfEntries(entries: seq<string>): (r: seq<string>)
    ensures forall e :: e in r <==> e in entries && IsTfName(e)
  {
    if entries == [] then []
    else (if IsTfName(entries[0]) then [entries[0]] else []) + TfEntries(entries[1..])
  }

  /** list(path.glob('*.tf')): nothing unless the path is an existing directory. */
  function Glob(p: PathFacts): seq<string> {
    if p.present && p.directory then TfEntries(p.entries) else []
  }

  /** The path is an existing directory holding at least one *.tf entry. */
  ghost predicate HoldsConfig(p: PathFacts) {
    p.present && p.directory && exists e :: e in p.entries && IsTfName(e)
  }

  /** validate_workspace: a workspace is valid exactly when it is an existing
      directory and it, or failing that its parent, holds a *.tf entry. */
  function ValidateWorkspace(ws: PathFacts, parent: PathFacts): (ok: bool)
    ensures !ws.present || !ws.directory ==> !ok
    ensures ok <==> ws.present && ws.directory && (HoldsConfig(ws) || HoldsConfig(parent))
  {
    if !ws.present then false
    else if !ws.directory then false
    else
      var tfFiles := Glob(ws);
      if |tfFiles| == 0 && parent.present && |Glob(parent)| > 0 then
        assert Glob(parent)[0] in Glob(parent);
        true
      else
        assert |tfFiles| > 0 ==> tfFiles[0] in tfFiles;
        |tfFiles| > 0
  }
}
