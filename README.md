# Terraform MCP server — a Dafny model of its core

The Terraform MCP server puts Terraform behind the Model Context Protocol.
It has two entry points.

- `src/main.py`: a natural-language query is lower-cased and stripped. An
  if/elif chain of keyword lists then picks one method of the
  `TerraformHandler` class: plan, state list, apply, destroy or show. Each
  method runs one `terraform` command and formats what that command printed.
- `terraform-mcp-server.py`: a larger keyword chain. Besides plan and state,
  it covers cost, security, drift, explain, apply and destroy. Any other query
  has the word "terraform" removed and hands the rest to `terraform` as a
  command. The script also serves resources: the modules in the state, the
  variables and providers declared in the `*.tf` files.

`src/config.py` fixes the project root, the Terraform workspace and the log
directory at import time.

Every external effect is an input to the model. This covers a command's
outcome, a tool probe, the filesystem and the environment.

- A command's outcome is a `Process.Outcome`:
  - `Completed(stdout, stderr)`;
  - `ProcFailed(stdout, stderr, message)`: a `CalledProcessError` carrying
    `str(e)`;
  - `NotFound(message)`: a `FileNotFoundError`;
  - `OtherError(message)`: any other exception.
- What the script returns is a `Process.Reply`: a `Text` body, or `Raised`
  for an exception its branch does not catch.

Modules:

| module | file | models |
|---|---|---|
| Text | text.dfy | `str.lower`, `str.strip`, `in` on strings, `str.replace`, `split`/`join` and `sorted` for ASCII strings |
| Process | process.dfy | command outcomes and `e.stderr if e.stderr else str(e)` |
| Utils | utils.dfy | `src/handlers/utils.py`: `format_output` and `validate_workspace` |
| Handler | handler.dfy | `src/handlers/terraform.py`: the `TerraformHandler` class |
| Intent | intent.dfy | first-match keyword tables, shared by both dispatchers |
| MainDispatch | main_dispatch.dfy | `src/main.py`: `handle_terraform_query` |
| Server | server.dfy | `terraform-mcp-server.py`: `handle_terraform_query` and its branch replies |
| Scrapers | scrapers.dfy | `terraform-mcp-server.py`: the modules, variables and providers resources |
| Config | config.dfy | `src/config.py` |

## Model

| member | source | states |
|---|---|---|
| Text.StripShape | src/main.py:74 | `strip()` removes exactly a leading and a trailing run of whitespace; what is left neither starts nor ends with whitespace |
| Text.Strip | src/main.py:74 | `strip()`: its shape is stated by StripShape, and StripIdempotent and StripEmptyIffAllSpace hold of it |
| Text.StripIdempotent | terraform-mcp-server.py:152 | stripping twice is stripping once |
| Text.LowerIdempotent | terraform-mcp-server.py:152 | lower-casing twice is lower-casing once |
| Text.Lower | terraform-mcp-server.py:152 | `lower()` keeps the length and lower-cases each character on its own, leaving every other character as it is |
| Text.StripEmptyIffAllSpace | src/handlers/terraform.py:174-175 | a stripped text is empty exactly when the text is all whitespace |
| Text.RemoveAllAbsent | terraform-mcp-server.py:317 | removing a word the text does not contain leaves it unchanged |
| Text.RemoveAllPrefix | terraform-mcp-server.py:317 | removing a word from text that starts with it drops that occurrence first |
| Text.RemoveAll | terraform-mcp-server.py:317 | `replace(w, "")` never lengthens the text; RemoveAllAbsent and RemoveAllPrefix give its left-to-right scan |
| Text.SplitJoin | terraform-mcp-server.py:359 | joining the pieces of `split(c)` with c gives back the text |
| Text.SplitAtFirst | terraform-mcp-server.py:359 | splitting a + c + b, with no c in a, gives a and then the pieces of b |
| Text.Split | terraform-mcp-server.py:359 | `split(c)` gives at least one piece; SplitJoin and SplitAtFirst tie the pieces to the text |
| Text.Less | terraform-mcp-server.py:368 | the order `sorted` uses: irreflexive, asymmetric, transitive and total, by LessIrreflexive, LessAsymmetric, LessTransitive and LessTotal |
| Text.Sort | terraform-mcp-server.py:414 | `sorted` gives an ordered permutation of its input, duplicates kept |
| Text.SortedMembers | terraform-mcp-server.py:368 | `sorted` of a set gives each member exactly once, in strictly increasing order |
| Text.StrictlySortedUnique | terraform-mcp-server.py:368 | two strictly sorted lists with the same members are equal, so the listing is determined by the set |
| Process.FailureDetail | src/handlers/terraform.py:86 | the error detail is stderr when it is non-empty, otherwise `str(e)` |
| Utils.FormatOutput | src/handlers/utils.py:47-63 | every combination of empty and non-empty stdout and stderr: "No output", stripped stdout, the label and stripped stderr, or both joined by a blank line |
| Utils.FormatOutputOrder | src/handlers/utils.py:58-63 | the stripped stdout starts the text and the stripped stderr ends it, after the "Errors/Warnings:" label |
| Utils.FormatOutputBlankStdout | src/handlers/utils.py:59-60 | stdout of only whitespace with no stderr is formatted as the empty string, not as "No output" |
| Utils.TfEntries | src/handlers/utils.py:35 | the glob keeps exactly the entries whose names end in ".tf" |
| Utils.ValidateWorkspace | src/handlers/utils.py:10-45 | valid exactly when the path is an existing directory and either it or its parent holds a `.tf` file; false whenever the path is missing or not a directory |
| Handler.ResolveEnv | src/handlers/terraform.py:23 | a non-empty environment argument is used as given; a missing or empty one is replaced by the process environment |
| Handler.CommonPathsSpelled | src/handlers/terraform.py:34-38 | with either separator, the three candidates are ProgramFiles, ProgramFiles(x86) and LOCALAPPDATA/Programs, each the variable's value or its default, followed by terraform and terraform.exe |
| Handler.FirstPathIn | src/handlers/terraform.py:40-44 | the first candidate that exists, with none before it existing; none exactly when no candidate exists |
| Handler.FirstExisting | src/handlers/terraform.py:40-44 | the loop that breaks on the first existing candidate returns the same as FirstPathIn |
| Handler.Construct | src/handlers/terraform.py:15-55 | an invalid workspace is a ValueError with its message; a missing executable, after which the fallback check also fails, is a RuntimeError with the check's error; otherwise the fields are set, with `which` winning over the candidate paths, the first existing candidate used next, and `which` kept (None) when neither gives a path |
| Handler.TerraformHandler.Create | src/handlers/terraform.py:15-55 | `__init__` step by step: raises exactly the error Construct reports, and otherwise returns a new handler whose fields are the ones Construct computes |
| Handler.TerraformHandler.constructor | src/handlers/terraform.py:15-55 | the object holds the constructed environment, workspace and executable path |
| Handler.TerraformHandler.Executable | src/handlers/terraform.py:57-71 | commands run the resolved executable when one was found, plain "terraform" otherwise |
| Handler.TerraformHandler.Command | src/handlers/terraform.py:57-71 | the argument vector is the executable followed by the command words |
| Handler.RespondReportsFailure | src/handlers/terraform.py:85-88 | a non-zero exit gives the failure prefix followed by the stderr, or `str(e)` when stderr is empty |
| Handler.Respond | src/handlers/terraform.py:80-92 | the formatted output on success, the failure prefix and error detail on a non-zero exit (RespondReportsFailure), otherwise the unexpected-error prefix and the message |
| Handler.GraphCommand | src/handlers/terraform.py:105-114 | the graph pipeline of plan(), run only when the plan succeeded and dot is installed (TerraformHandler.Plan) |
| Handler.TerraformHandler.Init | src/handlers/terraform.py:80-92 | `init` runs `[exe, "init"]` and returns formatted output, the init error message, or the unexpected-error message |
| Handler.TerraformHandler.Plan | src/handlers/terraform.py:94-132 | `plan -out=<file>`; with dot available, the graph pipeline runs and its success or failure adds a note; without dot, the plain formatted output; the plan's own failure gives its error message |
| Handler.PlanKeepsPlanOutput | src/handlers/terraform.py:114-122 | whichever note is added, the stripped plan output still starts the returned text |
| Handler.StripKeepsLeadingText | src/handlers/terraform.py:114-122 | appending text that ends visibly keeps the stripped original at the start of the stripped result |
| Handler.TerraformHandler.Apply | src/handlers/terraform.py:134-150 | `apply`, with `-auto-approve` exactly when asked, and the apply messages |
| Handler.TerraformHandler.Destroy | src/handlers/terraform.py:152-168 | `destroy`, with `-auto-approve` exactly when asked, and the destroy messages |
| Handler.TerraformHandler.StateList | src/handlers/terraform.py:170-183 | `state list`, giving the stripped output or "No resources found in the current state." when nothing is left |
| Handler.TerraformHandler.Show | src/handlers/terraform.py:185-197 | `show` and the show messages |
| Intent.DispatchSelects | src/main.py:77-96 | a keyword chain returns the tag of the first rule whose keywords occur, or the default exactly when none occurs |
| Intent.Dispatch | src/main.py:77-96 | first-match dispatch: DispatchSelects and EarlierRuleWins state which tag it returns |
| Intent.EarlierRuleWins | src/main.py:77-96 | a rule whose keyword occurs shuts out every later rule with another tag |
| Intent.NormalizeIdempotent | src/main.py:74 | normalising a normalised query changes nothing |
| Intent.Normalize | src/main.py:74 | `query.lower().strip()`: NormalizeIdempotent, with StripShape and Lower for its parts |
| Intent.MentionsCons | src/main.py:77 | `any(...)` over a keyword list is the first keyword or any of the rest |
| MainDispatch.SelectIsDispatch | src/main.py:77-96 | the if/elif chain is the first-match table of its five keyword lists with "not sure" as the default |
| MainDispatch.Select | src/main.py:77-96 | the if/elif chain: SelectIsDispatch, EarlierRuleDecides and SelectAutoApproves state what it selects |
| MainDispatch.MainIntent | src/main.py:74-96 | the operation chosen for a raw query: MainIntentNormalizes and the concrete-query lemmas |
| MainDispatch.RuleTagsDistinct | src/main.py:77-96 | the five branches are five different operations, none of them the "not sure" answer |
| MainDispatch.EarlierRuleDecides | src/main.py:77-96 | a keyword of an earlier branch rules out every later branch |
| MainDispatch.SelectAutoApproves | src/main.py:85-90 | apply and destroy are always called with auto-approval |
| MainDispatch.MainIntentNormalizes | src/main.py:74 | a query and its normalised form select the same operation |
| MainDispatch.PlanKeywordWins | src/main.py:77-78 | any query containing a plan keyword plans, whatever else it contains |
| MainDispatch.ShowExcludesApply | src/main.py:85-94 | a query that reaches show contains neither "apply" nor "deploy" |
| MainDispatch.WhatWillChangeSelectsPlan | src/main.py:77 | "What will change if I apply" plans rather than applies |
| MainDispatch.CurrentStateSelectsStateList | src/main.py:81 | "Show me the current state" lists the state rather than showing |
| MainDispatch.TearDownSelectsDestroy | src/main.py:89-90 | "Tear down my resources" destroys with auto-approval |
| MainDispatch.HelpMeIsNotSure | src/main.py:96 | "help me" gets the rephrasing message |
| MainDispatch.HandleQuery | src/main.py:72-96 | the selected operation, the command it runs (`plan -out=tfplan`, `state list`, `apply -auto-approve`, `destroy -auto-approve`, `show`, or none), and the text for every outcome, including both notes of the plan picture |
| MainDispatch.Perform | src/main.py:77-96 | the handler call of each branch: its command and its text, as the handler method promises them |
| Server.Fallback | terraform-mcp-server.py:314-320 | the else branch reports nothing recognised exactly when the remainder is empty, and otherwise passes the remainder through |
| Server.Remainder | terraform-mcp-server.py:317 | the query with every "terraform" deleted, then stripped: RemainderTrimmed and PassthroughIsRemainder |
| Server.RemainderTrimmed | terraform-mcp-server.py:317 | the remainder is already stripped, and is the stripped query when it has no "terraform" |
| Server.SelectIsDispatch | terraform-mcp-server.py:155-320 | the if/elif chain is the first-match table of its eight keyword lists, falling back to the passthrough |
| Server.Select | terraform-mcp-server.py:155-314 | the if/elif chain: SelectIsDispatch, EarlierRuleDecides and FallbackOnlyWithoutKeyword state what it selects |
| Server.ServerIntent | terraform-mcp-server.py:152-314 | the branch chosen for a raw query: ServerIntentNormalizes and the concrete-query lemmas |
| Server.RuleTagsDistinct | terraform-mcp-server.py:155-300 | the eight branches are eight different operations, none of them the fallback |
| Server.EarlierRuleDecides | terraform-mcp-server.py:155-300 | a keyword of an earlier branch rules out every later branch |
| Server.FallbackOnlyWithoutKeyword | terraform-mcp-server.py:314 | the passthrough is reached only when no keyword of any branch occurs |
| Server.PassthroughFromFallback | terraform-mcp-server.py:314-317 | a passthrough selection is exactly what the else branch computed |
| Server.PassthroughIsRemainder | terraform-mcp-server.py:317-320 | the passed-through command is the query with every "terraform" removed and stripped, and is non-empty |
| Server.ServerIntentNormalizes | terraform-mcp-server.py:152 | a query and its normalised form select the same branch |
| Server.ChangedSinceSelectsDrift | terraform-mcp-server.py:249 | "Has anything changed since last apply?" checks drift, not apply |
| Server.ExecutionPlanSelectsPlan | terraform-mcp-server.py:155 | "Show me the execution plan" plans, not shows |
| Server.CommandLettersFallBack | terraform-mcp-server.py:314 | a query made only of the letters of "terraform init" reaches the else branch |
| Server.TerraformInitPassesThrough | terraform-mcp-server.py:317 | "terraform init" passes "init" through |
| Server.TerraformAloneIsUnrecognised | terraform-mcp-server.py:317-320 | "Terraform" alone leaves nothing and is not recognised |
| Server.Report | terraform-mcp-server.py:222-224 | a success gives exactly the header followed by stdout; a non-zero exit gives exactly the failure prefix, the error detail and the suffix; any other exception escapes with its message |
| Server.Probed | terraform-mcp-server.py:207-213 | a tool probe that fails or finds nothing gives the install hint; a working probe goes on to the command; other exceptions escape |
| Server.CostReply | terraform-mcp-server.py:206-224 | the install hint when infracost is missing, otherwise "Cost estimation:" and stdout, or "Error estimating costs: " and the detail; other exceptions escape |
| Server.SecurityScan | terraform-mcp-server.py:236-246 | the scan's reply: SecurityCleanIff and SecurityIssuesShowStdout |
| Server.SecurityReply | terraform-mcp-server.py:227-246 | the install hint when tfsec is missing; a non-zero scan gives "Security issues detected:" and stdout, or `str(e)` when stdout is empty; other exceptions escape |
| Server.DriftReply | terraform-mcp-server.py:249-265 | exit status 0 gives exactly "No drift detected. …", 2 gives the drift header followed by stdout, any other status gives "Error checking for drift: " followed by stderr, and a run that cannot start escapes with its exception, since only `CalledProcessError` is caught |
| Server.ExplainReply | terraform-mcp-server.py:269-280 | `terraform show`'s output under the configuration header, or "Error showing configuration: " and the detail; other exceptions escape |
| Server.ApplyReply | terraform-mcp-server.py:285-296 | the apply output under its success header, or "Error during terraform apply: " and the detail; other exceptions escape |
| Server.DestroyReply | terraform-mcp-server.py:300-311 | the destroy output under its success header, or "Error during terraform destroy: " and the detail; other exceptions escape |
| Server.PassthroughReply | terraform-mcp-server.py:314-337 | a shlex error escapes; no tokens gives the "couldn't determine" message; otherwise "Command output:" and stdout, or the error detail followed by the usage hint |
| Server.MissingToolIgnoresRun | terraform-mcp-server.py:206-234 | when infracost or tfsec is missing, the reply is the install hint whatever the command would have done |
| Server.SecurityCleanIff | terraform-mcp-server.py:243-244 | a clean scan reports "No security issues found in the configuration." exactly when its stripped stdout is empty, and the results otherwise |
| Server.SecurityIssuesShowStdout | terraform-mcp-server.py:245-246 | a scan that exits non-zero with output shows that output under "Security issues detected:" |
| Server.DriftReplyDecodes | terraform-mcp-server.py:259-264 | exit status 0 gives "No drift detected", 2 gives the drift header, and any other status gives the drift error, each in both directions |
| Server.DriftShowsPlanOutput | terraform-mcp-server.py:261-262 | on drift, the plan's stdout follows the header unchanged |
| Server.Answer | terraform-mcp-server.py:152-337 | the reply of the branch the query selects: PlanAndStateRaise and TerraformAloneAnswer |
| Server.PlanAndStateRaise | terraform-mcp-server.py:155-204 | the plan and state branches escape with `TypeError("bufsize must be an integer")` whatever the commands would do, because a string lands in `subprocess.run`'s `bufsize` and only `CalledProcessError` is caught |
| Server.PassthroughArgv | terraform-mcp-server.py:321-322 | the passthrough runs `terraform` followed by the tokens |
| Server.PassthroughCommand | terraform-mcp-server.py:318-322 | a command is started exactly when shlex gives some tokens, and it is `terraform` followed by them |
| Server.PassthroughRunsOnlyItsCommand | terraform-mcp-server.py:318-337 | without a started command the reply does not depend on the run; with one it is the report of that run |
| Server.NoTokensUnrecognised | terraform-mcp-server.py:319-320 | with no tokens the reply is the "couldn't determine" message, whatever the command would have done |
| Server.PassthroughFailureHints | terraform-mcp-server.py:330-336 | a failed passthrough shows the error detail and ends with the usage hint |
| Server.TerraformAloneAnswer | terraform-mcp-server.py:317-320 | the reply to "Terraform" is the "couldn't determine" message |
| Scrapers.Bullets | terraform-mcp-server.py:368 | one "- name" row per name, in order |
| Scrapers.Listing | terraform-mcp-server.py:366-368 | the "none" text for no names, otherwise the header and the rows: ListingLines reads it back |
| Scrapers.ListingLines | terraform-mcp-server.py:368 | a listing reads back, line by line, as its title and one row per name |
| Scrapers.SplitOfJoin | terraform-mcp-server.py:368 | joining pieces without the separator and splitting again gives the pieces |
| Scrapers.ModuleOfAddress | terraform-mcp-server.py:363-365 | "module.NAME" alone or followed by ".rest" contributes NAME |
| Scrapers.ModuleOf | terraform-mcp-server.py:362-365 | the module a state line names: ModuleOfAddress and ModuleOfShape |
| Scrapers.ModuleOfShape | terraform-mcp-server.py:362-365 | a line that contributes a name starts with "module." followed by that name, which has no dot (ModuleOfAddress gives the converse) |
| Scrapers.ModuleSetMembers | terraform-mcp-server.py:361-365 | a name is a module exactly when some state line contributes it |
| Scrapers.ModuleSet | terraform-mcp-server.py:360-365 | the module names of the lines: ModuleSetMembers |
| Scrapers.CollectModules | terraform-mcp-server.py:360-365 | the loop over the lines builds exactly the set of module names |
| Scrapers.ListModules | terraform-mcp-server.py:341-370 | the names are strictly increasing and are exactly the modules of the stripped state lines, under the header or with the "no modules" text; a failure gives the error message; other exceptions escape |
| Scrapers.SkipSpace | terraform-mcp-server.py:388 | `\s*`-style scan: stops at the first non-whitespace character |
| Scrapers.SkipName | terraform-mcp-server.py:388 | `[^"]*`-style scan: stops at the first quote |
| Scrapers.DeclAt | terraform-mcp-server.py:388 | a declaration found at a position ends after it and has a non-empty name without quotes |
| Scrapers.DeclAtSpan | terraform-mcp-server.py:388 | every text shaped `kw\s+"name"\s+{` at a position is found there, with that name |
| Scrapers.DeclAtHasSpan | terraform-mcp-server.py:388 | everything found has that shape |
| Scrapers.Decls | terraform-mcp-server.py:392 | every captured name is non-empty and has no quote |
| Scrapers.ConsoleValues | terraform-mcp-server.py:396-412 | the `values` dict after the console loop, or the first escaping exception: ConsoleValuesHas, ConsoleValuesLastAnswer, ConsoleValuesOkIff, ConsoleValuesFirstCrash and ConsoleErrorPersists |
| Scrapers.ConsoleValuesHas | terraform-mcp-server.py:409-410 | a variable has a value exactly when one of its console runs exited with 0 |
| Scrapers.ConsoleValuesLastAnswer | terraform-mcp-server.py:409-410 | the value is the stripped answer of the last successful run for that name |
| Scrapers.ConsoleValuesOkIff | terraform-mcp-server.py:397-418 | the loop finishes exactly when no run raises an exception other than a timeout |
| Scrapers.ConsoleValuesFirstCrash | terraform-mcp-server.py:417-418 | the reported error is the message of the first run that raised |
| Scrapers.ConsoleErrorPersists | terraform-mcp-server.py:417-418 | once the loop has stopped, later runs change nothing |
| Scrapers.RowsLines | terraform-mcp-server.py:414-415 | the rows read back line by line as one "- v = value" or "- v" line per occurrence |
| Scrapers.VariablesReportLines | terraform-mcp-server.py:413-416 | the report is its title line, then one row per occurrence in sorted order (a permutation of the declarations, duplicates kept), then the empty piece after the final newline |
| Scrapers.VariablesIn | terraform-mcp-server.py:389-392 | the declared variable names in file order, duplicates kept: CollectVariables computes it |
| Scrapers.CollectVariables | terraform-mcp-server.py:387-392 | the file loop collects the declared names in file order |
| Scrapers.AskConsole | terraform-mcp-server.py:396-412 | the console loop computes the values, or stops at the first exception |
| Scrapers.AppendRows | terraform-mcp-server.py:414-415 | the output loop appends one row per sorted name |
| Scrapers.VariablesReport | terraform-mcp-server.py:384-416 | the text of the variables resource: VariablesReportLines |
| Scrapers.GetVariables | terraform-mcp-server.py:374-418 | no files, no variables, an escaped exception, or the title and rows |
| Scrapers.ProviderSet | terraform-mcp-server.py:485-490 | the declared provider names: ProviderSetMembers |
| Scrapers.ProviderSetMembers | terraform-mcp-server.py:487-490 | a name is a provider exactly when some file declares it |
| Scrapers.CollectProviders | terraform-mcp-server.py:485-490 | the file loop builds exactly the set of declared providers |
| Scrapers.GetProviders | terraform-mcp-server.py:457-495 | the `terraform providers` output under its header, or "No provider information available." when it is blank; on a failure, the fallback: no files, or the declared providers each once in increasing order (or "No providers found"); other exceptions escape |
| Config.Getenv | src/config.py:11 | `os.getenv` gives the value exactly when the variable is set |
| Config.ProjectRoot | src/config.py:11-14 | EmptyProjectRootIsUnset and ProjectRootNonEmpty |
| Config.Workspace | src/config.py:19-39 | the fallback chain: WorkspaceFromEnvironment, SampleDirectoryChosen, SampleFileSkipped, FirstMainTfWins and WorkspaceFallsBackToRoot |
| Config.LogDir | src/config.py:41 | EmptyLogDirIsKept |
| Config.Load | src/config.py:11-41 | PROJECT_ROOT is the given value or the install directory, and the workspace and log directory are resolved against that root |
| Config.EmptyProjectRootIsUnset | src/config.py:11-14 | an empty PROJECT_ROOT behaves as an unset one and falls back to the install directory |
| Config.ProjectRootNonEmpty | src/config.py:11-14 | the root is never empty when the install directory is not |
| Config.WorkspaceFromEnvironment | src/config.py:19-22 | a non-empty TERRAFORM_WORKSPACE decides the workspace, whatever the filesystem and the root |
| Config.EmptyWorkspaceIsUnset | src/config.py:20 | an empty TERRAFORM_WORKSPACE behaves as an unset one |
| Config.SampleDirectoryChosen | src/config.py:25-28 | with no workspace given, an existing examples/sample_terraform directory is the workspace |
| Config.SampleFileSkipped | src/config.py:26-31 | a plain file at examples/sample_terraform is treated as absent, and the main.tf search runs |
| Config.FirstMainTfWins | src/config.py:31-35 | otherwise the directory of the first main.tf found is the workspace, whatever comes later |
| Config.ParentOfJoin | src/config.py:34 | the parent of dir/name, for a name without "/", is dir |
| Config.WorkspaceFallsBackToRoot | src/config.py:36-39 | with nothing given and nothing found, the workspace is the root |
| Config.EmptyLogDirIsKept | src/config.py:41 | an empty LOG_DIR is kept as the empty string, unlike an unset one, which gives root/logs |

## Left out

- Running commands: terraform, dot, infracost, tfsec, echo and `terraform console` are not run. Their outcomes are inputs: an `Outcome`, an `Exit` or a `ConsoleRun`.
- The probe logic of `check_tool_installed` (`shutil.which`, `where`, `--version`) is left out. The handler receives its verdict as an input (src/handlers/utils.py:65-104).
- Filesystem access is an input made of facts: `exists`, `is_dir`, `glob`, file contents, `os.makedirs`, `load_dotenv`. A file that cannot be read is not modelled.
- Paths are plain strings joined with a separator. There is no pathlib normalisation, `absolute()` or symlink resolution.
  - The install directory two levels above config.py is an input.
- The MCP/FastMCP plumbing is left out: decorators, `mcp.run`, `help_prompt`, the `test` tools, the import fallbacks and `sys.exit`.
- The stderr log prints are left out.
- `get_terraform_outputs` (terraform-mcp-server.py:421-454) is left out, because it is JSON decoding and encoding done by a library.
- `shlex.split` is an input (`Tokens`). Quoting rules are not modelled, and neither is the link between the tokens and the remainder.
- The plan and state branches of the script's dispatcher raise `TypeError` before any command runs, and the model says only that. `"terraform" "graph"` concatenates to one word, and the next string lands in `subprocess.run`'s `bufsize`, which `Popen` checks first. So the graph command, the state listing and line 201's undefined `output` are never reached, and they are not modelled.
- The fixed argument vectors of the cost, security, drift, explain, apply and destroy commands are not checked.
- The provider fallback's nested failure message (terraform-mcp-server.py:494-495) is left out, because file reads cannot fail in the model.
- Scrapers.GetVariables: the 2-second timeout is a `TimedOut` input, and a `CalledProcessError` cannot arise because the console runs without `check=True`.
- Scrapers.ListingLines and Scrapers.VariablesReportLines read listings back only when no name or value contains a newline. The declaration pattern itself allows newlines in names.
- Handler.CommonPathsSpelled: spells out a candidate only when its variable is unset, or set to a non-empty value that does not end in the separator. Other values still go through the same join, but the lemma does not spell them out.
- Python's Unicode-aware `lower()`, `strip()` and `\s` are approximated by ASCII case folding and ASCII whitespace.
- `sorted` on strings is modelled as lexicographic order on characters, the same as Python's code-point order.
