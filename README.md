# cliparse core, modelled in Dafny

cliparse is a small Python library for command-line scripts. This project models its core:

- **Script registry.** A name-to-metadata map with Python dict semantics. The last registration under a name wins, and names are listed in the order they were first registered. The `register_script` decorator fills in a missing description from the parser its factory builds.
- **Argument filter.** The coordinator gives each script of a batch only the flags that script declares. It keeps positionals, `--flag=value` tokens whose flag part is supported, and supported bare flags. A bare flag followed by a token that does not start with `-` takes that token as its value, and the two are kept or dropped together.
- **Batch run.** The coordinator runs a batch: one `ExecutionResult` per requested name. Each result records success, or why the script failed: not registered, factory raised, usage exit, or parser raised. `BatchResults` counts the results and renders a summary text.
- **Standard-flag catalog of `BaseParser`.** A fixed four-entry table (`-R/--recursive`, `-n/--dry-run`, `-y/--yes`, `-v/--verbose`). A parser is built with a selection of catalog names that defaults to all four. A selection is rejected at its first unknown name, and also at its first repeated name, because the option engine refuses the same option strings twice.

Files and modules:

| file | module | models |
|---|---|---|
| `wrappers.dfy` | `Wrappers` | `Option` and `Result` |
| `text.dfy` | `Text` | the string operations the source relies on: `startswith('-')`, `split('=')[0]`, `"\n".join`, `str(int)`, `in` on strings |
| `argfilter.dfy` | `ArgFilter` | `filter_args_for_script` as a function on token lists, and its properties |
| `registry.dfy` | `Registry` | `ScriptMetadata`, `ScriptRegistry` (a class holding the map and its key order) and `register_script` |
| `results.dfy` | `Results` | `ExecutionResult`, `BatchResults` and the summary text |
| `coordinator.dfy` | `Coordination` | the `Coordinator` class: the filtering loop, single and batch runs, listing |
| `parser.dfy` | `Parser` | `STANDARD_FLAGS`, flag selection, `_add_standard_flags`, `get_standard_flags` |
| `scenarios.dfy` | `Scenarios` | the repository's own tests, stated and proved over the model |

Modelling choices:

- **Parser factories.** A parser factory is data. It has a name and says what calling it does: `Builds(description)` returns a parser with that description, and `Raises(message)` raises.
- **Parsing.** How a built parser parses a token list comes from the option engine, which is not modelled. It is an oracle parameter `parse` returning `Parsed`, `UsageExit(code)` or `Raised(message)`.
- **The registry.** The source keeps the registry in a class-level singleton. Here it is an ordinary `ScriptRegistry` object, and the `Coordinator` is constructed over it.
  - Its state is the map `scripts` and the key order `order`.
  - A ghost `history` holds the registrations since the last clear.
  - `Valid()` ties the state to the history: `scripts == LastWrite(history)` and `order == FirstOccurrences(Names(history))`.
- **`BaseParser` construction.** Construction can fail, because `__init__` raises `ValueError` or the engine raises on conflicting option strings. It is therefore the static method `BaseParser.New`, which returns a `Result`. The parser's `options` field holds the option strings registered by the standard-flag step, in order.
- **Loops.** The loops of the source are methods with loop invariants: the filtering loop, the run loop, the summary's failure loop and the flag-adding loop. Each is proved equal to a specification function: `FilterArgs`, `ExpectedBatch`, `SummaryLines` or `Validate`/`TokensInOrder`.

Where the code and its own comments disagree, the model follows the code:

- **Positionals after an unsupported bare flag.** The docstring of `filter_args_for_script` says it "only passes flags that the script declares it supports" (`src/cliparse/registry.py:231`), and the comment on its last branch says positionals are always included (`src/cliparse/registry.py:272`). The code drops a positional that directly follows an unsupported bare flag, because it takes that positional for the flag's value (`src/cliparse/registry.py:267-270`). `ArgFilter.UnsupportedFlagSwallowsPositional` shows this on `["--quiet", "file.txt"]`. `ArgFilter.PositionalKept` states what does hold: a positional that is not consumed as a value is always kept.
- **The recursive flag's short form.** The class docstring lists `-r`, but the table says `-R`. The model follows the table.

## Model

| member | source | states |
|---|---|---|
| ArgFilter.FlagKey | src/cliparse/registry.py:255-256 | the key a flag token is looked up under is a prefix of the token with no `=`; a token without `=` is its own key |
| ArgFilter.FilterStep | src/cliparse/registry.py:247-273 | the filtered list is what the first step keeps (a positional; a supported flag, together with its value when one follows a bare flag; or nothing) followed by the filter of what remains after the one or two tokens that step consumes |
| ArgFilter.Keep | src/cliparse/registry.py:253-273 | each unit of the token list (a positional, an inline `--flag=value`, a bare flag alone or a bare flag with its value) is kept whole or dropped whole, and a positional always survives |
| ArgFilter.SegmentSound | src/cliparse/registry.py:247-273 | the pass cuts the token list into units whose concatenation is the list, each unit well formed, with every bare flag followed by a dash token or the end taking no value |
| ArgFilter.SegmentUnique | src/cliparse/registry.py:247-273 | that cutting is unique: any list of well-formed, greedy units that concatenates to the input is the pass's own |
| ArgFilter.FilterByUnits | src/cliparse/registry.py:247-275 | the filter's output is the concatenation of the kept units, in input order |
| ArgFilter.PositionalKept | src/cliparse/registry.py:271-273 | a positional that the pass does not consume as a flag's value is in the output, whatever the supported set |
| ArgFilter.FilterArgs | src/cliparse/registry.py:244-275 | the filter itself, as a function on token lists; its properties are the lemmas in the rows around this one |
| ArgFilter.FilterInventsNothing | src/cliparse/registry.py:244-275 | every token passed on was in the input |
| ArgFilter.FilterIsSubsequence | src/cliparse/registry.py:244-275 | the output is an order-preserving subsequence of the input, and never longer than it |
| ArgFilter.FilterNoLeak | src/cliparse/registry.py:253-270 | every `-` token of the output is a flag whose key is supported |
| ArgFilter.FilterPassesSupported | src/cliparse/registry.py:253-266 | every `-` token of the input whose key is supported reaches the output; a `-` token is never taken for a value |
| ArgFilter.FlagTokenKeptIff | src/cliparse/registry.py:253-270 | a `-` token of the input is in the output if and only if its key is supported |
| ArgFilter.FilterMonotone | src/cliparse/registry.py:247-275 | supporting more flags never removes a token: the output for a smaller set is a subsequence of the output for a larger one |
| ArgFilter.FilterAllSupported | src/cliparse/registry.py:247-275 | when every `-` token's key is supported, the list passes through unchanged |
| ArgFilter.FilterIdempotent | src/cliparse/registry.py:247-275 | filtering an already filtered list changes nothing |
| ArgFilter.FilterSplit | src/cliparse/registry.py:247-275 | filtering distributes over concatenation at any cut that does not separate a bare flag from its value; so an inline `--flag=value` never affects the token after it |
| ArgFilter.UnsupportedFlagSwallowsPositional | src/cliparse/registry.py:267-270 | an unsupported bare flag drops the positional after it, while a script supporting it gets both |
| Coordination.FilterTokens | src/cliparse/registry.py:244-275 | the `skip_next` loop computes exactly `FilterArgs` of the script's supported set |
| Coordination.FilterToken | src/cliparse/registry.py:248-273 | one iteration of that loop: what it appends, and that it sets `skip_next` exactly when a bare flag takes the next token as its value |
| Coordination.ExpectedResult | src/cliparse/registry.py:303-348 | the result for one name always carries that name. An unregistered name gives exit code 1 and "Script not found: name". A factory that raises gives exit code 1 and its message. A usage exit with code c gives exit code c and "Argument parsing failed". A parser that raises gives exit code 1 and its message. A success has exit code 0 and no message, and a failure always has a message. Success holds iff the name is registered, its factory builds a parser, and that parser accepts the filtered arguments |
| Coordination.ExpectedBatch | src/cliparse/registry.py:295-301 | a batch has one result per requested name, in request order |
| Coordination.BatchSucceedsIff | src/cliparse/registry.py:143-146 | a batch succeeds iff every name is registered, builds and parses; and iff its failed count is zero |
| Coordination.UnknownNameFails | src/cliparse/registry.py:311-317 | an unregistered name in a batch makes it fail, with a positive failed count and the not-found message at that position |
| Coordination.Coordinator.constructor | src/cliparse/registry.py:181-182 | the coordinator works over the given registry |
| Coordination.Coordinator.FilterArgsForScript | src/cliparse/registry.py:223-275 | an unregistered name fails with "Unknown script: name" before any token is looked at; a registered one gets `FilterArgs` of its supported set |
| Coordination.Coordinator.RunSingleScript | src/cliparse/registry.py:303-348 | the result recorded for one script is `ExpectedResult` |
| Coordination.Coordinator.Run | src/cliparse/registry.py:277-301 | the run loop returns exactly `ExpectedBatch`: one result per name, in order |
| Coordination.Coordinator.ListScripts | src/cliparse/registry.py:350-352 | the listed names are the registered ones, distinct, in first-registration order |
| Coordination.Coordinator.GetScriptInfo | src/cliparse/registry.py:354-356 | a name has metadata iff it was registered since the last clear, and that metadata is its latest registration |
| Registry.ScriptMetadata.SupportsFlag | src/cliparse/registry.py:20-22 | membership in the supported set; `Scenarios.RegistrationScenario` shows it holds exactly for the registered flags |
| Registry.ResolvedDescription | src/cliparse/registry.py:111-114 | the given description, else the parser's description when it is not empty, else the name; its properties are in `Registry.RegisterScript` |
| Registry.SetOf | src/cliparse/registry.py:60 | `set(supported_flags)` has exactly the listed flags |
| Registry.FirstOccurrences | src/cliparse/registry.py:69-72 | the dict's key list holds each registered name once, and no other |
| Registry.FirstOccurrencesOrdered | src/cliparse/registry.py:69-72 | the keys are in the order the names first occur in the history |
| Registry.LastWrite | src/cliparse/registry.py:62 | the map after a history of registrations has exactly the registered names as keys |
| Registry.LastWriteWins | src/cliparse/registry.py:62 | a name is bound to a registration that no later registration of that name overwrote |
| Registry.LastWriteIsLatest | src/cliparse/registry.py:62-67 | the entry a name is bound to carries that name and is its latest registration |
| Registry.ScriptRegistry.constructor | src/cliparse/registry.py:31-37 | a fresh registry is empty |
| Registry.ScriptRegistry.Register | src/cliparse/registry.py:40-62 | registering stores `set(flags)` under the name, replacing any earlier entry; a new name goes to the end of the key order and a known one keeps its place |
| Registry.ScriptRegistry.Get | src/cliparse/registry.py:64-67 | a name has an entry iff it was registered since the last clear; the entry carries the name and is its latest registration |
| Registry.ScriptRegistry.ListAll | src/cliparse/registry.py:69-72 | the names, each once, in first-registration order |
| Registry.ScriptRegistry.GetAll | src/cliparse/registry.py:74-77 | the copy has exactly the listed names as keys, each bound as `Get` reports |
| Registry.ScriptRegistry.Clear | src/cliparse/registry.py:79-82 | after a clear nothing is listed and every lookup is absent |
| Registry.RegisterScript | src/cliparse/registry.py:85-126 | registration succeeds unless no description is given and the factory raises; on success the factory is returned unchanged and the entry is stored, with the given description, else the parser's non-empty description, else the name; on failure the registry is unchanged |
| Results.HeaderLine | src/cliparse/registry.py:164 | the header is a single line |
| Results.FailureLines | src/cliparse/registry.py:169-171 | one line per failed result, in order, each naming the script and its message |
| Results.BatchResults.AllSuccess | src/cliparse/registry.py:143-146 | every result succeeded; `Results.AllSuccessIff` relates it to the counts |
| Results.BatchResults.FailedCount | src/cliparse/registry.py:148-151 | the number of failed results; `Results.CountsPartition` and `Results.NoFailuresIffAllSucceeded` state its properties |
| Results.BatchResults.SuccessCount | src/cliparse/registry.py:153-156 | the number of successful results; `Results.CountsPartition` states that it and the failed count add up to the total |
| Results.BatchResults.SummaryLines | src/cliparse/registry.py:164-171 | the summary's lines; `Results.SummaryLinesShape` states their shape |
| Results.BatchResults.Summary | src/cliparse/registry.py:158-173 | the loop-built summary is the summary lines joined by newlines |
| Results.SummaryLinesShape | src/cliparse/registry.py:158-173 | the header with the total, then the success count; and only when something failed, the failed count followed by one line per failure in batch order |
| Results.SummaryFirstLine | src/cliparse/registry.py:164-173 | the first line of the summary text is "Executed N script(s):", whatever the names and messages contain |
| Results.CountsPartition | src/cliparse/registry.py:148-156 | success count plus failed count is the number of results |
| Results.FailuresAreFailedResults | src/cliparse/registry.py:169-171 | the failures listed are exactly the failed results, in batch order |
| Results.NoFailuresIffAllSucceeded | src/cliparse/registry.py:143-151 | there is no failure iff every result succeeded |
| Results.AllSuccessIff | src/cliparse/registry.py:143-156 | `all_success` iff `failed_count == 0` iff `success_count == len(results)` |
| Text.BeforeFirst | src/cliparse/registry.py:256 | `split('=')[0]`: the longest prefix without the character, which is the whole string when the character is absent |
| Text.NatToStringRoundTrip | src/cliparse/registry.py:164-168 | the decimal rendering of a count is digits and reads back as the count |
| Text.SplitJoin | src/cliparse/registry.py:173 | joining lines that contain no newline and splitting again gives back the lines |
| Parser.KeysMatchTable | src/cliparse/parser.py:37-58 | the catalog's keys are its entries' names, in table order |
| Parser.CatalogShape | src/cliparse/parser.py:37-58 | every entry is a `store_true` switch with exactly two literals, and the eight literals are pairwise distinct |
| Parser.TokenOwner | src/cliparse/parser.py:37-58 | a literal belongs to at most one standard flag |
| Parser.Lookup | src/cliparse/parser.py:84-90 | `STANDARD_FLAGS[name]` exists iff the name is in the catalog, and is the entry of that name |
| Parser.LookupEntry | src/cliparse/parser.py:90 | looking up an entry's key finds that entry and its two literals |
| Parser.SelectedNames | src/cliparse/parser.py:68-70 | the selection in effect: the given list, or all catalog names; `Parser.DefaultSelection` states the default |
| Parser.Validate | src/cliparse/parser.py:81-93 | the first error the flag-adding loop meets, if any; `Parser.ValidateFirstFailure` characterises it |
| Parser.ErrorMessage | src/cliparse/parser.py:85-88 | the error text; `Parser.UnknownFlagMessage` states what it contains for an unknown flag |
| Parser.DefaultSelection | src/cliparse/parser.py:68-70 | without a selection the parser gets `["recursive", "dry-run", "yes", "verbose"]`, in table order, which is accepted |
| Parser.UnknownFlagMessage | src/cliparse/parser.py:85-88 | the error text starts "Unknown standard flag: name" and offers every catalog name, quoted |
| Parser.AvailableOffersAll | src/cliparse/parser.py:87 | the printed key list contains every catalog name, quoted |
| Parser.ValidateFirstFailure | src/cliparse/parser.py:81-93 | a selection is accepted iff every name is in the catalog and none repeats; a rejected one fails at its first offending position |
| Parser.StandardTokens | src/cliparse/parser.py:81-93 | the standard literals a configured parser accepts are the union of the selected entries' literals; an empty selection gives none |
| Parser.TokensInOrderMembers | src/cliparse/parser.py:91-93 | the registered option strings are exactly the selected entries' literals |
| Parser.ConflictIffRepeated | src/cliparse/parser.py:83-93 | among catalog names, a flag's literals are already registered iff the flag was already added |
| Parser.BaseParser.Init | src/cliparse/parser.py:73 | the bare option engine has no standard options yet |
| Parser.BaseParser.AddStandardFlags | src/cliparse/parser.py:81-93 | the loop stops with the error `Validate` predicts; on success the parser has all selected literals registered, in selection order |
| Parser.BaseParser.New | src/cliparse/parser.py:60-79 | construction fails iff the selection (all catalog names when absent) is rejected, with that error; otherwise the parser keeps the description and the selection and is valid |
| Parser.BaseParser.Configure | src/cliparse/parser.py:72-79 | the same, for a settled selection: add its flags, then record it |
| Parser.BaseParser.GetStandardFlags | src/cliparse/parser.py:95-97 | the recorded selection, unchanged: catalog names, none repeated, whose literals are exactly the parser's standard options |
| Scenarios.FilterScenario | tests/test_registry.py:62-82 | with `{-v, --verbose, --custom}`, `["file.txt","-v","--custom","42","--unsupported","value"]` becomes `["file.txt","-v","--custom","42"]` |
| Scenarios.BatchFilterScenarioA | tests/test_registry.py:85-110 | script A (`-v`) gets `["file.txt","-v"]` |
| Scenarios.BatchFilterScenarioB | tests/test_registry.py:85-110 | script B (`--custom`) gets `["file.txt","--custom","value"]` |
| Scenarios.BatchScenarioResults | tests/test_registry.py:85-110 | in that registry both scripts succeed when their parsers accept those lists |
| Scenarios.RunScenario | tests/test_registry.py:85-110 | the batch run yields two results, all successful, with two successes and no failure |
| Scenarios.SummaryScenario | tests/test_registry.py:113-127 | the summary of one success and one failure is exactly the header "Executed 2 script(s):", the success line with 1, the failed line with 1 and the line "    - script-b: Failed to parse", which holds every substring the test looks for |
| Scenarios.UnknownScriptScenario | tests/test_registry.py:130-138 | a batch of one unregistered name fails once, with a message containing "not found" |
| Scenarios.RegistrationScenario | tests/test_registry.py:22-41 | an explicit description and the supported set are stored under the name |
| Scenarios.ListingScenario | tests/test_registry.py:44-59 | two registrations without descriptions are listed in registration order, each with the description its parser was built with |
| Scenarios.SelectionTokens | tests/test_parser.py:19-30 | the selection `verbose, dry-run` registers `-v --verbose -n --dry-run`, so no `-R` |
| Scenarios.SelectiveParserScenario | tests/test_parser.py:67-75 | the parser built with `verbose, dry-run` reports that selection |
| Scenarios.EmptySelection | tests/test_parser.py:44-55 | an empty selection is accepted and adds no standard option |
| Scenarios.InvalidFlagRejected | tests/test_parser.py:58-64 | `invalid_flag` is rejected as unknown, with a message containing "Unknown standard flag" |

## Left out

- **The option engine (argparse):**
  - Not modelled: `parse_args` and its `SystemExit` re-raise, help and usage text, the automatic `-h/--help`, `nargs`, `choices` and type conversion. These are a library outside the core.
  - Parsing is the oracle parameter `parse`. The engine's conflicting-option-strings message is rendered in its usual form, but that is not derived from the engine.
- **Script loading:** `Coordinator.load_scripts` and `load_scripts_from_directory` are left out. They use dynamic imports, `sys.path` changes, filesystem globbing and warnings on stderr.
- **`Coordinator.run`'s default arguments:** the default of `sys.argv[1:]` is process environment, so the arguments are always an explicit parameter.
- **The registry singleton:** `__new__` and the class-level `_scripts` are left out. The registry is an explicit object, passed to the coordinator.
- **`ScriptMetadata.module_path`:** always `None`, because the source never sets it.
- **A factory that raises `SystemExit`:** its exit code is not modelled. A factory that raises is modelled as raising an ordinary exception, whose message becomes the error message with exit code 1.
- **`ExecutionResult.exit_code`:** an unbounded integer. A `SystemExit` code that is not an integer is not modelled.
- Parser.BaseParser.GetStandardFlags: does not model aliasing. The source stores the caller's list object itself (`src/cliparse/parser.py:79`) and copies it only when reporting it (`src/cliparse/parser.py:97`), so a caller that changes the list after construction sees the change in `get_standard_flags()`, while the registered options stay as they were. The model stores the selection as a value and always reports the selection made at construction.
- **`BaseParser`'s extra arguments:** the `epilog` and `**kwargs` passed through to the engine are left out. `create_parser` forwards to the constructor and is not modelled separately.
- **The summary's check marks** are the characters U+2713 and U+2717. The text is modelled as a sequence of characters, not as encoded bytes.
- **Other modules:** `formatting.py`, `logging.py`, `errors.py`, `__init__.py` and the example scripts are not part of this model. They are console rendering, logging setup, exit-code constants, re-exports and command-line glue.
