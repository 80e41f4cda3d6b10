/** The behaviours the project's own tests check, stated over the model. */
module Scenarios {
  import opened Wrappers
  import opened Text
  import opened ArgFilter
  import opened Parser
  import opened Registry
  import opened Results
  import opened Coordination

  /** The flags the script of the filtering test declares. */
  const TestFlags: set<string> := {"-v", "--verbose", "--custom"}

  lemma UnsupportedPairDropped()
    ensures FilterArgs(TestFlags, ["--unsupported", "value"]) == []
  {
    var args := ["--unsupported", "value"];
    assert |args[0]| == 13;
    assert args[0] !in TestFlags;
    assert IsBareFlag(args[0]) && !StartsWithDash(args[1]);
    FilterStep(TestFlags, args);
    assert args[2..] == [];
  }

  lemma FilterScenarioTail()
    ensures FilterArgs(TestFlags, ["--custom", "42", "--unsupported", "value"]) == ["--custom", "42"]
  {
    var args := ["--custom", "42", "--unsupported", "value"];
    assert args[0] in TestFlags && IsBareFlag(args[0]) && !StartsWithDash(args[1]);
    FilterStep(TestFlags, args);
    assert args[2..] == ["--unsupported", "value"];
    UnsupportedPairDropped();
  }

  /** The filtering test: supported flags and the positional survive, an
      unsupported flag and its value do not. */
  lemma FilterScenario()
    ensures FilterArgs(TestFlags, ["file.txt", "-v", "--custom", "42", "--unsupported", "value"])
            == ["file.txt", "-v", "--custom", "42"]
  {
    var args := ["file.txt", "-v", "--custom", "42", "--unsupported", "value"];
    assert !StartsWithDash(args[0]);
    FilterStep(TestFlags, args);
    var rest := args[1..];
    assert rest == ["-v", "--custom", "42", "--unsupported", "value"];
    assert rest[0] in TestFlags && IsBareFlag(rest[0]) && StartsWithDash(rest[1]);
    FilterStep(TestFlags, rest);
    assert rest[1..] == ["--custom", "42", "--unsupported", "value"];
    FilterScenarioTail();
  }

  /** The batch test: the first script, declaring `-v`, loses `--custom`
      and its value. */
  lemma BatchFilterScenarioA()
    ensures FilterArgs({"-v"}, ["file.txt", "-v", "--custom", "value"]) == ["file.txt", "-v"]
  {
    var s := {"-v"};
    var args := ["file.txt", "-v", "--custom", "value"];
    assert !StartsWithDash(args[0]);
    FilterStep(s, args);
    var rest := args[1..];
    assert rest == ["-v", "--custom", "value"];
    assert rest[0] in s && IsBareFlag(rest[0]) && StartsWithDash(rest[1]);
    FilterStep(s, rest);
    var last := rest[1..];
    assert last == ["--custom", "value"];
    assert |last[0]| == 8 && last[0] !in s && IsBareFlag(last[0]) && !StartsWithDash(last[1]);
    FilterStep(s, last);
    assert last[2..] == [];
  }

  /** The batch test: the second script, declaring `--custom`, loses `-v`
      only. */
  lemma BatchFilterScenarioB()
    ensures FilterArgs({"--custom"}, ["file.txt", "-v", "--custom", "value"]) == ["file.txt", "--custom", "value"]
  {
    var s := {"--custom"};
    var args := ["file.txt", "-v", "--custom", "value"];
    assert !StartsWithDash(args[0]);
    FilterStep(s, args);
    var rest := args[1..];
    assert rest == ["-v", "--custom", "value"];
    assert |rest[0]| == 2 && rest[0] !in s && IsBareFlag(rest[0]) && StartsWithDash(rest[1]);
    FilterStep(s, rest);
    var last := rest[1..];
    assert last == ["--custom", "value"];
    assert last[0] in s && IsBareFlag(last[0]) && !StartsWithDash(last[1]);
    FilterStep(s, last);
    assert last[2..] == [];
  }

  const SummaryBatch: seq<ExecutionResult> := [
    ExecutionResult("script-a", true, 0, None),
    ExecutionResult("script-b", false, 0, Some("Failed to parse"))
  ]

  lemma SummaryScenarioCounts()
    ensures Failures(SummaryBatch) == [SummaryBatch[1]]
    ensures BatchResults(SummaryBatch).SuccessCount() == 1 && BatchResults(SummaryBatch).FailedCount() == 1
  {
    assert SummaryBatch[..1] == [SummaryBatch[0]];
    assert Successes(SummaryBatch) == [SummaryBatch[0]];
  }

  lemma HeaderScenario()
    ensures HeaderLine(2) == "Executed 2 script(s):"
  {
    assert NatToString(2) == "2";
  }

  lemma CountLinesScenario()
    ensures SuccessLine(1) == "  \U{2713} Success: 1"
    ensures FailedLine(1) == "  \U{2717} Failed: 1"
  {
    assert NatToString(1) == "1";
  }

  lemma FailureLineScenario()
    ensures FailureLine(SummaryBatch[1]) == "    - script-b: Failed to parse"
  {
  }

  /** The summary test: one success and one failure. */
  lemma SummaryScenario()
    ensures BatchResults(SummaryBatch).SummaryLines()
            == ["Executed 2 script(s):", "  \U{2713} Success: 1", "  \U{2717} Failed: 1", "    - script-b: Failed to parse"]
  {
    SummaryScenarioCounts();
    HeaderScenario();
    CountLinesScenario();
    FailureLineScenario();
    assert FailureLines([SummaryBatch[1]]) == [FailureLine(SummaryBatch[1])];
  }

  /** The unknown-script test, for any name and arguments: on an empty
      registry the batch fails, with one failure whose message says the
      script was not found. */
  method UnknownScriptScenario(name: string, args: seq<string>, parse: ParseOracle) returns (results: BatchResults)
    ensures !results.AllSuccess() && results.FailedCount() == 1
    ensures results.results[0].errorMessage.Some?
    ensures ContainsSubstring(results.results[0].errorMessage.value, "not found")
  {
    var registry := new ScriptRegistry();
    var coordinator := new Coordinator(registry);
    results := coordinator.Run([name], args, parse);
    UnknownNameFails(registry.scripts, [name], args, parse, 0);
    assert results.results == [results.results[0]];
    assert Failures(results.results) == [results.results[0]];
    var message := results.results[0].errorMessage.value;
    assert message == "Script not found: " + name;
    assert "not found" <= message[7..];
  }

  /** The registration test: an explicit description and the supported
      flags are recorded as given, and the factory is handed back. */
  method RegistrationScenario(name: string, description: string, flags: seq<string>, factory: ParserFactory)
    returns (registry: ScriptRegistry)
    ensures registry.Valid()
    ensures registry.Get(name).Some?
    ensures registry.Get(name).value.description == description
    ensures forall f :: registry.Get(name).value.SupportsFlag(f) <==> f in flags
  {
    registry := new ScriptRegistry();
    var r := RegisterScript(registry, name, Some(description), Some(flags), factory);
    LastWriteWins(registry.history, 0);
  }

  /** The listing test: descriptions left out are taken from the parsers,
      and two names are listed in registration order. */
  method ListingScenario(a: string, b: string, descriptionA: string, descriptionB: string)
    returns (registry: ScriptRegistry)
    requires a != b && descriptionA != "" && descriptionB != ""
    ensures registry.Valid()
    ensures registry.ListAll() == [a, b]
    ensures registry.Get(a).Some? && registry.Get(a).value.description == descriptionA
    ensures registry.Get(b).Some? && registry.Get(b).value.description == descriptionB
  {
    var factoryA := ParserFactory("create_parser_a", Builds(Some(descriptionA)));
    var factoryB := ParserFactory("create_parser_b", Builds(Some(descriptionB)));
    registry := new ScriptRegistry();
    var r := RegisterScript(registry, a, None, Some([]), factoryA);
    assert registry.order == [a] && a in registry.scripts;
    assert registry.scripts[a].description == descriptionA;
    ghost var entryA := registry.scripts[a];
    r := RegisterScript(registry, b, None, Some([]), factoryB);
    ghost var entryB := registry.scripts[b];
    assert entryB.description == descriptionB;
    assert registry.order == [a, b];
    assert registry.scripts[a] == entryA;
    assert registry.ListAll() == registry.order;
    assert registry.Get(a) == Some(entryA);
    assert registry.Get(b) == Some(entryB);
  }

  const FactoryA := ParserFactory("create_parser_a", Builds(Some("Script A")))
  const FactoryB := ParserFactory("create_parser_b", Builds(Some("Script B")))

  /** In the batch test's registry, both scripts succeed on the shared
      arguments when their parsers accept their shares. */
  lemma BatchScenarioResults(scripts: map<string, ScriptMetadata>, a: string, b: string, parse: ParseOracle)
    requires a in scripts && scripts[a].parserFactory == FactoryA && scripts[a].supportedFlags == {"-v"}
    requires b in scripts && scripts[b].parserFactory == FactoryB && scripts[b].supportedFlags == {"--custom"}
    requires parse(FactoryA, ["file.txt", "-v"]).Parsed?
    requires parse(FactoryB, ["file.txt", "--custom", "value"]).Parsed?
    ensures ExpectedResult(scripts, a, ["file.txt", "-v", "--custom", "value"], parse).success
    ensures ExpectedResult(scripts, b, ["file.txt", "-v", "--custom", "value"], parse).success
  {
    BatchFilterScenarioA();
    BatchFilterScenarioB();
  }

  /** The registry of the batch test: the first script declares `-v`, the
      second `--custom`. */
  method BatchRegistry(a: string, b: string) returns (registry: ScriptRegistry)
    requires a != b
    ensures registry.Valid()
    ensures a in registry.scripts && registry.scripts[a].parserFactory == FactoryA
    ensures registry.scripts[a].supportedFlags == {"-v"}
    ensures b in registry.scripts && registry.scripts[b].parserFactory == FactoryB
    ensures registry.scripts[b].supportedFlags == {"--custom"}
  {
    registry := new ScriptRegistry();
    var r := RegisterScript(registry, a, None, Some(["-v"]), FactoryA);
    ghost var entryA := registry.scripts[a];
    r := RegisterScript(registry, b, None, Some(["--custom"]), FactoryB);
    assert registry.scripts[a] == entryA;
    SetOfOne("-v");
    SetOfOne("--custom");
  }

  /** The batch test, for any two distinct names: of the shared arguments,
      the first script (declaring `-v`) and the second (declaring
      `--custom`) each get their own share, and when their parsers accept
      those shares the batch succeeds. */
  method RunScenario(a: string, b: string, parse: ParseOracle) returns (results: BatchResults)
    requires a != b
    requires parse(FactoryA, ["file.txt", "-v"]).Parsed?
    requires parse(FactoryB, ["file.txt", "--custom", "value"]).Parsed?
    ensures |results.results| == 2 && results.AllSuccess()
    ensures results.SuccessCount() == 2 && results.FailedCount() == 0
  {
    var registry := BatchRegistry(a, b);
    BatchScenarioResults(registry.scripts, a, b, parse);
    var coordinator := new Coordinator(registry);
    results := coordinator.Run([a, b], ["file.txt", "-v", "--custom", "value"], parse);
    assert results.results[0].success && results.results[1].success;
    AllSuccessIff(results.results);
  }

  /** The selection of the parser tests is accepted. */
  lemma SelectionAccepted()
    ensures Validate(["verbose", "dry-run"]).None?
  {
    var names := ["verbose", "dry-run"];
    assert names[0][0] != names[1][0];
    assert AllStandard(names) && Distinct(names);
    ValidateFirstFailure(names, 0);
  }

  lemma VerboseTokens()
    ensures FlagTokens("verbose") == ["-v", "--verbose"]
  {
    LookupEntry(3);
  }

  lemma DryRunTokens()
    ensures FlagTokens("dry-run") == ["-n", "--dry-run"]
  {
    LookupEntry(1);
  }

  /** The selection of the parser tests registers its flags' literals in
      selection order. */
  lemma SelectionOrder()
    ensures TokensInOrder(["verbose", "dry-run"]) == FlagTokens("verbose") + FlagTokens("dry-run")
  {
    assert TokenLists(["verbose", "dry-run"]) == [FlagTokens("verbose"), FlagTokens("dry-run")];
    ConcatTwo(FlagTokens("verbose"), FlagTokens("dry-run"));
  }

  lemma SelectionLiterals()
    ensures FlagTokens("verbose") + FlagTokens("dry-run") == ["-v", "--verbose", "-n", "--dry-run"]
  {
    VerboseTokens();
    DryRunTokens();
  }

  /** The selection of the parser tests registers the literals of its two
      flags, in order, and no others. */
  lemma SelectionTokens()
    ensures TokensInOrder(["verbose", "dry-run"]) == ["-v", "--verbose", "-n", "--dry-run"]
  {
    SelectionOrder();
    SelectionLiterals();
  }

  /** The selective-flags test: the parser reports the selection it was
      built with. */
  method SelectiveParserScenario() returns (flags: seq<string>)
    ensures flags == ["verbose", "dry-run"]
  {
    SelectionAccepted();
    var r := BaseParser.New(Some("Test parser"), Some(["verbose", "dry-run"]));
    flags := r.value.GetStandardFlags();
  }

  /** The no-standard-flags test: an empty selection is accepted and adds
      no option strings. */
  lemma EmptySelection()
    ensures Validate(SelectedNames(Some([]))).None?
    ensures TokensInOrder(SelectedNames(Some([]))) == []
  {
  }

  /** The invalid-flag test: a name outside the catalog is rejected as
      unknown, with a message the test recognises. */
  lemma InvalidFlagRejected()
    ensures Validate(["invalid_flag"]) == Some(UnknownStandardFlag("invalid_flag"))
    ensures ContainsSubstring(ErrorMessage(UnknownStandardFlag("invalid_flag")), "Unknown standard flag")
  {
    assert !IsStandardFlag("invalid_flag");
    var message := ErrorMessage(UnknownStandardFlag("invalid_flag"));
    assert "Unknown standard flag" <= message[0..];
  }
}
