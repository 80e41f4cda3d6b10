/** The coordinator: runs a batch of registered scripts, giving each one
    only the flags it declares. */
module Coordination {
  import opened Wrappers
  import opened Text
  import opened ArgFilter
  import opened Registry
  import opened Results

  /** What parsing a token list with a freshly built parser does: return,
      stop with a usage exit (the SystemExit code), or raise. */
  datatype ParseOutcome = Parsed | UsageExit(code: int) | Raised(message: string)

  /** The parsing behaviour of the parsers the factories build. */
  type ParseOracle = (ParserFactory, seq<string>) -> ParseOutcome

  /** The result the coordinator records for one script. */
  function ExpectedResult(scripts: map<string, ScriptMetadata>, name: string, allArgs: seq<string>,
                          parse: ParseOracle): (r: ExecutionResult)
    ensures r.scriptName == name
    ensures r.success ==> r.exitCode == 0 && r.errorMessage.None?
    ensures !r.success ==> r.errorMessage.Some?
    ensures name !in scripts ==> r == ExecutionResult(name, false, 1, Some("Script not found: " + name))
    ensures name in scripts && scripts[name].parserFactory.construction.Raises? ==>
              r == ExecutionResult(name, false, 1, Some(scripts[name].parserFactory.construction.message))
    ensures name in scripts && scripts[name].parserFactory.construction.Builds? ==>
              var outcome := parse(scripts[name].parserFactory, FilterArgs(scripts[name].supportedFlags, allArgs));
              (outcome.UsageExit? ==> r == ExecutionResult(name, false, outcome.code, Some("Argument parsing failed")))
              && (outcome.Raised? ==> r == ExecutionResult(name, false, 1, Some(outcome.message)))
    ensures r.success <==>
              name in scripts && scripts[name].parserFactory.construction.Builds?
              && parse(scripts[name].parserFactory, FilterArgs(scripts[name].supportedFlags, allArgs)).Parsed?
  {
    if name !in scripts then ExecutionResult(name, false, 1, Some("Script not found: " + name))
    else
      var script := scripts[name];
      match script.parserFactory.construction
      case Raises(message) => ExecutionResult(name, false, 1, Some(message))
      case Builds(_) =>
        match parse(script.parserFactory, FilterArgs(script.supportedFlags, allArgs))
        case Parsed => ExecutionResult(name, true, 0, None)
        case UsageExit(code) => ExecutionResult(name, false, code, Some("Argument parsing failed"))
        case Raised(message) => ExecutionResult(name, false, 1, Some(message))
  }

  /** The batch the coordinator records for `names`, one result per name. */
  function ExpectedBatch(scripts: map<string, ScriptMetadata>, names: seq<string>, allArgs: seq<string>,
                         parse: ParseOracle): (b: BatchResults)
    ensures |b.results| == |names|
    ensures forall i :: 0 <= i < |names| ==> b.results[i] == ExpectedResult(scripts, names[i], allArgs, parse)
  {
    BatchResults(seq(|names|, i requires 0 <= i < |names| => ExpectedResult(scripts, names[i], allArgs, parse)))
  }

  /** A batch succeeds exactly when every name is registered, its factory
      builds a parser and that parser accepts the filtered arguments. */
  lemma BatchSucceedsIff(scripts: map<string, ScriptMetadata>, names: seq<string>, allArgs: seq<string>,
                         parse: ParseOracle)
    ensures ExpectedBatch(scripts, names, allArgs, parse).AllSuccess() <==>
              forall i :: 0 <= i < |names| ==>
                names[i] in scripts && scripts[names[i]].parserFactory.construction.Builds?
                && parse(scripts[names[i]].parserFactory, FilterArgs(scripts[names[i]].supportedFlags, allArgs)).Parsed?
    ensures ExpectedBatch(scripts, names, allArgs, parse).AllSuccess() <==>
              ExpectedBatch(scripts, names, allArgs, parse).FailedCount() == 0
  {
    AllSuccessIff(ExpectedBatch(scripts, names, allArgs, parse).results);
  }

  /** An unregistered name is a failure of the batch, not an error. */
  lemma {:induction false} UnknownNameFails(scripts: map<string, ScriptMetadata>, names: seq<string>,
                                            allArgs: seq<string>, parse: ParseOracle, i: nat)
    requires i < |names| && names[i] !in scripts
    ensures !ExpectedBatch(scripts, names, allArgs, parse).AllSuccess()
    ensures ExpectedBatch(scripts, names, allArgs, parse).FailedCount() > 0
    ensures ExpectedBatch(scripts, names, allArgs, parse).results[i].errorMessage
              == Some("Script not found: " + names[i])
  {
    var b := ExpectedBatch(scripts, names, allArgs, parse);
    assert !b.results[i].success;
    AllSuccessIff(b.results);
  }

  /** The filtering pass of the coordinator over one script's metadata. */
  method FilterTokens(script: ScriptMetadata, allArgs: seq<string>) returns (filtered: seq<string>)
    ensures filtered == FilterArgs(script.supportedFlags, allArgs)
  {
    ghost var supported := script.supportedFlags;
    filtered := [];
    var skipNext := false;
    ghost var next := 0;
    assert allArgs[0..] == allArgs;
    for i := 0 to |allArgs|
      invariant next == if skipNext then i + 1 else i
      invariant next <= |allArgs|
      invariant filtered + FilterArgs(supported, allArgs[next..]) == FilterArgs(supported, allArgs)
    {
      if skipNext {
        skipNext := false;
      } else {
        var kept, skip := FilterToken(script, allArgs, i);
        ghost var after := if skip then i + 2 else i + 1;
        ghost var rest := FilterArgs(supported, allArgs[after..]);
        assert filtered + (kept + rest) == (filtered + kept) + rest;
        filtered := filtered + kept;
        skipNext := skip;
        next := after;
      }
    }
  }

  /** The pass's treatment of the token at position `i`: what it copies
      (the token, or the flag and its value, or nothing) and whether it
      also consumes the next token as the flag's value. */
  method FilterToken(script: ScriptMetadata, allArgs: seq<string>, i: nat) returns (kept: seq<string>, skipNext: bool)
    requires i < |allArgs|
    ensures skipNext ==> i + 1 < |allArgs|
    ensures kept == HeadKept(script.supportedFlags, allArgs[i..])
    ensures skipNext <==> Step(allArgs[i..]) == 2
    ensures FilterArgs(script.supportedFlags, allArgs[i..])
            == kept + FilterArgs(script.supportedFlags, allArgs[if skipNext then i + 2 else i + 1..])
  {
    FilterAdvance(script.supportedFlags, allArgs, i);
    var arg := allArgs[i];
    kept := [];
    skipNext := false;
    if StartsWithDash(arg) {
      if '=' in arg {
        var flag := BeforeFirst(arg, '=');
        if script.SupportsFlag(flag) {
          kept := [arg];
        }
      } else {
        var valueFollows := i + 1 < |allArgs| && !StartsWithDash(allArgs[i + 1]);
        if script.SupportsFlag(arg) {
          kept := [arg];
          if valueFollows {
            kept := kept + [allArgs[i + 1]];
            skipNext := true;
          }
        } else if valueFollows {
          skipNext := true;
        }
        assert valueFollows ==> allArgs[i..][..2] == [arg, allArgs[i + 1]];
      }
    } else {
      kept := [arg];
    }
  }

  class Coordinator {
    const registry: ScriptRegistry

    /** A coordinator over the given registry. */
    constructor (registry: ScriptRegistry)
      ensures this.registry == registry
    {
      this.registry := registry;
    }

    /** The arguments a registered script is given: positionals always,
        flags only when the script supports them, each with the value
        after it. */
    method FilterArgsForScript(scriptName: string, allArgs: seq<string>) returns (r: Result<seq<string>, string>)
      requires registry.Valid()
      ensures registry.Get(scriptName).None? ==> r == Failure("Unknown script: " + scriptName)
      ensures registry.Get(scriptName).Some? ==>
                r == Success(FilterArgs(registry.Get(scriptName).value.supportedFlags, allArgs))
    {
      var script := registry.Get(scriptName);
      if script.None? {
        return Failure("Unknown script: " + scriptName);
      }
      var filtered := FilterTokens(script.value, allArgs);
      return Success(filtered);
    }

    /** Runs one script: a missing script, a factory or parser that raises,
        and a usage exit are recorded as failures. */
    method RunSingleScript(scriptName: string, allArgs: seq<string>, parse: ParseOracle) returns (r: ExecutionResult)
      requires registry.Valid()
      ensures r == ExpectedResult(registry.scripts, scriptName, allArgs, parse)
    {
      var script := registry.Get(scriptName);
      if script.None? {
        return ExecutionResult(scriptName, false, 1, Some("Script not found: " + scriptName));
      }
      var filtered := FilterArgsForScript(scriptName, allArgs);
      match script.value.parserFactory.construction
      case Raises(message) =>
        return ExecutionResult(scriptName, false, 1, Some(message));
      case Builds(_) =>
        match parse(script.value.parserFactory, filtered.value)
        case Parsed =>
          return ExecutionResult(scriptName, true, 0, None);
        case UsageExit(code) =>
          return ExecutionResult(scriptName, false, code, Some("Argument parsing failed"));
        case Raised(message) =>
          return ExecutionResult(scriptName, false, 1, Some(message));
    }

    /** Runs the scripts in the order given, collecting one result each. */
    method Run(scriptNames: seq<string>, args: seq<string>, parse: ParseOracle) returns (batch: BatchResults)
      requires registry.Valid()
      ensures batch == ExpectedBatch(registry.scripts, scriptNames, args, parse)
    {
      var results: seq<ExecutionResult> := [];
      for k := 0 to |scriptNames|
        invariant |results| == k
        invariant forall j :: 0 <= j < k ==> results[j] == ExpectedResult(registry.scripts, scriptNames[j], args, parse)
      {
        var result := RunSingleScript(scriptNames[k], args, parse);
        results := results + [result];
      }
      batch := BatchResults(results);
    }

    /** The registered names, in first-registration order. */
    function ListScripts(): (names: seq<string>)
      reads registry
      requires registry.Valid()
      ensures names == FirstOccurrences(Names(registry.history))
      ensures Distinct(names)
    {
      registry.ListAll()
    }

    /** The metadata of the latest registration under `scriptName`. */
    function GetScriptInfo(scriptName: string): (r: Option<ScriptMetadata>)
      reads registry
      requires registry.Valid()
      ensures r.Some? <==> scriptName in Names(registry.history)
      ensures r.Some? ==> r.value.name == scriptName
      ensures r.Some? ==> exists i :: 0 <= i < |registry.history| && registry.history[i] == r.value
                                      && forall j :: i < j < |registry.history| ==> registry.history[j].name != scriptName
    {
      registry.Get(scriptName)
    }
  }
}
