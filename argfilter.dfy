/** The per-script argument filter of the coordinator, as a function on the
    token list, and what it promises.

    The filter makes one left-to-right pass with one token of lookahead:
    a token that does not start with `-` is copied; a `-` token with an `=`
    is copied whole when the text before its first `=` is supported; a bare
    `-` token that is followed by a token not starting with `-` takes that
    token as its value, and the pair is copied or dropped together; any
    other bare `-` token is copied when supported. */
module ArgFilter {
  import opened Text

  /** The name a flag token is looked up under: the part before the first
      `=` of an inline `--flag=value`, or the whole token. */
  function FlagKey(token: string): (key: string)
    ensures key <= token && '=' !in key
    ensures '=' !in token ==> key == token
  {
    if '=' in token then BeforeFirst(token, '=') else token
  }

  /** A `-` token without an inline value. */
  predicate IsBareFlag(token: string) {
    StartsWithDash(token) && '=' !in token
  }

  /** The token list the filter passes to a script whose supported set is
      `supported`. */
  function FilterArgs(supported: set<string>, args: seq<string>): seq<string>
    decreases |args|
  {
    if args == [] then []
    else if !StartsWithDash(args[0]) then [args[0]] + FilterArgs(supported, args[1..])
    else if '=' in args[0] then
      (if BeforeFirst(args[0], '=') in supported then [args[0]] else []) + FilterArgs(supported, args[1..])
    else if |args| > 1 && !StartsWithDash(args[1]) then
      (if args[0] in supported then [args[0], args[1]] else []) + FilterArgs(supported, args[2..])
    else
      (if args[0] in supported then [args[0]] else []) + FilterArgs(supported, args[1..])
  }

  /** How many tokens the pass handles in one step at the head of `args`. */
  function Step(args: seq<string>): (n: nat)
    requires args != []
    ensures 1 <= n <= |args|
  {
    if IsBareFlag(args[0]) && |args| > 1 && !StartsWithDash(args[1]) then 2 else 1
  }

  /** What that step copies to the output. */
  function HeadKept(supported: set<string>, args: seq<string>): seq<string>
    requires args != []
  {
    if !StartsWithDash(args[0]) then [args[0]]
    else if FlagKey(args[0]) in supported then args[..Step(args)]
    else []
  }

  lemma FilterStep(supported: set<string>, args: seq<string>)
    requires args != []
    ensures FilterArgs(supported, args) == HeadKept(supported, args) + FilterArgs(supported, args[Step(args)..])
  {
  }

  /** The step at position `i`, in the loop's terms: the tokens kept, then
      the filter of what follows the one or two tokens consumed. */
  lemma FilterAdvance(supported: set<string>, args: seq<string>, i: nat)
    requires i < |args|
    ensures Step(args[i..]) == 1 ==>
              FilterArgs(supported, args[i..]) == HeadKept(supported, args[i..]) + FilterArgs(supported, args[i + 1..])
    ensures Step(args[i..]) == 2 ==>
              FilterArgs(supported, args[i..]) == HeadKept(supported, args[i..]) + FilterArgs(supported, args[i + 2..])
  {
    FilterStep(supported, args[i..]);
    assert args[i..][1..] == args[i + 1..];
    if Step(args[i..]) == 2 {
      assert args[i..][2..] == args[i + 2..];
    }
  }

  // ---------------------------------------------------------------------
  // The units the pass implicitly cuts the token list into.

  datatype Unit =
    | Positional(token: string)                // no leading `-`: always copied
    | InlineFlag(token: string)                // `-...=...`: copied whole or dropped
    | BareFlag(token: string)                  // `-...` with nothing consumed after it
    | FlagWithValue(flag: string, value: string) // `-...` plus the next, non-`-` token

  function Tokens(u: Unit): seq<string> {
    match u
    case Positional(t) => [t]
    case InlineFlag(t) => [t]
    case BareFlag(t) => [t]
    case FlagWithValue(f, v) => [f, v]
  }

  /** What a unit's first token looks like, as the pass classifies it. */
  predicate WellFormed(u: Unit) {
    match u
    case Positional(t) => !StartsWithDash(t)
    case InlineFlag(t) => StartsWithDash(t) && '=' in t
    case BareFlag(t) => IsBareFlag(t)
    case FlagWithValue(f, v) => IsBareFlag(f) && !StartsWithDash(v)
  }

  /** The lookahead is greedy: a bare flag stands alone only when no token
      follows it or the next token starts with `-`. */
  predicate Greedy(units: seq<Unit>) {
    forall k :: 0 <= k < |units| - 1 && units[k].BareFlag? ==> StartsWithDash(Tokens(units[k + 1])[0])
  }

  function Flatten(units: seq<Unit>): seq<string> {
    if units == [] then [] else Tokens(units[0]) + Flatten(units[1..])
  }

  /** The decision the filter takes for one unit. */
  function Keep(supported: set<string>, u: Unit): (r: seq<string>)
    ensures r == Tokens(u) || r == []
    ensures r == Tokens(u) <==> (u.Positional? || FlagKey(Tokens(u)[0]) in supported)
  {
    match u
    case Positional(t) => [t]
    case InlineFlag(t) => if FlagKey(t) in supported then [t] else []
    case BareFlag(t) => if FlagKey(t) in supported then [t] else []
    case FlagWithValue(f, v) => if FlagKey(f) in supported then [f, v] else []
  }

  function KeepAll(supported: set<string>, units: seq<Unit>): seq<string> {
    if units == [] then [] else Keep(supported, units[0]) + KeepAll(supported, units[1..])
  }

  /** The unit the pass cuts at the head of `args`. */
  function HeadUnit(args: seq<string>): (u: Unit)
    requires args != []
    ensures Tokens(u) == args[..Step(args)]
    ensures WellFormed(u)
    ensures u.BareFlag? ==> |args| == 1 || StartsWithDash(args[1])
  {
    if !StartsWithDash(args[0]) then Positional(args[0])
    else if '=' in args[0] then InlineFlag(args[0])
    else if |args| > 1 && !StartsWithDash(args[1]) then FlagWithValue(args[0], args[1])
    else BareFlag(args[0])
  }

  /** The cut the pass makes. */
  function Segment(args: seq<string>): seq<Unit>
    decreases |args|
  {
    if args == [] then [] else [HeadUnit(args)] + Segment(args[Step(args)..])
  }

  /** The cut loses and reorders nothing. */
  lemma {:induction false} SegmentFlatten(args: seq<string>)
    ensures Flatten(Segment(args)) == args
    decreases |args|
  {
    if args != [] {
      var n := Step(args);
      var rest := args[n..];
      var units := Segment(args);
      assert units[0] == HeadUnit(args) && units[1..] == Segment(rest);
      calc {
        Flatten(units);
        Tokens(units[0]) + Flatten(units[1..]);
        args[..n] + Flatten(Segment(rest));
        { SegmentFlatten(rest); }
        args[..n] + rest;
      }
      assert args[..n] + rest == args;
    }
  }

  /** Every unit of the cut is classified as the pass classifies it. */
  lemma {:induction false} SegmentWellFormed(args: seq<string>)
    ensures forall k :: 0 <= k < |Segment(args)| ==> WellFormed(Segment(args)[k])
    decreases |args|
  {
    if args != [] {
      var rest := args[Step(args)..];
      SegmentWellFormed(rest);
      assert Segment(args) == [HeadUnit(args)] + Segment(rest);
    }
  }

  /** The first token of a non-empty cut is the first argument. */
  lemma SegmentHead(args: seq<string>)
    requires args != []
    ensures Segment(args) != [] && Tokens(Segment(args)[0])[0] == args[0]
  {
    assert Tokens(HeadUnit(args))[0] == args[..Step(args)][0];
  }

  /** The cut's lookahead is greedy. */
  lemma {:induction false} SegmentGreedy(args: seq<string>)
    ensures Greedy(Segment(args))
    decreases |args|
  {
    if args != [] {
      var rest := args[Step(args)..];
      SegmentGreedy(rest);
      var units := Segment(args);
      assert units == [HeadUnit(args)] + Segment(rest);
      if HeadUnit(args).BareFlag? && rest != [] {
        SegmentHead(rest);
        assert rest[0] == args[1];
      }
      forall k | 0 <= k < |units| - 1 && units[k].BareFlag?
        ensures StartsWithDash(Tokens(units[k + 1])[0])
      {
        if k > 0 {
          assert units[k] == Segment(rest)[k - 1];
        }
      }
    }
  }

  /** The cut loses and reorders nothing, every unit is classified as the
      pass classifies it, and the lookahead is greedy. */
  lemma SegmentSound(args: seq<string>)
    ensures Flatten(Segment(args)) == args
    ensures forall k :: 0 <= k < |Segment(args)| ==> WellFormed(Segment(args)[k])
    ensures Greedy(Segment(args))
  {
    SegmentFlatten(args);
    SegmentWellFormed(args);
    SegmentGreedy(args);
  }

  /** Any well-formed, greedy cut of a token list is the pass's cut: the
      three properties of SegmentSound determine it. */
  lemma {:induction false} SegmentUnique(units: seq<Unit>)
    requires forall k :: 0 <= k < |units| ==> WellFormed(units[k])
    requires Greedy(units)
    ensures Segment(Flatten(units)) == units
  {
    if units != [] {
      var args := Flatten(units);
      var tail := Flatten(units[1..]);
      assert args == Tokens(units[0]) + tail;
      assert Greedy(units[1..]) by {
        forall k | 0 <= k < |units[1..]| - 1 && units[1..][k].BareFlag?
          ensures StartsWithDash(Tokens(units[1..][k + 1])[0])
        {
          assert units[1..][k] == units[k + 1];
        }
      }
      SegmentUnique(units[1..]);
      match units[0]
      case Positional(t) =>
        assert args[1..] == tail;
      case InlineFlag(t) =>
        assert args[1..] == tail;
      case BareFlag(t) =>
        assert args[1..] == tail;
        if |args| > 1 {
          assert units[1..] != [];
          FlattenHead(units[1..]);
        }
      case FlagWithValue(f, v) =>
        assert args[2..] == tail;
    }
  }

  lemma FlattenHead(units: seq<Unit>)
    requires units != []
    ensures Flatten(units) != [] && Flatten(units)[0] == Tokens(units[0])[0]
  {
  }

  /** The filter is the unit-by-unit decision over the pass's cut: each unit
      is copied whole or dropped whole, never split. */
  lemma {:induction false} FilterByUnits(supported: set<string>, args: seq<string>)
    ensures FilterArgs(supported, args) == KeepAll(supported, Segment(args))
    decreases |args|
  {
    if args != [] {
      if !StartsWithDash(args[0]) || '=' in args[0] || !(|args| > 1 && !StartsWithDash(args[1])) {
        FilterByUnits(supported, args[1..]);
      } else {
        FilterByUnits(supported, args[2..]);
      }
    }
  }

  /** What KeepAll keeps of any one unit reaches its output. */
  lemma {:induction false} KeepAllIncludes(supported: set<string>, units: seq<Unit>, k: nat)
    requires k < |units|
    ensures forall t :: t in Keep(supported, units[k]) ==> t in KeepAll(supported, units)
  {
    if k > 0 {
      assert units[1..][k - 1] == units[k];
      KeepAllIncludes(supported, units[1..], k - 1);
    }
  }

  /** A positional that the pass does not consume as a flag's value is
      always passed on, whatever the supported set. */
  lemma PositionalKept(supported: set<string>, args: seq<string>, k: nat)
    requires k < |Segment(args)| && Segment(args)[k].Positional?
    ensures Segment(args)[k].token in FilterArgs(supported, args)
  {
    FilterByUnits(supported, args);
    KeepAllIncludes(supported, Segment(args), k);
  }

  // ---------------------------------------------------------------------
  // Properties of the filter over all inputs.

  /** The output is an order-preserving subsequence of the input, so it is
      never longer. */
  lemma {:induction false} FilterIsSubsequence(supported: set<string>, args: seq<string>)
    ensures IsSubsequence(FilterArgs(supported, args), args)
    ensures |FilterArgs(supported, args)| <= |args|
    decreases |args|
  {
    var out := FilterArgs(supported, args);
    if args != [] {
      var n := Step(args);
      var rest := args[n..];
      FilterIsSubsequence(supported, rest);
      var kept := out[..|out| - |FilterArgs(supported, rest)|];
      assert out == kept + FilterArgs(supported, rest);
      assert args == args[..n] + rest;
      if kept == [] {
        SubsequencePrependAll(FilterArgs(supported, rest), args[..n], rest);
      } else {
        assert kept == args[..n];
        SubsequenceCons(args[..n], FilterArgs(supported, rest), rest);
      }
      SubsequenceLength(out, args);
    }
  }

  /** The filter never invents a token: everything it passes on was in
      the input. */
  lemma FilterInventsNothing(supported: set<string>, args: seq<string>)
    ensures forall t :: t in FilterArgs(supported, args) ==> t in args
  {
    FilterIsSubsequence(supported, args);
    forall t | t in FilterArgs(supported, args) ensures t in args {
      SubsequenceMembers(FilterArgs(supported, args), args, t);
    }
  }

  /** No unsupported flag leaks: every `-` token in the output is a flag
      whose key is supported. Consumed values never start with `-`. */
  lemma {:induction false} FilterNoLeak(supported: set<string>, args: seq<string>)
    ensures forall k :: 0 <= k < |FilterArgs(supported, args)| && StartsWithDash(FilterArgs(supported, args)[k])
              ==> FlagKey(FilterArgs(supported, args)[k]) in supported
    decreases |args|
  {
    if args != [] {
      var n := Step(args);
      FilterNoLeak(supported, args[n..]);
    }
  }

  /** A `-` token is never taken as a value, so every `-` token of the input
      whose key is supported reaches the output. */
  lemma {:induction false} FilterPassesSupported(supported: set<string>, args: seq<string>, i: nat)
    requires i < |args| && StartsWithDash(args[i]) && FlagKey(args[i]) in supported
    ensures args[i] in FilterArgs(supported, args)
    decreases |args|
  {
    var n := Step(args);
    if i >= n {
      FilterPassesSupported(supported, args[n..], i - n);
    }
  }

  /** For a `-` token of the input: it is in the output iff its key (the
      text before a first `=`, or the whole token) is supported. */
  lemma FlagTokenKeptIff(supported: set<string>, args: seq<string>, i: nat)
    requires i < |args| && StartsWithDash(args[i])
    ensures args[i] in FilterArgs(supported, args) <==> FlagKey(args[i]) in supported
  {
    if FlagKey(args[i]) in supported {
      FilterPassesSupported(supported, args, i);
    } else {
      FilterNoLeak(supported, args);
    }
  }

  /** Supporting more flags never removes a token: the output for a smaller
      supported set is a subsequence of the output for a larger one. */
  lemma {:induction false} FilterMonotone(small: set<string>, large: set<string>, args: seq<string>)
    requires small <= large
    ensures IsSubsequence(FilterArgs(small, args), FilterArgs(large, args))
    decreases |args|
  {
    if args != [] {
      var n := Step(args);
      var rest := args[n..];
      FilterMonotone(small, large, rest);
      var fs, fl := FilterArgs(small, rest), FilterArgs(large, rest);
      var s, l := FilterArgs(small, args), FilterArgs(large, args);
      var ks, kl := s[..|s| - |fs|], l[..|l| - |fl|];
      assert s == ks + fs && l == kl + fl;
      if ks == [] {
        SubsequencePrependAll(fs, kl, fl);
      } else {
        assert ks == kl;
        SubsequenceCons(ks, fs, fl);
      }
    }
  }

  /** When every `-` token's key is supported, the filter passes the list
      through unchanged. */
  lemma {:induction false} FilterAllSupported(supported: set<string>, args: seq<string>)
    requires forall k :: 0 <= k < |args| && StartsWithDash(args[k]) ==> FlagKey(args[k]) in supported
    ensures FilterArgs(supported, args) == args
    decreases |args|
  {
    if args != [] {
      var n := Step(args);
      assert forall k :: 0 <= k < |args[n..]| ==> args[n..][k] == args[k + n];
      FilterAllSupported(supported, args[n..]);
      assert args == args[..n] + args[n..];
    }
  }

  /** Filtering an already filtered list changes nothing. */
  lemma FilterIdempotent(supported: set<string>, args: seq<string>)
    ensures FilterArgs(supported, FilterArgs(supported, args)) == FilterArgs(supported, args)
  {
    FilterNoLeak(supported, args);
    FilterAllSupported(supported, FilterArgs(supported, args));
  }

  /** Filtering distributes over a split of the list at any point where it
      does not separate a bare flag from the value it consumes. */
  lemma {:induction false} FilterSplit(supported: set<string>, p: seq<string>, q: seq<string>)
    requires p == [] || q == [] || !IsBareFlag(p[|p| - 1]) || StartsWithDash(q[0])
    ensures FilterArgs(supported, p + q) == FilterArgs(supported, p) + FilterArgs(supported, q)
    decreases |p|
  {
    if p == [] {
      assert p + q == q;
    } else {
      var n := Step(p);
      var head := HeadKept(supported, p);
      SplitHead(supported, p, q);
      calc {
        FilterArgs(supported, p + q);
        { FilterStep(supported, p + q); }
        head + FilterArgs(supported, p[n..] + q);
        { FilterSplit(supported, p[n..], q); }
        head + (FilterArgs(supported, p[n..]) + FilterArgs(supported, q));
        (head + FilterArgs(supported, p[n..])) + FilterArgs(supported, q);
        { FilterStep(supported, p); }
        FilterArgs(supported, p) + FilterArgs(supported, q);
      }
    }
  }

  /** The first step on `p + q` is the first step on `p`. */
  lemma SplitHead(supported: set<string>, p: seq<string>, q: seq<string>)
    requires p != []
    requires q == [] || !IsBareFlag(p[|p| - 1]) || StartsWithDash(q[0])
    ensures Step(p + q) == Step(p)
    ensures HeadKept(supported, p + q) == HeadKept(supported, p)
    ensures (p + q)[Step(p)..] == p[Step(p)..] + q
    ensures p[Step(p)..] == [] || q == [] || !IsBareFlag(p[Step(p)..][|p[Step(p)..]| - 1]) || StartsWithDash(q[0])
  {
    var a := p + q;
    assert a[0] == p[0];
    assert |p| > 1 ==> a[1] == p[1];
    var n := Step(p);
    assert a[..n] == p[..n];
  }

  /** The known limitation, kept as written: a bare flag the script does not
      support takes the next non-`-` token with it, even when that token was
      a positional argument meant for every script. */
  lemma UnsupportedFlagSwallowsPositional()
    ensures FilterArgs({"-v"}, ["--quiet", "file.txt"]) == []
    ensures FilterArgs({"-v", "--quiet"}, ["--quiet", "file.txt"]) == ["--quiet", "file.txt"]
  {
  }
}
