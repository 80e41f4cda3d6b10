/** The script registry: a name-to-metadata map with Python dict semantics
    (last write wins, keys listed in first-insertion order), and the
    registration call that scripts make when they are loaded. */
module Registry {
  import opened Wrappers
  import opened Text

  /** What calling a parser factory does: return a parser (with the
      description it was given, if any) or raise. */
  datatype Construction = Builds(description: Option<string>) | Raises(message: string)

  /** A zero-argument parser factory, known by its name and by what calling
      it does. */
  datatype ParserFactory = ParserFactory(id: string, construction: Construction)

  datatype ScriptMetadata = ScriptMetadata(
    name: string,
    description: string,
    parserFactory: ParserFactory,
    supportedFlags: set<string>,
    modulePath: Option<string>)
  {
    predicate SupportsFlag(flag: string) {
      flag in supportedFlags
    }
  }

  /** `set(flags)` */
  function SetOf(flags: seq<string>): (s: set<string>)
    ensures forall f :: f in s <==> f in flags
  {
    set f | f in flags
  }

  lemma SetOfOne(flag: string)
    ensures SetOf([flag]) == {flag}
  {
  }

  function Names(history: seq<ScriptMetadata>): (names: seq<string>)
    ensures |names| == |history|
    ensures forall i :: 0 <= i < |history| ==> names[i] == history[i].name
  {
    seq(|history|, i requires 0 <= i < |history| => history[i].name)
  }

  /** The distinct elements of `s`, each at the place it first occurs. */
  function FirstOccurrences(s: seq<string>): (r: seq<string>)
    ensures forall x :: x in r <==> x in s
    ensures Distinct(r)
  {
    if s == [] then []
    else
      var earlier := FirstOccurrences(s[..|s| - 1]);
      var x := s[|s| - 1];
      assert forall y :: y in s <==> y in s[..|s| - 1] || y == x;
      if x in earlier then earlier else earlier + [x]
  }

  /** The position where `x` first occurs in `s`. */
  function FirstIndex(s: seq<string>, x: string): (k: nat)
    requires x in s
    ensures k < |s| && s[k] == x && x !in s[..k]
  {
    if s[0] == x then 0 else 1 + FirstIndex(s[1..], x)
  }

  lemma {:induction false} FirstIndexOfPrefix(s: seq<string>, x: string)
    requires |s| > 0 && x in s[..|s| - 1]
    ensures FirstIndex(s, x) == FirstIndex(s[..|s| - 1], x)
  {
    if s[0] != x {
      assert s[..|s| - 1][1..] == s[1..][..|s[1..]| - 1];
      FirstIndexOfPrefix(s[1..], x);
    }
  }

  /** FirstOccurrences lists the names in the order they first occur. */
  lemma {:induction false} FirstOccurrencesOrdered(s: seq<string>)
    ensures forall i, j :: 0 <= i < j < |FirstOccurrences(s)| ==>
              FirstIndex(s, FirstOccurrences(s)[i]) < FirstIndex(s, FirstOccurrences(s)[j])
  {
    if s != [] {
      var init := s[..|s| - 1];
      var earlier := FirstOccurrences(init);
      var r := FirstOccurrences(s);
      FirstOccurrencesOrdered(init);
      forall y | y in earlier ensures FirstIndex(s, y) == FirstIndex(init, y) && FirstIndex(init, y) < |init| {
        FirstIndexOfPrefix(s, y);
      }
      if s[|s| - 1] !in earlier {
        assert FirstIndex(s, s[|s| - 1]) == |s| - 1 by {
          assert s[..|s| - 1] == init;
        }
      }
      forall i, j | 0 <= i < j < |r| ensures FirstIndex(s, r[i]) < FirstIndex(s, r[j]) {
        assert r[i] in earlier;
        if j < |earlier| {
          assert r[i] == earlier[i] && r[j] == earlier[j];
        }
      }
    }
  }

  /** The map that registering `history` in order leaves: each name bound
      to its last registration. */
  function LastWrite(history: seq<ScriptMetadata>): (m: map<string, ScriptMetadata>)
    ensures forall n :: n in m <==> n in Names(history)
  {
    if history == [] then map[]
    else
      var last := history[|history| - 1];
      var init := history[..|history| - 1];
      var m := LastWrite(init);
      assert Names(history) == Names(init) + [last.name];
      m[last.name := last]
  }

  /** Last write wins: a name is bound to the latest registration under it. */
  lemma {:induction false} LastWriteWins(history: seq<ScriptMetadata>, i: nat)
    requires i < |history|
    requires forall j :: i < j < |history| ==> history[j].name != history[i].name
    ensures LastWrite(history)[history[i].name] == history[i]
  {
    if i < |history| - 1 {
      var init := history[..|history| - 1];
      assert forall j :: i < j < |init| ==> init[j] == history[j];
      LastWriteWins(init, i);
    }
  }

  /** The entry a name is bound to is its latest registration, found at
      position `i` of the history. */
  lemma {:induction false} LatestRegistration(history: seq<ScriptMetadata>, name: string) returns (i: nat)
    requires name in LastWrite(history)
    ensures i < |history| && history[i] == LastWrite(history)[name] && history[i].name == name
    ensures forall j :: i < j < |history| ==> history[j].name != name
  {
    var last := history[|history| - 1];
    var init := history[..|history| - 1];
    assert LastWrite(history) == LastWrite(init)[last.name := last];
    if last.name == name {
      i := |history| - 1;
    } else {
      i := LatestRegistration(init, name);
      assert history[i] == init[i];
      assert forall j :: i < j < |history| - 1 ==> history[j] == init[j];
    }
  }

  lemma LastWriteIsLatest(history: seq<ScriptMetadata>, name: string)
    requires name in LastWrite(history)
    ensures LastWrite(history)[name].name == name
    ensures exists i :: 0 <= i < |history| && history[i] == LastWrite(history)[name]
                        && forall j :: i < j < |history| ==> history[j].name != name
  {
    var i := LatestRegistration(history, name);
  }

  /** The registry. `scripts` and `order` are the real state (the map and
      its key order); `history` is the registrations since the last clear,
      which the map and the order are a function of. */
  class ScriptRegistry {
    var scripts: map<string, ScriptMetadata>
    var order: seq<string>
    ghost var history: seq<ScriptMetadata>

    ghost predicate Valid()
      reads this
    {
      scripts == LastWrite(history) && order == FirstOccurrences(Names(history))
    }

    constructor ()
      ensures Valid() && history == []
      ensures scripts == map[] && order == []
    {
      scripts := map[];
      order := [];
      history := [];
    }

    /** Stores `set(supportedFlags)` under `name`, replacing any earlier
        entry; a new name goes to the end of the key order, a known one
        keeps its place. */
    method Register(name: string, description: string, parserFactory: ParserFactory, supportedFlags: seq<string>)
      requires Valid()
      modifies this
      ensures Valid()
      ensures history == old(history) + [ScriptMetadata(name, description, parserFactory, SetOf(supportedFlags), None)]
      ensures scripts == old(scripts)[name := ScriptMetadata(name, description, parserFactory, SetOf(supportedFlags), None)]
      ensures order == if name in old(scripts) then old(order) else old(order) + [name]
    {
      var metadata := ScriptMetadata(name, description, parserFactory, SetOf(supportedFlags), None);
      assert Names(history + [metadata]) == Names(history) + [name];
      if name !in scripts {
        order := order + [name];
      }
      scripts := scripts[name := metadata];
      history := history + [metadata];
    }

    /** The entry registered under `name`, or None. */
    function Get(name: string): (r: Option<ScriptMetadata>)
      reads this
      requires Valid()
      ensures r.Some? <==> name in Names(history)
      ensures r.Some? ==> r.value.name == name
      ensures r.Some? ==> exists i :: 0 <= i < |history| && history[i] == r.value
                                      && forall j :: i < j < |history| ==> history[j].name != name
    {
      if name in scripts then
        LastWriteIsLatest(history, name);
        Some(scripts[name])
      else None
    }

    /** The registered names, each once, in the order they were first
        registered since the last clear. */
    function ListAll(): (names: seq<string>)
      reads this
      requires Valid()
      ensures names == FirstOccurrences(Names(history))
      ensures forall n :: n in names <==> n in Names(history)
      ensures Distinct(names)
    {
      order
    }

    /** A copy of the map. */
    function GetAll(): (m: map<string, ScriptMetadata>)
      reads this
      requires Valid()
      ensures forall n :: n in m <==> n in ListAll()
      ensures forall n :: n in m ==> Get(n) == Some(m[n])
    {
      scripts
    }

    /** Empties the registry. */
    method Clear()
      modifies this
      ensures Valid() && history == []
      ensures scripts == map[] && order == []
      ensures ListAll() == [] && forall n :: Get(n).None?
    {
      scripts := map[];
      order := [];
      history := [];
    }
  }

  /** What the registration call records as the description: the one given,
      or else the built parser's own description, or else the name. */
  function ResolvedDescription(name: string, description: Option<string>, construction: Construction): string
    requires description.Some? || construction.Builds?
  {
    if description.Some? then description.value
    else match construction.description
      case Some(d) => if d == "" then name else d
      case None => name
  }

  /** The registration call a script module makes for its parser factory.
      The factory is called only when no description is given, and a
      factory that raises then stops the registration. */
  method RegisterScript(registry: ScriptRegistry, name: string, description: Option<string>,
                        supports: Option<seq<string>>, parserFactory: ParserFactory)
    returns (r: Result<ParserFactory, string>)
    requires registry.Valid()
    modifies registry
    ensures registry.Valid()
    ensures r.Success? <==> description.Some? || parserFactory.construction.Builds?
    ensures r.Success? ==>
              var entry := ScriptMetadata(
                name, ResolvedDescription(name, description, parserFactory.construction), parserFactory,
                SetOf(if supports.Some? then supports.value else []), None);
              r.value == parserFactory
              && registry.history == old(registry.history) + [entry]
              && registry.scripts == old(registry.scripts)[name := entry]
              && registry.order == if name in old(registry.scripts) then old(registry.order) else old(registry.order) + [name]
    ensures r.Failure? ==>
              r.error == parserFactory.construction.message
              && registry.history == old(registry.history)
              && registry.scripts == old(registry.scripts) && registry.order == old(registry.order)
  {
    var desc: string;
    if description.None? {
      match parserFactory.construction
      case Raises(message) =>
        return Failure(message);
      case Builds(parserDescription) =>
        desc := if parserDescription.Some? && parserDescription.value != "" then parserDescription.value else name;
    } else {
      desc := description.value;
    }
    registry.Register(name, desc, parserFactory, if supports.Some? then supports.value else []);
    return Success(parserFactory);
  }
}
