/** The standard-flag catalog and the flag-selection part of the parser
    facade: which standard flags a configured parser accepts, and how a
    requested selection is checked. Parsing itself belongs to the option
    engine and is not modelled here. */
module Parser {
  import opened Wrappers
  import opened Text

  /** Every standard flag is a boolean switch. */
  datatype Action = StoreTrue

  datatype FlagSpec = FlagSpec(name: string, tokens: seq<string>, action: Action, help: string)

  /** The catalog, in its declaration order. */
  const StandardFlags: seq<FlagSpec> := [
    FlagSpec("recursive", ["-R", "--recursive"], StoreTrue, "Process directories recursively"),
    FlagSpec("dry-run", ["-n", "--dry-run"], StoreTrue, "Show what would be done without making changes"),
    FlagSpec("yes", ["-y", "--yes"], StoreTrue, "Automatically answer yes to all prompts"),
    FlagSpec("verbose", ["-v", "--verbose"], StoreTrue, "Enable verbose output")
  ]

  /** The catalog's keys, in order. */
  const StandardFlagNames: seq<string> := ["recursive", "dry-run", "yes", "verbose"]

  /** The keys are the entries' names, in table order. */
  lemma KeysMatchTable()
    ensures |StandardFlagNames| == |StandardFlags|
    ensures forall i :: 0 <= i < |StandardFlags| ==> StandardFlagNames[i] == StandardFlags[i].name
  {
  }

  predicate IsStandardFlag(name: string) {
    name in StandardFlagNames
  }

  /** The first entry of `table` with the given name, if any. */
  function LookupIn(table: seq<FlagSpec>, name: string): (r: Option<FlagSpec>)
    ensures r.Some? <==> exists i :: 0 <= i < |table| && table[i].name == name
    ensures r.Some? ==> r.value in table && r.value.name == name
  {
    if table == [] then None
    else if table[0].name == name then Some(table[0])
    else LookupIn(table[1..], name)
  }

  /** `STANDARD_FLAGS[name]`, or None for a name outside the catalog. */
  function Lookup(name: string): (r: Option<FlagSpec>)
    ensures r.Some? <==> IsStandardFlag(name)
    ensures r.Some? ==> r.value in StandardFlags && r.value.name == name
  {
    KeysMatchTable();
    LookupIn(StandardFlags, name)
  }

  /** The literal option strings a standard flag contributes; none for an
      unknown name. */
  function FlagTokens(name: string): seq<string> {
    match Lookup(name)
    case Some(spec) => spec.tokens
    case None => []
  }

  /** The shape of the catalog: each entry is a boolean switch with exactly
      two literals, a short one and `--` followed by its own name, and no
      two literals of the catalog are equal. */
  lemma CatalogShape()
    ensures forall i :: 0 <= i < |StandardFlags| ==>
              StandardFlags[i].action == StoreTrue && |StandardFlags[i].tokens| == 2
              && StandardFlags[i].tokens[1] == "--" + StandardFlags[i].name
    ensures forall i, j, a, b ::
              (0 <= i < |StandardFlags| && 0 <= j < |StandardFlags| && 0 <= a < 2 && 0 <= b < 2 && (i != j || a != b))
              ==> StandardFlags[i].tokens[a] != StandardFlags[j].tokens[b]
  {
  }

  /** What makes the literals tell the entries apart: a short literal is
      `-` and one letter, distinct per entry, and a long one is `--` and
      the entry's own name, the names being distinct. */
  lemma CatalogKeys()
    ensures forall i :: 0 <= i < |StandardFlags| ==>
              |StandardFlags[i].tokens| == 2 && |StandardFlags[i].tokens[0]| == 2
              && StandardFlags[i].tokens[1] == "--" + StandardFlags[i].name && |StandardFlags[i].name| > 0
    ensures forall i, j :: 0 <= i < |StandardFlags| && 0 <= j < |StandardFlags| && i != j ==>
              StandardFlags[i].tokens[0][1] != StandardFlags[j].tokens[0][1]
              && StandardFlags[i].name[0] != StandardFlags[j].name[0]
  {
  }

  /** Two literals of the catalog are equal only as the same literal of
      the same entry. */
  lemma SameToken(i: nat, j: nat, x: nat, y: nat)
    requires i < |StandardFlags| && j < |StandardFlags|
    requires x < |StandardFlags[i].tokens| && y < |StandardFlags[j].tokens|
    requires StandardFlags[i].tokens[x] == StandardFlags[j].tokens[y]
    ensures i == j
  {
    CatalogKeys();
    var s, u := StandardFlags[i], StandardFlags[j];
    if x == 1 && y == 1 {
      assert s.name == s.tokens[1][2..] && u.name == u.tokens[1][2..];
    }
  }

  /** Where in `table` the entry found for `name` sits. */
  lemma {:induction false} LookupInIndex(table: seq<FlagSpec>, name: string) returns (i: nat)
    requires LookupIn(table, name).Some?
    ensures i < |table| && LookupIn(table, name) == Some(table[i])
  {
    if table[0].name == name {
      i := 0;
    } else {
      var k := LookupInIndex(table[1..], name);
      i := k + 1;
    }
  }

  /** Where in a token list a member sits. */
  lemma IndexOfMember(tokens: seq<string>, t: string) returns (x: nat)
    requires t in tokens
    ensures x < |tokens| && tokens[x] == t
  {
    x :| 0 <= x < |tokens| && tokens[x] == t;
  }

  /** In a table whose earlier entries have other names, looking up an
      entry's name finds that entry. */
  lemma {:induction false} LookupInDistinct(table: seq<FlagSpec>, i: nat)
    requires i < |table|
    requires forall p :: 0 <= p < i ==> table[p].name != table[i].name
    ensures LookupIn(table, table[i].name) == Some(table[i])
  {
    if i > 0 {
      assert table[0].name != table[i].name;
      assert table[1..][i - 1] == table[i];
      LookupInDistinct(table[1..], i - 1);
    }
  }

  /** Looking up an entry's key finds that entry, so its literals are the
      entry's own. */
  lemma LookupEntry(i: nat)
    requires i < |StandardFlags|
    ensures Lookup(StandardFlags[i].name) == Some(StandardFlags[i])
    ensures FlagTokens(StandardFlags[i].name) == StandardFlags[i].tokens
  {
    CatalogKeys();
    forall p | 0 <= p < i
      ensures StandardFlags[p].name != StandardFlags[i].name
    {
      assert StandardFlags[p].name[0] != StandardFlags[i].name[0];
    }
    LookupInDistinct(StandardFlags, i);
  }

  /** A literal belongs to at most one standard flag. */
  lemma TokenOwner(a: string, b: string, t: string)
    requires t in FlagTokens(a) && t in FlagTokens(b)
    ensures a == b
  {
    var i := LookupInIndex(StandardFlags, a);
    var j := LookupInIndex(StandardFlags, b);
    var x := IndexOfMember(StandardFlags[i].tokens, t);
    var y := IndexOfMember(StandardFlags[j].tokens, t);
    SameToken(i, j, x, y);
  }

  /** The selection a parser is built with: all catalog entries, in table
      order, when none is given. */
  function SelectedNames(standardFlags: Option<seq<string>>): seq<string> {
    match standardFlags
    case None => StandardFlagNames
    case Some(requested) => requested
  }

  /** Without a selection a parser gets all four catalog flags, in table
      order, and that selection is accepted. */
  lemma DefaultSelection()
    ensures SelectedNames(None) == ["recursive", "dry-run", "yes", "verbose"]
    ensures Validate(SelectedNames(None)).None?
  {
    var names := StandardFlagNames;
    assert names[0][0] != names[1][0] && names[0][0] != names[2][0] && names[0][0] != names[3][0];
    assert names[1][0] != names[2][0] && names[1][0] != names[3][0] && names[2][0] != names[3][0];
    assert AllStandard(names) && Distinct(names);
    ValidateFirstFailure(names, 0);
  }

  /** Why building a parser with a given selection fails. */
  datatype ConfigError =
    | UnknownStandardFlag(name: string)            // raised by the flag-adding loop
    | ConflictingOptionStrings(name: string)       // the option engine refuses a flag added twice

  /** The catalog's keys rendered as a Python list. */
  function QuotedNames(names: seq<string>): string {
    if names == [] then ""
    else if |names| == 1 then "'" + names[0] + "'"
    else "'" + names[0] + "', " + QuotedNames(names[1..])
  }

  /** `list(STANDARD_FLAGS.keys())` as Python prints it. */
  function AvailableList(): string {
    "[" + QuotedNames(StandardFlagNames) + "]"
  }

  /** Every name is offered, quoted, in the list. */
  lemma {:induction false} QuotedNamesContains(names: seq<string>, k: nat)
    requires k < |names|
    ensures ContainsSubstring(QuotedNames(names), "'" + names[k] + "'")
  {
    var q := QuotedNames(names);
    var item := "'" + names[0] + "'";
    if k == 0 {
      assert item <= q[0..];
    } else {
      QuotedNamesContains(names[1..], k - 1);
      var rest := QuotedNames(names[1..]);
      var needle := "'" + names[k] + "'";
      var i :| 0 <= i <= |rest| && needle <= rest[i..];
      assert q == item + ", " + rest;
      var off := |item| + 2;
      assert q[off + i..] == rest[i..];
    }
  }

  /** The available list offers every flag of the catalog, quoted. */
  lemma AvailableOffersAll()
    ensures forall k :: 0 <= k < |StandardFlagNames| ==>
              ContainsSubstring(AvailableList(), "'" + StandardFlagNames[k] + "'")
  {
    var names := StandardFlagNames;
    forall k | 0 <= k < |names|
      ensures ContainsSubstring("[" + QuotedNames(names) + "]", "'" + names[k] + "'")
    {
      QuotedNamesContains(names, k);
      ContainsInMiddle("[", QuotedNames(names), "]", "'" + names[k] + "'");
    }
  }

  /** The unknown-flag message starts by naming the rejected flag and
      offers every flag of the catalog. */
  lemma UnknownFlagMessage(name: string)
    ensures "Unknown standard flag: " + name <= ErrorMessage(UnknownStandardFlag(name))
    ensures forall k :: 0 <= k < |StandardFlagNames| ==>
              ContainsSubstring(ErrorMessage(UnknownStandardFlag(name)), "'" + StandardFlagNames[k] + "'")
  {
    var prefix := "Unknown standard flag: " + name + ". Available: ";
    var message := ErrorMessage(UnknownStandardFlag(name));
    assert message == prefix + AvailableList() + "";
    AvailableOffersAll();
    forall k | 0 <= k < |StandardFlagNames|
      ensures ContainsSubstring(message, "'" + StandardFlagNames[k] + "'")
    {
      ContainsInMiddle(prefix, AvailableList(), "", "'" + StandardFlagNames[k] + "'");
    }
  }

  function ErrorMessage(e: ConfigError): string {
    match e
    case UnknownStandardFlag(n) =>
      "Unknown standard flag: " + n + ". Available: " + AvailableList()
    case ConflictingOptionStrings(n) =>
      var ts := FlagTokens(n);
      if |ts| == 2 then "argument " + ts[0] + "/" + ts[1] + ": conflicting option strings: " + ts[0] + ", " + ts[1]
      else "conflicting option strings"
  }

  predicate AllStandard(names: seq<string>) {
    forall i :: 0 <= i < |names| ==> IsStandardFlag(names[i])
  }

  /** The error the flag-adding loop meets at position `i`, given that the
      positions before it passed. */
  function ErrorAt(names: seq<string>, i: nat): Option<ConfigError>
    requires i < |names|
  {
    if !IsStandardFlag(names[i]) then Some(UnknownStandardFlag(names[i]))
    else if names[i] in names[..i] then Some(ConflictingOptionStrings(names[i]))
    else None
  }

  /** The outcome of adding `names[i..]` after `names[..i]` were added. */
  function ValidateFrom(names: seq<string>, i: nat): Option<ConfigError>
    requires i <= |names|
    decreases |names| - i
  {
    if i == |names| then None
    else if ErrorAt(names, i).Some? then ErrorAt(names, i)
    else ValidateFrom(names, i + 1)
  }

  /** The outcome of configuring a parser with the selection `names`. */
  function Validate(names: seq<string>): Option<ConfigError> {
    ValidateFrom(names, 0)
  }

  /** A selection is accepted iff every name is in the catalog and none is
      repeated; a rejected one is rejected at its first offending position,
      with an unknown name reported as unknown and a repeated one as a
      conflict. */
  lemma {:induction false} ValidateFirstFailure(names: seq<string>, i: nat)
    requires i <= |names|
    requires AllStandard(names[..i]) && Distinct(names[..i])
    ensures ValidateFrom(names, i).None? <==> AllStandard(names) && Distinct(names)
    ensures ValidateFrom(names, i).Some? ==>
              exists k :: i <= k < |names| && AllStandard(names[..k]) && Distinct(names[..k])
                          && ErrorAt(names, k).Some? && ValidateFrom(names, i) == ErrorAt(names, k)
    decreases |names| - i
  {
    if i == |names| {
      assert names[..i] == names;
    } else if ErrorAt(names, i).Some? {
      if !IsStandardFlag(names[i]) {
        assert !AllStandard(names);
      } else {
        var j :| 0 <= j < i && names[..i][j] == names[i];
        assert !Distinct(names);
      }
    } else {
      assert names[..i + 1] == names[..i] + [names[i]];
      ValidateFirstFailure(names, i + 1);
    }
  }

  lemma ExtendDistinct(names: seq<string>, i: nat)
    requires i < |names| && AllStandard(names[..i]) && Distinct(names[..i])
    requires ErrorAt(names, i).None?
    ensures AllStandard(names[..i + 1]) && Distinct(names[..i + 1])
    ensures TokensInOrder(names[..i + 1]) == TokensInOrder(names[..i]) + FlagTokens(names[i])
  {
    assert names[..i + 1] == names[..i] + [names[i]];
    assert names[..i + 1][..i] == names[..i];
    assert TokenLists(names[..i + 1])[..i] == TokenLists(names[..i]);
  }

  /** Each selected name's literals, in selection order. */
  function TokenLists(names: seq<string>): (lists: seq<seq<string>>)
    ensures |lists| == |names| && forall i :: 0 <= i < |names| ==> lists[i] == FlagTokens(names[i])
  {
    seq(|names|, i requires 0 <= i < |names| => FlagTokens(names[i]))
  }

  /** The option strings the standard flags `names` add, in the order they
      are added. */
  function TokensInOrder(names: seq<string>): seq<string> {
    Concat(TokenLists(names))
  }

  /** The literal standard-flag tokens a parser configured with `names`
      accepts: the union of the selected entries' literals. */
  function StandardTokens(names: seq<string>): (tokens: set<string>)
    ensures forall t :: t in tokens <==> exists i :: 0 <= i < |names| && t in FlagTokens(names[i])
    ensures names == [] ==> tokens == {}
  {
    TokensInOrderMembers(names);
    set t | t in TokensInOrder(names)
  }

  lemma TokensInOrderMembers(names: seq<string>)
    ensures forall t :: t in TokensInOrder(names) <==> exists i :: 0 <= i < |names| && t in FlagTokens(names[i])
  {
    ConcatMembers(TokenLists(names));
  }

  /** Among distinct catalog names, a flag's literals are already present
      iff the flag itself was already added. */
  lemma ConflictIffRepeated(prefix: seq<string>, name: string)
    requires AllStandard(prefix) && IsStandardFlag(name)
    ensures (exists t :: t in FlagTokens(name) && t in TokensInOrder(prefix)) <==> name in prefix
  {
    TokensInOrderMembers(prefix);
    if name in prefix {
      var i :| 0 <= i < |prefix| && prefix[i] == name;
      CatalogShape();
      assert FlagTokens(name)[0] in FlagTokens(prefix[i]);
    } else {
      forall t | t in FlagTokens(name) && t in TokensInOrder(prefix) ensures false {
        var i :| 0 <= i < |prefix| && t in FlagTokens(prefix[i]);
        TokenOwner(name, prefix[i], t);
      }
    }
  }

  /** A parser built on the option engine with the standard flags of a
      selection added. */
  class BaseParser {
    var description: Option<string>
    /** The option strings the standard-flag step registered, in order. */
    var options: seq<string>
    /** The selection the parser was built with. */
    var standardFlags: seq<string>

    ghost predicate Valid()
      reads this
    {
      Validate(standardFlags).None? && options == TokensInOrder(standardFlags)
    }

    /** The bare engine, before any flag is added. */
    constructor Init(description: Option<string>)
      ensures this.description == description && options == [] && standardFlags == []
    {
      this.description := description;
      options := [];
      standardFlags := [];
    }

    /** Adds the standard flags `flags` one by one, stopping at the first
        name outside the catalog or the first one whose literals are
        already registered. */
    method AddStandardFlags(flags: seq<string>) returns (err: Option<ConfigError>)
      requires options == []
      modifies this`options
      ensures err == Validate(flags)
      ensures err.None? ==> options == TokensInOrder(flags)
    {
      var i := 0;
      while i < |flags|
        invariant 0 <= i <= |flags|
        invariant AllStandard(flags[..i]) && Distinct(flags[..i])
        invariant options == TokensInOrder(flags[..i])
        invariant ValidateFrom(flags, i) == Validate(flags)
      {
        var name := flags[i];
        var spec := Lookup(name);
        if spec.None? {
          assert ErrorAt(flags, i) == Some(UnknownStandardFlag(name));
          return Some(UnknownStandardFlag(name));
        }
        var conflict := exists t :: t in spec.value.tokens && t in options;
        ConflictIffRepeated(flags[..i], name);
        if conflict {
          assert ErrorAt(flags, i) == Some(ConflictingOptionStrings(name));
          return Some(ConflictingOptionStrings(name));
        }
        assert ErrorAt(flags, i).None?;
        ExtendDistinct(flags, i);
        options := options + spec.value.tokens;
        i := i + 1;
      }
      assert flags[..i] == flags;
      return None;
    }

    /** Builds a parser with the selection `standardFlags` (all catalog
        entries when absent), failing as the flag-adding loop fails. */
    static method New(description: Option<string>, standardFlags: Option<seq<string>>)
      returns (r: Result<BaseParser, ConfigError>)
      ensures r.Failure? <==> Validate(SelectedNames(standardFlags)).Some?
      ensures r.Failure? ==> Some(r.error) == Validate(SelectedNames(standardFlags))
      ensures r.Success? ==> fresh(r.value) && r.value.Valid()
                             && r.value.description == description
                             && r.value.standardFlags == SelectedNames(standardFlags)
    {
      r := Configure(description, SelectedNames(standardFlags));
    }

    /** The rest of construction once the selection is settled: add its
        flags, then record it. */
    static method Configure(description: Option<string>, selection: seq<string>)
      returns (r: Result<BaseParser, ConfigError>)
      ensures r.Failure? <==> Validate(selection).Some?
      ensures r.Failure? ==> Some(r.error) == Validate(selection)
      ensures r.Success? ==> fresh(r.value) && r.value.Valid()
                             && r.value.description == description
                             && r.value.standardFlags == selection
    {
      var parser := new BaseParser.Init(description);
      var err := parser.AddStandardFlags(selection);
      if err.Some? {
        return Failure(err.value);
      }
      parser.standardFlags := selection;
      return Success(parser);
    }

    /** The selection the parser was built with: catalog names, none
        repeated, whose literals are exactly the registered options. */
    function GetStandardFlags(): (names: seq<string>)
      reads this
      requires Valid()
      ensures names == standardFlags
      ensures AllStandard(names) && Distinct(names)
      ensures forall t :: t in options <==> t in StandardTokens(names)
    {
      ValidateFirstFailure(standardFlags, 0);
      standardFlags
    }
  }
}
