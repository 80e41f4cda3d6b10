/** String and sequence helpers standing in for the Python built-ins the
    core relies on: `str.startswith`, `in`, `str.split`, f-string integer
    formatting and `str.join`. */
module Text {

  /** Python's `s.startswith('-')`. */
  predicate StartsWithDash(s: string) {
    |s| > 0 && s[0] == '-'
  }

  /** Python's `s.split(c)[0]`: the text before the first `c`, or all of `s`. */
  function BeforeFirst(s: string, c: char): (r: string)
    ensures r <= s
    ensures c !in r
    ensures c in s ==> |r| < |s| && s[|r|] == c
    ensures c !in s ==> r == s
  {
    s[..IndexFrom(s, c, 0)]
  }

  /** The first position at or after `i` holding `c`, or `|s|` when none does. */
  function IndexFrom(s: string, c: char, i: nat): (k: nat)
    requires i <= |s|
    ensures i <= k <= |s|
    ensures forall j :: i <= j < k ==> s[j] != c
    ensures k < |s| ==> s[k] == c
    decreases |s| - i
  {
    if i == |s| then i else if s[i] == c then i else IndexFrom(s, c, i + 1)
  }

  /** `s.split(c)`: the pieces of `s` between occurrences of `c`. */
  function Split(s: string, c: char): (r: seq<string>)
    ensures |r| > 0
    ensures forall k :: 0 <= k < |r| ==> c !in r[k]
    decreases |s|
  {
    var head := BeforeFirst(s, c);
    if c !in s then [s] else [head] + Split(s[|head| + 1..], c)
  }

  /** `sep.join(parts)` for a one-character separator. */
  function Join(parts: seq<string>, sep: char): string {
    if parts == [] then ""
    else if |parts| == 1 then parts[0]
    else parts[0] + [sep] + Join(parts[1..], sep)
  }

  /** Splitting what was joined gives back the pieces, provided there is at
      least one piece and none contains the separator. */
  lemma {:induction false} SplitJoin(parts: seq<string>, sep: char)
    requires |parts| > 0
    requires forall k :: 0 <= k < |parts| ==> sep !in parts[k]
    ensures Split(Join(parts, sep), sep) == parts
  {
    if |parts| == 1 {
    } else {
      var s := Join(parts, sep);
      var rest := Join(parts[1..], sep);
      assert s == parts[0] + [sep] + rest;
      BeforeFirstOfJoin(parts[0], sep, rest);
      assert s[|parts[0]| + 1..] == rest;
      SplitJoin(parts[1..], sep);
    }
  }

  lemma {:induction false} BeforeFirstOfJoin(a: string, c: char, b: string)
    requires c !in a
    ensures BeforeFirst(a + [c] + b, c) == a
  {
    if a == [] {
      assert (a + [c] + b)[0] == c;
    } else {
      assert (a + [c] + b)[1..] == a[1..] + [c] + b;
      BeforeFirstOfJoin(a[1..], c, b);
    }
  }

  /** The first line of a `"\n".join(lines)` text is the first line given. */
  lemma FirstLineOfJoin(parts: seq<string>)
    requires |parts| > 0 && '\n' !in parts[0]
    ensures BeforeFirst(Join(parts, '\n'), '\n') == parts[0]
  {
    if |parts| > 1 {
      BeforeFirstOfJoin(parts[0], '\n', Join(parts[1..], '\n'));
    }
  }

  function DigitChar(d: nat): (c: char)
    requires d < 10
    ensures '0' <= c <= '9' && c as int - '0' as int == d
  {
    "0123456789"[d]
  }

  predicate IsDigits(s: string) {
    forall k :: 0 <= k < |s| ==> '0' <= s[k] <= '9'
  }

  /** The number a string of decimal digits denotes. */
  function DigitsValue(s: string): nat
    requires IsDigits(s)
  {
    if s == [] then 0
    else DigitsValue(s[..|s| - 1]) * 10 + (s[|s| - 1] as int - '0' as int)
  }

  /** Python's `f"{n}"` for a non-negative integer. */
  function NatToString(n: nat): (r: string)
    ensures |r| > 0 && IsDigits(r)
    ensures r[0] == '0' ==> n == 0
  {
    if n < 10 then [DigitChar(n)] else NatToString(n / 10) + [DigitChar(n % 10)]
  }

  /** The decimal text of `n` reads back as `n`. */
  lemma {:induction false} NatToStringRoundTrip(n: nat)
    ensures DigitsValue(NatToString(n)) == n
  {
    if n >= 10 {
      var s := NatToString(n);
      assert s[..|s| - 1] == NatToString(n / 10);
      NatToStringRoundTrip(n / 10);
    }
  }

  /** Python's `needle in haystack` for strings. */
  predicate ContainsSubstring(haystack: string, needle: string) {
    exists i :: 0 <= i <= |haystack| && needle <= haystack[i..]
  }

  /** A substring of the middle part is a substring of the whole. */
  lemma ContainsInMiddle(a: string, b: string, c: string, needle: string)
    requires ContainsSubstring(b, needle)
    ensures ContainsSubstring(a + b + c, needle)
  {
    var i :| 0 <= i <= |b| && needle <= b[i..];
    assert (a + b + c)[|a| + i..] == b[i..] + c;
  }

  /** No element occurs twice. */
  predicate Distinct<T(==)>(s: seq<T>) {
    forall i, j :: 0 <= i < j < |s| ==> s[i] != s[j]
  }

  /** The concatenation of a sequence of sequences, in order. */
  function Concat<T>(parts: seq<seq<T>>): seq<T> {
    if parts == [] then [] else Concat(parts[..|parts| - 1]) + parts[|parts| - 1]
  }

  /** Concatenating two pieces is appending them. */
  lemma ConcatTwo<T>(p: seq<T>, q: seq<T>)
    ensures Concat([p, q]) == p + q
  {
    var parts := [p, q];
    assert parts[..1] == [p] && [p][..0] == [];
    calc {
      Concat(parts);
      Concat([p]) + q;
      (Concat([]) + p) + q;
      p + q;
    }
  }

  lemma {:induction false} ConcatMembers<T>(parts: seq<seq<T>>)
    ensures forall x :: x in Concat(parts) <==> exists i :: 0 <= i < |parts| && x in parts[i]
  {
    if parts != [] {
      var init := parts[..|parts| - 1];
      ConcatMembers(init);
      assert forall i :: 0 <= i < |init| ==> init[i] == parts[i];
    }
  }

  /** `sub` keeps some of the elements of `s`, in their original order. */
  predicate IsSubsequence<T(==)>(sub: seq<T>, s: seq<T>)
    decreases |s|
  {
    if sub == [] then true
    else if s == [] then false
    else if sub[0] == s[0] then IsSubsequence(sub[1..], s[1..])
    else IsSubsequence(sub, s[1..])
  }

  lemma {:induction false} SubsequenceLength<T>(sub: seq<T>, s: seq<T>)
    requires IsSubsequence(sub, s)
    ensures |sub| <= |s|
    decreases |s|
  {
    if sub != [] {
      if sub[0] == s[0] {
        SubsequenceLength(sub[1..], s[1..]);
      } else {
        SubsequenceLength(sub, s[1..]);
      }
    }
  }

  lemma {:induction false} SubsequenceMembers<T>(sub: seq<T>, s: seq<T>, x: T)
    requires IsSubsequence(sub, s) && x in sub
    ensures x in s
    decreases |s|
  {
    if sub[0] == s[0] {
      if x != sub[0] {
        SubsequenceMembers(sub[1..], s[1..], x);
      }
    } else {
      SubsequenceMembers(sub, s[1..], x);
    }
  }

  lemma {:induction false} SubsequenceRefl<T>(s: seq<T>)
    ensures IsSubsequence(s, s)
  {
    if s != [] {
      SubsequenceRefl(s[1..]);
    }
  }

  /** Dropping an element in front of the larger sequence keeps the relation. */
  lemma {:induction false} SubsequencePrepend<T>(a: seq<T>, x: T, b: seq<T>)
    requires IsSubsequence(a, b)
    ensures IsSubsequence(a, [x] + b)
    decreases |b|
  {
    assert ([x] + b)[1..] == b;
    if a != [] && a[0] == x {
      if a[0] == b[0] {
        SubsequencePrepend(a[1..], b[0], b[1..]);
      } else {
        SubsequencePrepend(a, x, b[1..]);
        assert ([x] + b[1..])[1..] == b[1..];
        SubsequencePrepend(a[1..], b[0], b[1..]);
      }
      assert [b[0]] + b[1..] == b;
    }
  }

  /** Any sequence may be put in front of the larger sequence. */
  lemma {:induction false} SubsequencePrependAll<T>(a: seq<T>, p: seq<T>, b: seq<T>)
    requires IsSubsequence(a, b)
    ensures IsSubsequence(a, p + b)
  {
    if p == [] {
      assert p + b == b;
    } else {
      SubsequencePrependAll(a, p[1..], b);
      SubsequencePrepend(a, p[0], p[1..] + b);
      assert [p[0]] + (p[1..] + b) == p + b;
    }
  }

  /** A common prefix may be added to both sides. */
  lemma {:induction false} SubsequenceCons<T>(p: seq<T>, a: seq<T>, b: seq<T>)
    requires IsSubsequence(a, b)
    ensures IsSubsequence(p + a, p + b)
  {
    if p == [] {
      assert p + a == a && p + b == b;
    } else {
      SubsequenceCons(p[1..], a, b);
      assert (p + a)[0] == (p + b)[0];
      assert (p + a)[1..] == p[1..] + a;
      assert (p + b)[1..] == p[1..] + b;
    }
  }

  /** An element may be added after the larger sequence. */
  lemma {:induction false} SubsequenceAppend<T>(a: seq<T>, b: seq<T>, x: T)
    requires IsSubsequence(a, b)
    ensures IsSubsequence(a, b + [x])
    decreases |b|
  {
    if a != [] {
      assert (b + [x])[1..] == b[1..] + [x];
      if a[0] == b[0] {
        SubsequenceAppend(a[1..], b[1..], x);
      } else {
        SubsequenceAppend(a, b[1..], x);
      }
    }
  }

  /** A common element may be added after both sides. */
  lemma {:induction false} SubsequenceAppendBoth<T>(a: seq<T>, b: seq<T>, x: T)
    requires IsSubsequence(a, b)
    ensures IsSubsequence(a + [x], b + [x])
    decreases |b|
  {
    if b == [] {
      assert a + [x] == [x] && b + [x] == [x];
      SubsequenceRefl([x]);
    } else if a == [] {
      assert a + [x] == [x];
      SubsequenceRefl([x]);
      SubsequencePrependAll([x], b, [x]);
    } else {
      assert (a + [x])[1..] == a[1..] + [x];
      assert (b + [x])[1..] == b[1..] + [x];
      if a[0] == b[0] {
        SubsequenceAppendBoth(a[1..], b[1..], x);
      } else {
        SubsequenceAppendBoth(a, b[1..], x);
      }
    }
  }
}
