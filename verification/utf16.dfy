/**
 JavaScript strings as sequences of UTF-16 code units, with the handful of
 `String.prototype` operations the transport relies on: `indexOf` for one
 unit, `startsWith` (written `indexOf(p) === 0` in the program), `split(' ')`
 and `toLowerCase`.
 */
module Utf16 {
  import opened Wrappers

  /** One UTF-16 code unit. Lone surrogate halves are ordinary values here. */
  type CodeUnit = u: int | 0 <= u < 0x1_0000

  /** A JavaScript string. */
  type Text = seq<CodeUnit>

  const SPACE: CodeUnit := 0x20
  const QUOTE: CodeUnit := 0x22
  const PLUS: CodeUnit := 0x2B
  const MINUS: CodeUnit := 0x2D
  const SLASH: CodeUnit := 0x2F
  const COLON: CodeUnit := 0x3A
  const LBRACKET: CodeUnit := 0x5B
  const BACKSLASH: CodeUnit := 0x5C
  const RBRACKET: CodeUnit := 0x5D

  /** A string literal of the program, code unit by code unit (every literal used is ASCII). */
  function Lit(s: string): (t: Text)
    ensures |t| == |s|
    ensures forall i :: 0 <= i < |s| ==> t[i] == (s[i] as int) % 0x1_0000
  {
    seq(|s|, i requires 0 <= i < |s| => (s[i] as int) % 0x1_0000)
  }

  /** The units of two literals written one after the other. */
  lemma LitConcat(a: string, b: string)
    ensures Lit(a + b) == Lit(a) + Lit(b)
  {
    assert forall i :: 0 <= i < |a| + |b| ==> Lit(a + b)[i] == (Lit(a) + Lit(b))[i];
  }

  /** `s.indexOf(u)` for a one-unit needle, with -1 written as None. */
  function IndexOf(s: Text, u: CodeUnit): (r: Option<nat>)
    ensures r.None? <==> u !in s
    ensures r.Some? ==> r.value < |s| && s[r.value] == u && u !in s[..r.value]
  {
    if |s| == 0 then None
    else if s[0] == u then Some(0)
    else
      match IndexOf(s[1..], u)
      case None => None
      case Some(i) =>
        assert s[..i + 1] == [s[0]] + s[1..][..i];
        Some(i + 1)
  }

  /** The first `u` of `a + [u] + b` is the one after `a` when `a` holds none. */
  lemma {:induction false} IndexOfAfter(a: Text, u: CodeUnit, b: Text)
    requires u !in a
    ensures IndexOf(a + [u] + b, u) == Some(|a|)
    decreases |a|
  {
    if |a| > 0 {
      assert (a + [u] + b)[1..] == a[1..] + [u] + b;
      IndexOfAfter(a[1..], u, b);
    }
  }

  /** `s.indexOf(p) === 0`. */
  predicate StartsWith(s: Text, p: Text) {
    |p| <= |s| && s[..|p|] == p
  }

  /** Glues `parts` back together with `sep` between neighbours. */
  function Join(parts: seq<Text>, sep: CodeUnit): Text
    requires |parts| >= 1
  {
    if |parts| == 1 then parts[0] else parts[0] + [sep] + Join(parts[1..], sep)
  }

  /**
   `s.split(sep)` for a one-unit separator: every occurrence splits, so
   neighbouring separators give empty fields and the result is never empty.
   */
  function Split(s: Text, sep: CodeUnit): (parts: seq<Text>)
    ensures |parts| >= 1
    ensures forall k :: 0 <= k < |parts| ==> sep !in parts[k]
    ensures Join(parts, sep) == s
    decreases |s|
  {
    match IndexOf(s, sep)
    case None => [s]
    case Some(i) =>
      var rest := Split(s[i + 1..], sep);
      assert s == s[..i] + [sep] + s[i + 1..];
      [s[..i]] + rest
  }

  /** Splitting a separator-free join gives the parts back: Split is the inverse of Join. */
  lemma {:induction false} SplitJoin(parts: seq<Text>, sep: CodeUnit)
    requires |parts| >= 1
    requires forall k :: 0 <= k < |parts| ==> sep !in parts[k]
    ensures Split(Join(parts, sep), sep) == parts
    decreases |parts|
  {
    if |parts| > 1 {
      var s := Join(parts, sep);
      var rest := Join(parts[1..], sep);
      assert s == parts[0] + [sep] + rest;
      assert s[|parts[0]|] == sep;
      assert s[..|parts[0]|] == parts[0];
      assert IndexOf(s, sep) == Some(|parts[0]|);
      assert s[|parts[0]| + 1..] == rest;
      SplitJoin(parts[1..], sep);
    }
  }

  /** `s.split(sep)[k]`, None where JavaScript yields `undefined`. */
  function Field(s: Text, sep: CodeUnit, k: nat): Option<Text> {
    var parts := Split(s, sep);
    if k < |parts| then Some(parts[k]) else None
  }

  /** Field `k` of a separator-free join is part `k`. */
  lemma FieldOfJoin(parts: seq<Text>, sep: CodeUnit, k: nat)
    requires |parts| >= 1 && k < |parts|
    requires forall j :: 0 <= j < |parts| ==> sep !in parts[j]
    ensures Field(Join(parts, sep), sep, k) == Some(parts[k])
  {
    SplitJoin(parts, sep);
  }

  /** Prefixing separator-free parts keeps every part separator-free. */
  lemma CleanParts(front: seq<Text>, more: seq<Text>, sep: CodeUnit)
    requires forall j :: 0 <= j < |front| ==> sep !in front[j]
    requires forall j :: 0 <= j < |more| ==> sep !in more[j]
    ensures forall j :: 0 <= j < |front + more| ==> sep !in (front + more)[j]
  {
    forall j | 0 <= j < |front + more|
      ensures sep !in (front + more)[j]
    {
      if j >= |front| {
        assert (front + more)[j] == more[j - |front|];
      }
    }
  }

  /** `toLowerCase` on one unit, restricted to ASCII letters. */
  function LowerUnit(u: CodeUnit): CodeUnit {
    if IsUpperAscii(u) then u + 0x20 else u
  }

  predicate IsUpperAscii(u: CodeUnit) {
    0x41 <= u <= 0x5A
  }

  /** `s.toLowerCase()` restricted to ASCII letters. */
  function Lower(s: Text): (r: Text)
    ensures |r| == |s|
    ensures forall i :: 0 <= i < |s| ==> !IsUpperAscii(r[i])
    ensures forall i :: 0 <= i < |s| && !IsUpperAscii(s[i]) ==> r[i] == s[i]
    ensures forall i :: 0 <= i < |s| && IsUpperAscii(s[i]) ==> r[i] == s[i] + 0x20
  {
    seq(|s|, i requires 0 <= i < |s| => LowerUnit(s[i]))
  }

  /** Lower-casing twice is lower-casing once, so a lower-cased address is its own key. */
  lemma LowerIdempotent(s: Text)
    ensures Lower(Lower(s)) == Lower(s)
  {
    assert forall i :: 0 <= i < |s| ==> Lower(Lower(s))[i] == Lower(s)[i];
  }
}
