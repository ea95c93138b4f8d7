/**
 The outbound frame codec: `escape.quote` in serverConnection.ts. A message is
 JSON-quoted, every code unit of the `extraEscapable` class is then rewritten
 as `\\u` and four lower-case hex digits, and the result is wrapped in `[` `]`
 so that the frame is a one-element JSON array.

 `ParseFrame` is the reading side a peer applies (a JSON array holding one
 string, section 7 of RFC 8259); it is the inverse the round trip is stated
 against.
 */
module Escape {
  import opened Wrappers
  import opened Utf16
  import opened Numerals

  const LOWER_U: CodeUnit := 0x75

  /**
   The `extraEscapable` character class, one disjunct per class item, in the
   order the program lists them: C0 controls, surrogate halves, noncharacters,
   combining and bidi marks, and characters with canonical decompositions.
   The class has no `u` flag, so it matches single UTF-16 code units.
   */
  predicate ExtraEscapable(u: CodeUnit): (b: bool)
    ensures u < 0x20 ==> b
    ensures 0xd800 <= u <= 0xdfff ==> b
    ensures 0x20 <= u < 0x300 ==> !b
  {
    || (0x0000 <= u <= 0x001f)
    || (0xd800 <= u <= 0xdfff)
    || u == 0xfffe
    || u == 0xffff
    || (0x0300 <= u <= 0x0333)
    || (0x033d <= u <= 0x0346)
    || (0x034a <= u <= 0x034c)
    || (0x0350 <= u <= 0x0352)
    || (0x0357 <= u <= 0x0358)
    || (0x035c <= u <= 0x0362)
    || u == 0x0374
    || u == 0x037e
    || u == 0x0387
    || (0x0591 <= u <= 0x05af)
    || u == 0x05c4
    || (0x0610 <= u <= 0x0617)
    || (0x0653 <= u <= 0x0654)
    || (0x0657 <= u <= 0x065b)
    || (0x065d <= u <= 0x065e)
    || (0x06df <= u <= 0x06e2)
    || (0x06eb <= u <= 0x06ec)
    || u == 0x0730
    || (0x0732 <= u <= 0x0733)
    || (0x0735 <= u <= 0x0736)
    || u == 0x073a
    || u == 0x073d
    || (0x073f <= u <= 0x0741)
    || u == 0x0743
    || u == 0x0745
    || u == 0x0747
    || (0x07eb <= u <= 0x07f1)
    || u == 0x0951
    || (0x0958 <= u <= 0x095f)
    || (0x09dc <= u <= 0x09dd)
    || u == 0x09df
    || u == 0x0a33
    || u == 0x0a36
    || (0x0a59 <= u <= 0x0a5b)
    || u == 0x0a5e
    || (0x0b5c <= u <= 0x0b5d)
    || (0x0e38 <= u <= 0x0e39)
    || u == 0x0f43
    || u == 0x0f4d
    || u == 0x0f52
    || u == 0x0f57
    || u == 0x0f5c
    || u == 0x0f69
    || (0x0f72 <= u <= 0x0f76)
    || u == 0x0f78
    || (0x0f80 <= u <= 0x0f83)
    || u == 0x0f93
    || u == 0x0f9d
    || u == 0x0fa2
    || u == 0x0fa7
    || u == 0x0fac
    || u == 0x0fb9
    || (0x1939 <= u <= 0x193a)
    || u == 0x1a17
    || u == 0x1b6b
    || (0x1cda <= u <= 0x1cdb)
    || (0x1dc0 <= u <= 0x1dcf)
    || u == 0x1dfc
    || u == 0x1dfe
    || u == 0x1f71
    || u == 0x1f73
    || u == 0x1f75
    || u == 0x1f77
    || u == 0x1f79
    || u == 0x1f7b
    || u == 0x1f7d
    || u == 0x1fbb
    || u == 0x1fbe
    || u == 0x1fc9
    || u == 0x1fcb
    || u == 0x1fd3
    || u == 0x1fdb
    || u == 0x1fe3
    || u == 0x1feb
    || (0x1fee <= u <= 0x1fef)
    || u == 0x1ff9
    || u == 0x1ffb
    || u == 0x1ffd
    || (0x2000 <= u <= 0x2001)
    || (0x20d0 <= u <= 0x20d1)
    || (0x20d4 <= u <= 0x20d7)
    || (0x20e7 <= u <= 0x20e9)
    || u == 0x2126
    || (0x212a <= u <= 0x212b)
    || (0x2329 <= u <= 0x232a)
    || u == 0x2adc
    || (0x302b <= u <= 0x302c)
    || (0xaab2 <= u <= 0xaab3)
    || (0xf900 <= u <= 0xfa0d)
    || u == 0xfa10
    || u == 0xfa12
    || (0xfa15 <= u <= 0xfa1e)
    || u == 0xfa20
    || u == 0xfa22
    || (0xfa25 <= u <= 0xfa26)
    || (0xfa2a <= u <= 0xfa2d)
    || (0xfa30 <= u <= 0xfa6d)
    || (0xfa70 <= u <= 0xfad9)
    || u == 0xfb1d
    || u == 0xfb1f
    || (0xfb2a <= u <= 0xfb36)
    || (0xfb38 <= u <= 0xfb3c)
    || u == 0xfb3e
    || (0xfb40 <= u <= 0xfb41)
    || (0xfb43 <= u <= 0xfb44)
    || (0xfb46 <= u <= 0xfb4e)
    || (0xfff0 <= u <= 0xffff)
  }

  /** No printable ASCII or Latin-1 unit is escapable: the class skips 0x20 to 0x2ff. */
  lemma EscapableGap(u: CodeUnit)
    ensures ExtraEscapable(u) ==> u < 0x20 || u >= 0x300
  {
  }

  predicate NoEscapable(t: Text) {
    forall i :: 0 <= i < |t| ==> !ExtraEscapable(t[i])
  }

  lemma NoEscapableConcat(a: Text, b: Text)
    requires NoEscapable(a) && NoEscapable(b)
    ensures NoEscapable(a + b)
  {
  }

  /** `\\u` followed by the four lower-case hex digits of `u`. */
  function UnicodeEscape(u: CodeUnit): (e: Text)
    ensures |e| == 6 && e[0] == BACKSLASH && e[1] == LOWER_U
    ensures forall i :: 2 <= i < 6 ==> IsLowerHexDigit(e[i])
    ensures ValueIn(e[2..], 16) == u
    ensures NoEscapable(e)
  {
    var h := Hex4(u);
    assert ([BACKSLASH, LOWER_U] + h)[2..] == h;
    forall i | 0 <= i < 6
      ensures !ExtraEscapable(([BACKSLASH, LOWER_U] + h)[i])
    {
      EscapableGap(([BACKSLASH, LOWER_U] + h)[i]);
    }
    [BACKSLASH, LOWER_U] + h
  }

  /**
   The entry `unrollLookup(extraEscapable)` stores for `u`: present exactly for
   the escapable units, and then `\\u` plus four lower-case hex digits whose
   value is `u`, so no entry contains an escapable unit itself.
   */
  function UnrolledEntry(u: CodeUnit): (e: Option<Text>)
    ensures e.Some? <==> ExtraEscapable(u)
    ensures e.Some? ==> |e.value| == 6 && e.value[..2] == [BACKSLASH, LOWER_U]
    ensures e.Some? ==> forall i :: 2 <= i < 6 ==> IsLowerHexDigit(e.value[i])
    ensures e.Some? ==> ValueIn(e.value[2..], 16) == u
    ensures e.Some? ==> NoEscapable(e.value)
  {
    if ExtraEscapable(u) then Some(UnicodeEscape(u)) else None
  }

  /** `quoted.replace(extraEscapable, a => extraLookup[a])`. */
  function ReplaceEscapable(q: Text): (r: Text)
    ensures NoEscapable(r)
    ensures NoEscapable(q) ==> r == q
    ensures |r| >= |q|
    decreases |q|
  {
    if |q| == 0 then []
    else
      var head := ReplaceUnit(q[0]);
      var tail := ReplaceEscapable(q[1..]);
      NoEscapableConcat(head, tail);
      assert NoEscapable(q) ==> head + tail == [q[0]] + q[1..] == q;
      head + tail
  }

  /** What the replacement writes for one unit: its table entry, or the unit itself. */
  function ReplaceUnit(u: CodeUnit): (e: Text)
    ensures NoEscapable(e)
    ensures !ExtraEscapable(u) ==> e == [u]
    ensures ExtraEscapable(u) ==> e == UnicodeEscape(u) && Some(e) == UnrolledEntry(u)
  {
    if ExtraEscapable(u) then UnrolledEntry(u).value else [u]
  }

  /** A single unit is replaced by its table entry when it has one. */
  lemma ReplaceSingle(u: CodeUnit)
    ensures ReplaceEscapable([u]) == ReplaceUnit(u)
    ensures ExtraEscapable(u) ==> ReplaceEscapable([u]) == UnicodeEscape(u)
  {
    assert [u][1..] == [];
  }

  /** Replacement works unit by unit, so it distributes over concatenation. */
  lemma {:induction false} ReplaceConcat(a: Text, b: Text)
    ensures ReplaceEscapable(a + b) == ReplaceEscapable(a) + ReplaceEscapable(b)
    decreases |a|
  {
    if |a| > 0 {
      assert (a + b)[0] == a[0];
      assert (a + b)[1..] == a[1..] + b;
      ReplaceConcat(a[1..], b);
      var h := ReplaceUnit(a[0]);
      calc {
        ReplaceEscapable(a + b);
        h + ReplaceEscapable(a[1..] + b);
        h + (ReplaceEscapable(a[1..]) + ReplaceEscapable(b));
        (h + ReplaceEscapable(a[1..])) + ReplaceEscapable(b);
        ReplaceEscapable(a) + ReplaceEscapable(b);
      }
    } else {
      assert a + b == b;
    }
  }

  /**
   How `JSON.stringify` writes one unit inside a string literal (section 7 of
   RFC 8259, with the short forms ECMAScript prefers): quote and backslash are
   backslash-escaped, C0 controls take `\\b` `\\t` `\\n` `\\f` `\\r` or `\\u00xx`,
   everything else stands for itself.
   */
  function JsonEscapeUnit(u: CodeUnit): (e: Text)
    ensures |e| == 1 ==> e == [u] && u >= 0x20 && u != QUOTE && u != BACKSLASH
    ensures |e| != 1 ==> NoEscapable(e) && |e| >= 2 && e[0] == BACKSLASH
  {
    if u == QUOTE then BackslashPair(QUOTE)
    else if u == BACKSLASH then BackslashPair(BACKSLASH)
    else if u == 0x08 then BackslashPair(0x62)
    else if u == 0x09 then BackslashPair(0x74)
    else if u == 0x0A then BackslashPair(0x6E)
    else if u == 0x0C then BackslashPair(0x66)
    else if u == 0x0D then BackslashPair(0x72)
    else if u < 0x20 then UnicodeEscape(u)
    else [u]
  }

  /** A backslash followed by a printable ASCII unit. */
  function BackslashPair(c: CodeUnit): (e: Text)
    requires 0x20 <= c < 0x7F
    ensures |e| == 2 && e[0] == BACKSLASH && e[1] == c
    ensures NoEscapable(e)
  {
    EscapableGap(BACKSLASH);
    EscapableGap(c);
    [BACKSLASH, c]
  }

  function JsonQuoteBody(s: Text): Text
    decreases |s|
  {
    if |s| == 0 then [] else JsonEscapeUnit(s[0]) + JsonQuoteBody(s[1..])
  }

  /** `JSON.stringify(s)` for a string `s`. */
  function JsonQuote(s: Text): (q: Text)
    ensures |q| >= 2 && q[0] == QUOTE && q[|q| - 1] == QUOTE
  {
    [QUOTE] + JsonQuoteBody(s) + [QUOTE]
  }

  /**
   `escape.quote(s)`: when the JSON-quoted text has no escapable unit it is
   wrapped as it is (the fast path); in every case the frame is the quoted text
   with every escapable unit replaced, in brackets, and carries no escapable unit.
   */
  function Quote(s: Text): (f: Text)
    ensures f == [LBRACKET] + ReplaceEscapable(JsonQuote(s)) + [RBRACKET]
    ensures NoEscapable(JsonQuote(s)) ==> f == [LBRACKET] + JsonQuote(s) + [RBRACKET]
    ensures NoEscapable(f)
  {
    var quoted := JsonQuote(s);
    EscapableGap(LBRACKET);
    EscapableGap(RBRACKET);
    if NoEscapable(quoted) then
      NoEscapableConcat([LBRACKET], quoted);
      NoEscapableConcat([LBRACKET] + quoted, [RBRACKET]);
      [LBRACKET] + quoted + [RBRACKET]
    else
      var replaced := ReplaceEscapable(quoted);
      NoEscapableConcat([LBRACKET], replaced);
      NoEscapableConcat([LBRACKET] + replaced, [RBRACKET]);
      [LBRACKET] + replaced + [RBRACKET]
  }

  // ---------------------------------------------------------------------
  // The reading side.

  /** The unit a two-character JSON escape `\\c` stands for. */
  function ShortEscape(c: CodeUnit): Option<CodeUnit> {
    if c == QUOTE then Some(QUOTE)
    else if c == BACKSLASH then Some(BACKSLASH)
    else if c == SLASH then Some(SLASH)
    else if c == 0x62 then Some(0x08)
    else if c == 0x74 then Some(0x09)
    else if c == 0x6E then Some(0x0A)
    else if c == 0x66 then Some(0x0C)
    else if c == 0x72 then Some(0x0D)
    else None
  }

  /** The value of four hex digits. */
  function Hex4Value(t: Text): (v: CodeUnit)
    requires |t| == 4
  {
    assert forall i :: 0 <= i < 4 ==> DigitValue(t[i]) < 16;
    4096 * DigitValue(t[0]) + 256 * DigitValue(t[1]) + 16 * DigitValue(t[2]) + DigitValue(t[3])
  }

  lemma Hex4ValueIn(t: Text)
    requires |t| == 4
    ensures Hex4Value(t) == ValueIn(t, 16)
  {
    assert t[..3][..2] == t[..2];
    assert t[..2][..1] == t[..1];
    assert t[..1][..0] == [];
    assert ValueIn(t[..1], 16) == DigitValue(t[0]);
    assert ValueIn(t[..2], 16) == 16 * DigitValue(t[0]) + DigitValue(t[1]);
    assert ValueIn(t[..3], 16) == 256 * DigitValue(t[0]) + 16 * DigitValue(t[1]) + DigitValue(t[2]);
    assert t[..4] == t;
  }

  function Prepend(u: CodeUnit, rest: Option<Text>): Option<Text> {
    match rest
    case None => None
    case Some(t) => Some([u] + t)
  }

  /** Decodes the text between the quotes of a JSON string literal. */
  function DecodeBody(t: Text): Option<Text>
    decreases |t|
  {
    if |t| == 0 then Some([])
    else if t[0] == QUOTE || t[0] < 0x20 then None
    else if t[0] != BACKSLASH then Prepend(t[0], DecodeBody(t[1..]))
    else if |t| < 2 then None
    else
      match ShortEscape(t[1])
      case Some(u) => Prepend(u, DecodeBody(t[2..]))
      case None =>
        if t[1] == LOWER_U && |t| >= 6 && (forall i :: 2 <= i < 6 ==> IsHexDigit(t[i])) then
          Prepend(Hex4Value(t[2..6]), DecodeBody(t[6..]))
        else None
  }

  /** `JSON.parse` of a JSON string literal. */
  function ParseString(t: Text): Option<Text> {
    if |t| >= 2 && t[0] == QUOTE && t[|t| - 1] == QUOTE then DecodeBody(t[1..|t| - 1]) else None
  }

  /** `JSON.parse` of a frame holding a one-element array of a string, without white space. */
  function ParseFrame(f: Text): Option<Text> {
    if |f| >= 2 && f[0] == LBRACKET && f[|f| - 1] == RBRACKET then ParseString(f[1..|f| - 1]) else None
  }

  lemma DecodeUnicodeEscape(u: CodeUnit, rest: Text)
    ensures DecodeBody(UnicodeEscape(u) + rest) == Prepend(u, DecodeBody(rest))
  {
    var e := UnicodeEscape(u);
    var t := e + rest;
    assert t[..6] == e;
    assert t[2..6] == e[2..];
    assert t[6..] == rest;
    Hex4ValueIn(e[2..]);
  }

  /** A JSON decoder reads one escaped unit back, whatever follows it. */
  lemma DecodeJsonUnit(u: CodeUnit, rest: Text)
    ensures DecodeBody(JsonEscapeUnit(u) + rest) == Prepend(u, DecodeBody(rest))
  {
    var e := JsonEscapeUnit(u);
    if |e| != 1 {
      if u < 0x20 && u != 0x08 && u != 0x09 && u != 0x0A && u != 0x0C && u != 0x0D {
        DecodeUnicodeEscape(u, rest);
      } else {
        assert |e| == 2;
        assert (e + rest)[2..] == rest;
      }
    } else {
      assert (e + rest)[1..] == rest;
    }
  }

  /** `JSON.parse(JSON.stringify(s))` is `s`: decoding the quoted body, before any replacement, gives the units back. */
  lemma {:induction false} StringifyRoundTrip(s: Text)
    ensures DecodeBody(JsonQuoteBody(s)) == Some(s)
    ensures ParseString(JsonQuote(s)) == Some(s)
    decreases |s|
  {
    if |s| > 0 {
      StringifyRoundTrip(s[1..]);
      DecodeJsonUnit(s[0], JsonQuoteBody(s[1..]));
      calc {
        DecodeBody(JsonQuoteBody(s));
        DecodeBody(JsonEscapeUnit(s[0]) + JsonQuoteBody(s[1..]));
        Prepend(s[0], Some(s[1..]));
        { HeadTail(s); }
        Some(s);
      }
    }
    ParseQuoted(JsonQuoteBody(s));
  }

  lemma DecodeEscapedUnit(u: CodeUnit, rest: Text)
    ensures DecodeBody(ReplaceEscapable(JsonEscapeUnit(u)) + rest) == Prepend(u, DecodeBody(rest))
  {
    var e := JsonEscapeUnit(u);
    if |e| != 1 {
      assert ReplaceEscapable(e) == e;
      if u < 0x20 && u != 0x08 && u != 0x09 && u != 0x0A && u != 0x0C && u != 0x0D {
        DecodeUnicodeEscape(u, rest);
      } else {
        assert |e| == 2;
        assert (e + rest)[2..] == rest;
      }
    } else if ExtraEscapable(u) {
      ReplaceSingle(u);
      DecodeUnicodeEscape(u, rest);
    } else {
      assert e[1..] == [];
      assert ReplaceEscapable(e) == e;
      assert (e + rest)[1..] == rest;
    }
  }

  lemma HeadTail(s: Text)
    requires |s| > 0
    ensures [s[0]] + s[1..] == s
  {
  }

  lemma {:induction false} BodyRoundTrip(s: Text)
    ensures DecodeBody(ReplaceEscapable(JsonQuoteBody(s))) == Some(s)
    decreases |s|
  {
    if |s| > 0 {
      var tail := ReplaceEscapable(JsonQuoteBody(s[1..]));
      ReplaceConcat(JsonEscapeUnit(s[0]), JsonQuoteBody(s[1..]));
      BodyRoundTrip(s[1..]);
      DecodeEscapedUnit(s[0], tail);
      calc {
        DecodeBody(ReplaceEscapable(JsonQuoteBody(s)));
        DecodeBody(ReplaceEscapable(JsonEscapeUnit(s[0]) + JsonQuoteBody(s[1..])));
        DecodeBody(ReplaceEscapable(JsonEscapeUnit(s[0])) + tail);
        Prepend(s[0], DecodeBody(tail));
        Prepend(s[0], Some(s[1..]));
        { HeadTail(s); }
        Some(s);
      }
    }
  }

  /** The quotes around a JSON string are never replaced. */
  lemma ReplaceQuoted(s: Text)
    ensures ReplaceEscapable(JsonQuote(s)) == [QUOTE] + ReplaceEscapable(JsonQuoteBody(s)) + [QUOTE]
  {
    var body := JsonQuoteBody(s);
    EscapableGap(QUOTE);
    ReplaceConcat([QUOTE] + body, [QUOTE]);
    ReplaceConcat([QUOTE], body);
    assert ReplaceEscapable([QUOTE]) == [QUOTE];
  }

  /** Parsing a frame strips its brackets. */
  lemma ParseBracketed(q: Text)
    ensures ParseFrame([LBRACKET] + q + [RBRACKET]) == ParseString(q)
  {
    var f := [LBRACKET] + q + [RBRACKET];
    assert f[1..|f| - 1] == q;
  }

  /** Parsing a string literal decodes what lies between its quotes. */
  lemma ParseQuoted(r: Text)
    ensures ParseString([QUOTE] + r + [QUOTE]) == DecodeBody(r)
  {
    var t := [QUOTE] + r + [QUOTE];
    assert t[1..|t| - 1] == r;
  }

  /** A peer that parses a frame `quote` produced recovers the message exactly, lone surrogates included. */
  lemma QuoteRoundTrip(s: Text)
    ensures ParseFrame(Quote(s)) == Some(s)
  {
    var replaced := ReplaceEscapable(JsonQuoteBody(s));
    ReplaceQuoted(s);
    ParseBracketed(ReplaceEscapable(JsonQuote(s)));
    ParseQuoted(replaced);
    BodyRoundTrip(s);
  }

  /** Distinct messages give distinct frames. */
  lemma QuoteInjective(a: Text, b: Text)
    requires Quote(a) == Quote(b)
    ensures a == b
  {
    QuoteRoundTrip(a);
    QuoteRoundTrip(b);
  }
}
