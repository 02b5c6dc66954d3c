/** The strings of RFC 8259 section 7, from the value to the text.

A code point may be written as itself, by a two-letter escape, or by `\u` and four hexadecimal digits of either
case; one beyond four digits also by two such escapes, its surrogates. What the parser accepts is exactly that. */
module JsonStrings {
  import opened Text
  import opened Json

  // ---------------------------------------------------------------- how a code point may be written

  /** The letter of a two-letter escape. */
  function Letter(u: int): Option<char> {
    if u == 0x22 then Some('"')
    else if u == 0x5c then Some('\\')
    else if u == 0x2f then Some('/')
    else if u == 0x08 then Some('b')
    else if u == 0x09 then Some('t')
    else if u == 0x0a then Some('n')
    else if u == 0x0c then Some('f')
    else if u == 0x0d then Some('r')
    else None
  }

  predicate IsHexOf(c: char, d: int) {
    (0 <= d < 10 && c as int == '0' as int + d)
    || (10 <= d < 16 && (c as int == 'a' as int + (d - 10) || c as int == 'A' as int + (d - 10)))
  }

  predicate WritesHex(w: string, u: int) {
    && |w| == 6 && w[0] == '\\' && w[1] == 'u' && 0 <= u < 0x10000
    && IsHexOf(w[2], u / 0x1000) && IsHexOf(w[3], u % 0x1000 / 0x100)
    && IsHexOf(w[4], u % 0x1000 % 0x100 / 0x10) && IsHexOf(w[5], u % 0x1000 % 0x100 % 0x10)
  }

  predicate WritesLetter(w: string, u: int) {
    |w| == 2 && w[0] == '\\' && Letter(u) == Some(w[1])
  }

  /** Control characters, the quote and the backslash must be escaped. */
  predicate WritesRaw(w: string, u: int) {
    |w| == 1 && w[0] as int == u && u >= 0x20 && w[0] != '"' && w[0] != '\\'
  }

  predicate WritesUnit(w: string, u: int) {
    WritesRaw(w, u) || WritesLetter(w, u) || WritesHex(w, u)
  }

  function High(c: int): int {
    0xd800 + (c - 0x10000) / 0x400
  }

  function Low(c: int): int {
    0xdc00 + (c - 0x10000) % 0x400
  }

  predicate WritesPair(w: string, c: int) {
    |w| == 12 && 0x10000 <= c < 0x110000 && WritesHex(w[..6], High(c)) && WritesHex(w[6..], Low(c))
  }

  predicate WritesPoint(w: string, c: int) {
    WritesUnit(w, c) || WritesPair(w, c)
  }

  predicate IsHigh(c: int) {
    0xd800 <= c < 0xdc00
  }

  predicate IsLow(c: int) {
    0xdc00 <= c < 0xe000
  }

  /** Code points, without a high surrogate right before a low one: the strings that a JSON text can denote. */
  predicate Encodable(s: Str) {
    s == [] || (0 <= s[0] < 0x110000 && !(|s| > 1 && IsHigh(s[0]) && IsLow(s[1])) && Encodable(s[1..]))
  }

  /** The string piece by piece. */
  predicate Writes(ws: seq<string>, s: Str) {
    |ws| == |s| && Encodable(s) && forall i | 0 <= i < |ws| :: WritesPoint(ws[i], s[i])
  }

  function Cat(ws: seq<string>): string {
    if ws == [] then "" else ws[0] + Cat(ws[1..])
  }

  function InQuotes(w: string): string {
    "\"" + w + "\""
  }

  // ---------------------------------------------------------------- steps of the parser

  lemma AtOne(t: string, i: nat, c: char)
    ensures At(t, i, [c]) <==> i < |t| && t[i] == c
  {
    if At(t, i, [c]) { assert t[i + 0] == [c][0]; }
  }

  lemma SliceIs(t: string, i: nat, w: string)
    ensures At(t, i, w) <==> i + |w| <= |t| && t[i..i + |w|] == w
  {
    if i + |w| <= |t| && t[i..i + |w|] == w {
      forall x | 0 <= x < |w| ensures t[i + x] == w[x] { assert t[i..i + |w|][x] == w[x]; }
    }
    if At(t, i, w) {
      forall x | 0 <= x < |w| ensures t[i..i + |w|][x] == w[x] { assert t[i + x] == w[x]; }
    }
  }

  lemma CharsEnd(t: string, i: nat)
    requires i < |t| && t[i] == '"'
    ensures ParseChars(t, i) == Good([], i + 1)
  {
  }

  lemma CharsStep(t: string, i: nat, u: int, us: Str)
    requires i < |t| && t[i] != '"' && ParseChar(t, i).Good? && ParseChar(t, i).value == u
    requires ParseChars(t, ParseChar(t, i).end).Good? && ParseChars(t, ParseChar(t, i).end).value == us
    ensures ParseChars(t, i) == Good([u] + us, ParseChars(t, ParseChar(t, i).end).end)
  {
    hide ParseChar;
  }

  /** A hexadecimal digit is read as its value, and nothing else is read as one. */
  lemma HexIff(c: char, d: int)
    ensures IsHexOf(c, d) <==> HexDigit(c) == Some(d)
  {
  }

  lemma LetterIff(c: char, u: int)
    ensures Letter(u) == Some(c) <==> SimpleEscape(c) == Some(u)
  {
  }

  lemma HexSum(a: nat, b: nat, c: nat, d: nat)
    requires a < 16 && b < 16 && c < 16 && d < 16
    ensures var u := 0x1000 * a + 0x100 * b + 0x10 * c + d;
      && 0 <= u < 0x10000 && u / 0x1000 == a && u % 0x1000 / 0x100 == b
      && u % 0x1000 % 0x100 / 0x10 == c && u % 0x1000 % 0x100 % 0x10 == d
  {
    var low, byte := 0x100 * b + 0x10 * c + d, 0x10 * c + d;
    assert (0x1000 * a + low) % 0x1000 == low && (0x100 * b + byte) % 0x100 == byte;
  }

  lemma Hex4Iff(t: string, i: nat, u: int)
    requires i + 6 <= |t| && t[i] == '\\' && t[i + 1] == 'u'
    ensures Hex4(t, i + 2) == Some(u) <==> WritesHex(t[i..i + 6], u)
  {
    hide HexDigit, IsHexOf;
    var w := t[i..i + 6];
    assert w[2] == t[i + 2] && w[3] == t[i + 3] && w[4] == t[i + 4] && w[5] == t[i + 5];
    HexRange();
    if Hex4(t, i + 2).Some? {
      HexSum(HexDigit(w[2]).value, HexDigit(w[3]).value, HexDigit(w[4]).value, HexDigit(w[5]).value);
    }
    if WritesHex(w, u) { HexDigits(u); }
  }

  lemma HexDigits(u: nat)
    requires u < 0x10000
    ensures 0 <= u / 0x1000 < 16 && 0 <= u % 0x1000 / 0x100 < 16
    ensures 0 <= u % 0x1000 % 0x100 / 0x10 < 16 && 0 <= u % 0x1000 % 0x100 % 0x10 < 16
    ensures 0x1000 * (u / 0x1000) + 0x100 * (u % 0x1000 / 0x100) + 0x10 * (u % 0x1000 % 0x100 / 0x10)
          + u % 0x1000 % 0x100 % 0x10 == u
  {
  }

  lemma HexRange()
    ensures forall c: char, d :: IsHexOf(c, d) <==> HexDigit(c) == Some(d)
    ensures forall c: char :: HexDigit(c).Some? ==> 0 <= HexDigit(c).value < 16
  {
    forall c: char, d ensures IsHexOf(c, d) <==> HexDigit(c) == Some(d) { HexIff(c, d); }
  }

  /** One step of the parser reads exactly what may be written for one unit. */
  lemma CharIff(t: string, i: nat, u: int, e: nat)
    requires i < |t| && t[i] != '"'
    ensures ParseChar(t, i) == Good(u, e) <==> i < e <= |t| && WritesUnit(t[i..e], u)
  {
    hide Letter, SimpleEscape, Hex4, WritesHex;
    if t[i] == '\\' && i + 1 < |t| { LetterIff(t[i + 1], u); }
    if t[i] == '\\' && i + 6 <= |t| && t[i + 1] == 'u' { Hex4Iff(t, i, u); }
    HexHead();
  }

  lemma HexHead()
    ensures forall w: string, u :: WritesHex(w, u) ==> |w| == 6 && w[0] == '\\' && w[1] == 'u'
    ensures forall u :: Letter(u) != Some('u')
  {
  }

  // ---------------------------------------------------------------- from the value to the text and back

  /** The units that the parser finds in the pieces, before it joins surrogates. */
  function UnitsOf(ws: seq<string>, s: Str): Str
    requires |ws| == |s|
  {
    if ws == [] then []
    else (if |ws[0]| == 12 then [High(s[0]), Low(s[0])] else [s[0]]) + UnitsOf(ws[1..], s[1..])
  }

  lemma UnitRead(t: string, i: nat, w: string, u: int, rest: string)
    requires WritesUnit(w, u) && At(t, i, w + rest)
    ensures i < |t| && t[i] != '"' && ParseChar(t, i) == Good(u, i + |w|) && At(t, i + |w|, rest)
  {
    hide WritesHex, Letter, ParseChar, At;
    HexHead();
    AtSplit(t, i, w, rest);
    SliceIs(t, i, w);
    AtStarts(t, i, w);
    CharIff(t, i, u, i + |w|);
  }

  lemma WritesRest(ws: seq<string>, s: Str)
    requires Writes(ws, s) && ws != []
    ensures |ws| == |s| && Writes(ws[1..], s[1..]) && WritesPoint(ws[0], s[0])
  {
    hide WritesPoint;
  }

  lemma {:induction false} CharsRead(t: string, i: nat, ws: seq<string>, s: Str)
    requires Writes(ws, s) && At(t, i, Cat(ws) + "\"")
    ensures ParseChars(t, i) == Good(UnitsOf(ws, s), i + |Cat(ws)| + 1)
    decreases |ws|
  {
    hide ParseChar, ParseChars, At, WritesUnit, WritesHex, Writes, High, Low;
    if ws == [] {
      assert Cat(ws) + "\"" == "\"";
      AtOne(t, i, '"');
      CharsEnd(t, i);
    } else {
      WritesRest(ws, s);
      var w, rest := ws[0], Cat(ws[1..]) + "\"";
      assert Cat(ws) + "\"" == w + rest;
      if |w| == 12 {
        PairRead(t, i, w, s[0], rest);
        CharsRead(t, i + 12, ws[1..], s[1..]);
        CharsStep(t, i + 6, Low(s[0]), UnitsOf(ws[1..], s[1..]));
        CharsStep(t, i, High(s[0]), [Low(s[0])] + UnitsOf(ws[1..], s[1..]));
        assert UnitsOf(ws, s) == [High(s[0])] + ([Low(s[0])] + UnitsOf(ws[1..], s[1..]));
      } else {
        UnitRead(t, i, w, s[0], rest);
        CharsRead(t, i + |w|, ws[1..], s[1..]);
        CharsStep(t, i, s[0], UnitsOf(ws[1..], s[1..]));
      }
    }
  }

  lemma PairRead(t: string, i: nat, w: string, c: int, rest: string)
    requires WritesPoint(w, c) && |w| == 12 && At(t, i, w + rest)
    ensures i + 6 < |t| && t[i] != '"' && t[i + 6] != '"' && At(t, i + 12, rest)
    ensures ParseChar(t, i) == Good(High(c), i + 6) && ParseChar(t, i + 6) == Good(Low(c), i + 12)
  {
    hide ParseChar, At, WritesHex, High, Low;
    HexHead();
    assert w + rest == w[..6] + (w[6..] + rest);
    UnitRead(t, i, w[..6], High(c), w[6..] + rest);
    UnitRead(t, i + 6, w[6..], Low(c), rest);
  }

  /** The units join to the string. */
  lemma {:induction false} UnitsJoin(ws: seq<string>, s: Str)
    requires Writes(ws, s)
    ensures |ws| == |s| && JoinSurrogates(UnitsOf(ws, s)) == s
    ensures ws != [] ==> UnitsOf(ws, s) != [] && (IsLow(UnitsOf(ws, s)[0]) <==> IsLow(s[0]))
    decreases |ws|
  {
    hide WritesHex, Letter, Writes, JoinSurrogates, High, Low;
    if ws == [] {
      JoinNone();
      assert s == [] by { WritesLength(ws, s); }
    } else {
      WritesRest(ws, s);
      UnitsJoin(ws[1..], s[1..]);
      var more := UnitsOf(ws[1..], s[1..]);
      assert s == [s[0]] + s[1..];
      if |ws[0]| == 12 {
        HexHead();
        JoinPair(s[0], more);
      } else {
        NoPairAhead(ws, s);
        JoinOne(s[0], more);
      }
    }
  }

  lemma WritesLength(ws: seq<string>, s: Str)
    requires Writes(ws, s)
    ensures |ws| == |s|
  {
  }

  lemma JoinNone()
    ensures JoinSurrogates([]) == []
  {
  }

  lemma JoinPair(c: int, us: Str)
    requires 0x10000 <= c < 0x110000
    ensures JoinSurrogates([High(c), Low(c)] + us) == [c] + JoinSurrogates(us) && !IsLow(High(c)) && !IsLow(c)
  {
    var all := [High(c), Low(c)] + us;
    assert all[2..] == us;
  }

  lemma JoinOne(u: int, us: Str)
    requires us != [] ==> !(IsHigh(u) && IsLow(us[0]))
    ensures JoinSurrogates([u] + us) == [u] + JoinSurrogates(us)
  {
    var all := [u] + us;
    assert all[1..] == us;
  }

  lemma NoPairAhead(ws: seq<string>, s: Str)
    requires Writes(ws, s) && ws != []
    ensures |s| > 1 ==> !(IsHigh(s[0]) && IsLow(s[1]))
  {
  }

  /** Any legal spelling of a string, between quotes, is read as that string, wherever it stands. */
  lemma SpellingRead(t: string, i: nat, ws: seq<string>, s: Str)
    requires Writes(ws, s) && At(t, i, InQuotes(Cat(ws)))
    ensures ParseString(t, i) == Good(s, i + |Cat(ws)| + 2)
  {
    hide At, ParseChars, Writes;
    assert InQuotes(Cat(ws)) == "\"" + (Cat(ws) + "\"");
    AtSplit(t, i, "\"", Cat(ws) + "\"");
    AtOne(t, i, '"');
    CharsRead(t, i + 1, ws, s);
    UnitsJoin(ws, s);
  }

  predicate WritesUnits(ws: seq<string>, us: Str) {
    |ws| == |us| && forall i | 0 <= i < |ws| :: WritesUnit(ws[i], us[i])
  }

  /** What was read as the rest of a string had been written in legal pieces. */
  lemma {:induction false} CharsWritten(t: string, i: nat) returns (ws: seq<string>)
    requires ParseChars(t, i).Good?
    ensures WritesUnits(ws, ParseChars(t, i).value) && t[i..ParseChars(t, i).end] == Cat(ws) + "\""
    decreases |t| - i
  {
    hide ParseChar, WritesUnit;
    if t[i] == '"' {
      ws := [];
    } else {
      var j, e := ParseChar(t, i).end, ParseChars(t, i).end;
      var rest := CharsWritten(t, j);
      CharIff(t, i, ParseChar(t, i).value, j);
      ws := [t[i..j]] + rest;
      assert ws[1..] == rest && ParseChars(t, i).value[1..] == ParseChars(t, j).value;
      assert t[i..e] == t[i..j] + t[j..e];
    }
  }

  lemma UnitKind(w: string, u: int)
    requires WritesUnit(w, u)
    ensures 0 <= u < 0x110000 && (|w| == 6 || |w| == 2 || |w| == 1) && (IsHigh(u) || IsLow(u) ==> WritesHex(w, u))
  {
    hide WritesHex, IsHexOf;
    assert WritesHex(w, u) ==> 0 <= u < 0x10000 && |w| == 6 by { HexBound(w, u); }
  }

  lemma HexBound(w: string, u: int)
    ensures WritesHex(w, u) ==> 0 <= u < 0x10000 && |w| == 6
  {
  }

  lemma PairOf(h: int, l: int)
    requires IsHigh(h) && IsLow(l)
    ensures var c := 0x10000 + 0x400 * (h - 0xd800) + (l - 0xdc00);
      0x10000 <= c < 0x110000 && High(c) == h && Low(c) == l
  {
  }

  /** The pieces of units, grouped by code points. */
  lemma {:induction false} Grouped(us: Str, ws: seq<string>) returns (points: seq<string>)
    requires WritesUnits(ws, us)
    ensures Writes(points, JoinSurrogates(us)) && Cat(points) == Cat(ws)
    ensures us != [] ==> JoinSurrogates(us) != []
    ensures us != [] && !IsHigh(us[0]) ==> JoinSurrogates(us)[0] == us[0]
    ensures us != [] && IsLow(JoinSurrogates(us)[0]) ==> IsLow(us[0])
    decreases |us|
  {
    hide WritesUnit, WritesHex, High, Low;
    if us == [] {
      points := [];
    } else {
      UnitKind(ws[0], us[0]);
      if |us| >= 2 && IsHigh(us[0]) && IsLow(us[1]) {
        UnitKind(ws[1], us[1]);
        PairOf(us[0], us[1]);
        HexBound(ws[0], us[0]);
        HexBound(ws[1], us[1]);
        var rest := Grouped(us[2..], ws[2..]);
        var w := ws[0] + ws[1];
        assert w[..6] == ws[0] && w[6..] == ws[1];
        points := [w] + rest;
        CatTwo(ws);
        Prepended(w, JoinSurrogates(us)[0], rest, JoinSurrogates(us[2..]));
      } else {
        var rest := Grouped(us[1..], ws[1..]);
        points := [ws[0]] + rest;
        Prepended(ws[0], us[0], rest, JoinSurrogates(us[1..]));
      }
    }
  }

  lemma CatTwo(ws: seq<string>)
    requires |ws| >= 2
    ensures Cat(ws) == (ws[0] + ws[1]) + Cat(ws[2..])
  {
    assert ws[1..][1..] == ws[2..];
  }

  lemma Prepended(w: string, c: int, ws: seq<string>, s: Str)
    requires Writes(ws, s) && WritesPoint(w, c) && 0 <= c < 0x110000
    requires s != [] ==> !(IsHigh(c) && IsLow(s[0]))
    ensures Writes([w] + ws, [c] + s) && Cat([w] + ws) == w + Cat(ws)
  {
    hide WritesPoint;
    assert ([c] + s)[1..] == s && ([w] + ws)[1..] == ws;
  }

  /** A string token is read exactly when it is a legal spelling, and as what it spells. */
  lemma StringIff(t: string, i: nat, s: Str, e: nat)
    ensures ParseString(t, i) == Good(s, e)
      <==> i <= e <= |t| && exists ws :: Writes(ws, s) && t[i..e] == InQuotes(Cat(ws))
  {
    hide ParseChars, Writes, InQuotes;
    if ParseString(t, i) == Good(s, e) {
      var units := CharsWritten(t, i + 1);
      var ws := Grouped(ParseChars(t, i + 1).value, units);
      Quotes(t, i, e, ws, units);
    }
    if i <= e <= |t| && exists ws :: Writes(ws, s) && t[i..e] == InQuotes(Cat(ws)) {
      var ws :| Writes(ws, s) && t[i..e] == InQuotes(Cat(ws));
      SliceIs(t, i, InQuotes(Cat(ws)));
      QuotesLength(Cat(ws));
      SpellingRead(t, i, ws, s);
    }
  }

  lemma QuotesLength(w: string)
    ensures |InQuotes(w)| == |w| + 2
  {
  }

  lemma Quotes(t: string, i: nat, e: nat, ws: seq<string>, units: seq<string>)
    requires i < e <= |t| && t[i] == '"' && t[i + 1..e] == Cat(units) + "\"" && Cat(ws) == Cat(units)
    ensures t[i..e] == InQuotes(Cat(ws))
  {
    hide Cat;
    assert t[i..e] == [t[i]] + t[i + 1..e];
  }
}
