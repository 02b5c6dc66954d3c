/** The grammar of RFC 8259, from the value to the text, and that the parser reads exactly it.

A `Tree` is a value with everything that its text may choose: blanks, spellings of strings, numerals. Python
reads three more names as numbers. */
module JsonGrammar {
  import opened Text
  import opened Json
  import opened JsonStrings

  // ---------------------------------------------------------------- numbers (section 6)

  predicate AllDigits(w: string) {
    w != "" && forall c | c in w :: '0' <= c <= '9'
  }

  predicate IsFraction(w: string) {
    w == "" || (w[0] == '.' && AllDigits(w[1..]))
  }

  predicate IsPower(w: string) {
    w == "" || ((w[0] == 'e' || w[0] == 'E') && |w| > 1
                && (AllDigits(w[1..]) || ((w[1] == '+' || w[1] == '-') && AllDigits(w[2..]))))
  }

  predicate IsNumeral(minus: bool, int_: string, fraction: string, power: string) {
    AllDigits(int_) && (int_[0] == '0' ==> int_ == "0") && IsFraction(fraction) && IsPower(power)
  }

  function NumeralText(minus: bool, int_: string, fraction: string, power: string): string {
    (if minus then "-" else "") + int_ + fraction + power
  }

  lemma {:induction false} DigitsEndIs(w: string, i: nat, j: nat)
    requires i <= j <= |w| && (forall x | i <= x < j :: '0' <= w[x] <= '9') && (j < |w| ==> !('0' <= w[j] <= '9'))
    ensures DigitsEnd(w, i) == j
    decreases j - i
  {
    if i < j { DigitsEndIs(w, i + 1, j); }
  }

  lemma {:induction false} DigitsRun(w: string, i: nat)
    requires i <= |w|
    ensures forall x | i <= x < DigitsEnd(w, i) :: '0' <= w[x] <= '9'
    ensures DigitsEnd(w, i) < |w| ==> !('0' <= w[DigitsEnd(w, i)] <= '9')
    decreases |w| - i
  {
    if i < |w| && '0' <= w[i] <= '9' { DigitsRun(w, i + 1); }
  }

  lemma PowerIff(w: string, i: nat)
    requires i <= |w|
    ensures IsExponent(w, i) <==> IsPower(w[i..])
  {
    hide DigitsEnd;
    var p := w[i..];
    if i < |w| {
      DigitsIff(w, i + 1);
      if i + 1 < |w| {
        DigitsIff(w, i + 2);
        assert p[1..] == w[i + 1..] && p[2..] == w[i + 2..];
        assert p[1..][0] == p[1] == w[i + 1] && p[1..][0] in p[1..];
      }
    }
  }

  /** The digits from `i` reach the end. */
  lemma DigitsIff(w: string, i: nat)
    requires i <= |w|
    ensures i < |w| && DigitsEnd(w, i) == |w| <==> AllDigits(w[i..])
  {
    DigitsRun(w, i);
    var p := w[i..];
    if AllDigits(p) {
      assert forall x | i <= x < |w| :: w[x] == p[x - i] && p[x - i] in p;
      DigitsEndIs(w, i, |w|);
    }
  }

  lemma SliceDigits(w: string, a: nat, b: nat)
    requires a <= b <= |w|
    ensures AllDigits(w[a..b]) <==> a < b && forall x | a <= x < b :: '0' <= w[x] <= '9'
  {
    var p := w[a..b];
    if AllDigits(p) { assert forall x | a <= x < b :: w[x] == p[x - a] && p[x - a] in p; }
  }

  /** Where the three parts of a numeral begin. */
  predicate PartsAt(w: string, a: nat, b: nat, c: nat) {
    && a <= b <= c <= |w| && a <= 1 && (a == 1 ==> w[0] == '-')
    && AllDigits(w[a..b]) && (w[a..b][0] == '0' ==> b == a + 1)
    && IsFraction(w[b..c]) && IsPower(w[c..])
  }

  lemma NumberHasParts(w: string) returns (a: nat, b: nat, c: nat)
    requires IsNumber(w)
    ensures PartsAt(w, a, b, c)
  {
    hide DigitsEnd, IsExponent, AllDigits, IsPower;
    a := if |w| > 0 && w[0] == '-' then 1 else 0;
    b := DigitsEnd(w, a);
    c := if b < |w| && w[b] == '.' then DigitsEnd(w, b + 1) else b;
    DigitsRun(w, a);
    SliceDigits(w, a, b);
    PowerIff(w, c);
    if b < |w| && w[b] == '.' {
      DigitsRun(w, b + 1);
      SliceDigits(w, b + 1, c);
      assert w[b..c][1..] == w[b + 1..c];
    }
  }

  lemma PartsAreNumber(w: string, a: nat, b: nat, c: nat)
    requires PartsAt(w, a, b, c)
    ensures IsNumber(w)
  {
    hide DigitsEnd, IsExponent, AllDigits, IsPower;
    SliceDigits(w, a, b);
    PowerIff(w, c);
    PowerStart(w[c..]);
    assert w[a..b][0] == w[a];
    if b < c {
      assert w[b..c][1..] == w[b + 1..c] && w[b..c][0] == w[b];
      SliceDigits(w, b + 1, c);
      DigitsEndIs(w, b + 1, c);
    }
    DigitsEndIs(w, a, b);
  }

  lemma PowerStart(p: string)
    requires IsPower(p)
    ensures p != "" ==> p[0] == 'e' || p[0] == 'E'
  {
    hide AllDigits;
  }

  lemma PartsText(w: string, a: nat, b: nat, c: nat)
    requires PartsAt(w, a, b, c)
    ensures w == NumeralText(a == 1, w[a..b], w[b..c], w[c..]) && IsNumeral(a == 1, w[a..b], w[b..c], w[c..])
  {
    hide AllDigits, IsFraction, IsPower;
    SliceDigits(w, a, b);
    assert w == w[..a] + w[a..b] + w[b..c] + w[c..];
    assert w[..a] == if a == 1 then "-" else "";
    assert w[a..b][0] == '0' ==> w[a..b] == "0";
  }

  lemma TextParts(minus: bool, int_: string, fraction: string, power: string)
    requires IsNumeral(minus, int_, fraction, power)
    ensures var w := NumeralText(minus, int_, fraction, power); var a := if minus then 1 else 0;
      PartsAt(w, a, a + |int_|, a + |int_| + |fraction|)
  {
    hide AllDigits, IsFraction, IsPower;
    var w := NumeralText(minus, int_, fraction, power);
    var a := if minus then 1 else 0;
    assert w[a..a + |int_|] == int_;
    assert w[a + |int_|..a + |int_| + |fraction|] == fraction && w[a + |int_| + |fraction|..] == power;
  }

  ghost predicate IsNumeralText(w: string) {
    exists minus, int_, fraction, power ::
      IsNumeral(minus, int_, fraction, power) && w == NumeralText(minus, int_, fraction, power)
  }

  /** A run of number characters is a number exactly when it is a numeral of section 6. */
  lemma NumberIff(w: string)
    ensures IsNumber(w) <==> IsNumeralText(w)
  {
    hide IsNumber, IsNumeral, NumeralText;
    if IsNumber(w) {
      var a, b, c := NumberHasParts(w);
      PartsText(w, a, b, c);
    }
    if IsNumeralText(w) {
      var minus, int_, fraction, power :|
        IsNumeral(minus, int_, fraction, power) && w == NumeralText(minus, int_, fraction, power);
      TextParts(minus, int_, fraction, power);
      var a := if minus then 1 else 0;
      PartsAreNumber(w, a, a + |int_|, a + |int_| + |fraction|);
    }
  }

  predicate NumberChars(w: string) {
    forall x | 0 <= x < |w| :: IsNumberChar(w[x])
  }

  lemma CharsOfDigits(w: string)
    requires AllDigits(w)
    ensures NumberChars(w)
  {
    forall x | 0 <= x < |w| ensures IsNumberChar(w[x]) { assert w[x] in w; }
  }

  lemma CharsOfTail(w: string, k: nat)
    requires k <= |w| && NumberChars(w[..k]) && NumberChars(w[k..])
    ensures NumberChars(w)
  {
    assert forall x | 0 <= x < k :: w[..k][x] == w[x];
    forall x | k <= x < |w| ensures IsNumberChar(w[x]) { assert w[k..][x - k] == w[x]; }
  }

  lemma CharsOfPower(w: string)
    requires IsPower(w)
    ensures NumberChars(w)
  {
    hide AllDigits;
    if w != "" {
      if AllDigits(w[1..]) {
        CharsOfDigits(w[1..]);
        CharsOfTail(w, 1);
      } else {
        CharsOfDigits(w[2..]);
        CharsOfTail(w, 2);
      }
    }
  }

  lemma CharsOfFraction(w: string)
    requires IsFraction(w)
    ensures NumberChars(w)
  {
    hide AllDigits;
    if w != "" {
      CharsOfDigits(w[1..]);
      CharsOfTail(w, 1);
    }
  }

  lemma NumeralChars(w: string)
    requires IsNumber(w)
    ensures w != "" && NumberChars(w) && (w[0] == '-' || '0' <= w[0] <= '9')
  {
    hide IsNumber, AllDigits, IsFraction, IsPower, NumberChars;
    var a, b, c := NumberHasParts(w);
    SliceDigits(w, a, b);
    CharsOfDigits(w[a..b]);
    CharsOfFraction(w[b..c]);
    CharsOfPower(w[c..]);
    assert w[..b][..a] == w[..a] && w[..b][a..] == w[a..b] && w[..c][..b] == w[..b] && w[..c][b..] == w[b..c];
    assert NumberChars(w[..a]) by { MinusChars(w[..a]); }
    CharsOfTail(w[..b], a);
    CharsOfTail(w[..c], b);
    CharsOfTail(w, c);
  }

  lemma MinusChars(w: string)
    requires w == "" || w == "-"
    ensures NumberChars(w)
  {
  }

  // ---------------------------------------------------------------- trees

  predicate Blank(w: string) {
    forall c | c in w :: c in " \t\n\r"
  }

  /** The names, and what Python reads them as. */
  function NameValue(w: string): Option<Json> {
    if w == "null" then Some(Null)
    else if w == "true" then Some(Bool(true))
    else if w == "false" then Some(Bool(false))
    else if w == "NaN" || w == "Infinity" || w == "-Infinity" then Some(Number)
    else None
  }

  datatype Tree =
    | Name(w: string)
    | Numeral(w: string)
    | Text(pieces: seq<string>, s: Str)
    | List(inside: string, items: seq<Item>)
    | Record(inside: string, entries: seq<Entry>)

  /** An element, the blanks after it, and the blanks after the comma if one follows. */
  datatype Item = Item(x: Tree, before: string, after: string)

  /** The same with a key; blanks stand on both sides of its colon. */
  datatype Entry = Entry(
    pieces: seq<string>, key: Str, left: string, right: string, x: Tree, before: string, after: string)

  ghost predicate Legal(x: Tree) {
    match x
    case Name(w) => NameValue(w).Some?
    case Numeral(w) => IsNumeralText(w)
    case Text(pieces, s) => Writes(pieces, s)
    case List(inside, items) => Blank(inside) && forall y | y in items :: LegalItem(y)
    case Record(inside, entries) => Blank(inside) && forall y | y in entries :: LegalEntry(y)
  }

  ghost predicate LegalItem(y: Item) {
    Legal(y.x) && Blank(y.before) && Blank(y.after)
  }

  ghost predicate LegalEntry(y: Entry) {
    && Writes(y.pieces, y.key) && Blank(y.left) && Blank(y.right) && Legal(y.x) && Blank(y.before) && Blank(y.after)
  }

  function ValueOf(x: Tree): Json {
    match x
    case Name(w) => if NameValue(w).Some? then NameValue(w).value else Null
    case Numeral(_) => Number
    case Text(_, s) => String(s)
    case List(_, items) => Array(ValuesOf(items))
    case Record(_, entries) => Object(MembersOf(entries))
  }

  function ValuesOf(items: seq<Item>): seq<Json> {
    if items == [] then [] else [ValueOf(items[0].x)] + ValuesOf(items[1..])
  }

  function MembersOf(entries: seq<Entry>): seq<Member> {
    if entries == [] then [] else [MemberOf(entries[0])] + MembersOf(entries[1..])
  }

  function MemberOf(y: Entry): Member {
    Member(InQuotes(Cat(y.pieces)), y.key, ValueOf(y.x))
  }

  function Shown(x: Tree): string
    decreases x
  {
    match x
    case Name(w) => w
    case Numeral(w) => w
    case Text(pieces, _) => InQuotes(Cat(pieces))
    case List(inside, items) => "[" + (inside + if items == [] then "]" else ShownItems(items))
    case Record(inside, entries) => "{" + (inside + if entries == [] then "}" else ShownEntries(entries))
  }

  /** With the closing bracket. */
  function ShownItems(items: seq<Item>): string
    requires items != []
    decreases items
  {
    Shown(items[0].x) + (items[0].before
      + if |items| == 1 then "]" else "," + (items[0].after + ShownItems(items[1..])))
  }

  /** With the closing brace. */
  function ShownEntries(entries: seq<Entry>): string
    requires entries != []
    decreases entries
  {
    ShownEntry(entries[0]) + (entries[0].before
      + if |entries| == 1 then "}" else "," + (entries[0].after + ShownEntries(entries[1..])))
  }

  function ShownEntry(y: Entry): string
    decreases y
  {
    InQuotes(Cat(y.pieces)) + (y.left + (":" + (y.right + Shown(y.x))))
  }

  // ---------------------------------------------------------------- what is shown is read

  lemma BlankIff(w: string)
    ensures Blank(w) <==> forall x | 0 <= x < |w| :: IsJsonSpace(w[x])
  {
    if Blank(w) { assert forall x | 0 <= x < |w| :: w[x] in w; }
  }

  lemma BlankSkipped(t: string, i: nat, w: string)
    requires Blank(w) && At(t, i, w) && (i + |w| < |t| ==> !IsJsonSpace(t[i + |w|]))
    ensures i <= |t| && SkipJson(t, i) == i + |w|
  {
    BlankIff(w);
    SliceIs(t, i, w);
    forall x | i <= x < i + |w| ensures IsJsonSpace(t[x]) { assert t[x] == t[i..i + |w|][x - i]; }
  }

  predicate Starts(c: char) {
    !IsJsonSpace(c) && c != ']' && c != '}' && c != ',' && c != ':'
  }

  lemma ShownStarts(x: Tree)
    requires Legal(x)
    ensures Shown(x) != "" && Starts(Shown(x)[0])
  {
    hide Cat, IsNumber, IsNumeralText;
    if x.Numeral? {
      NumberIff(x.w);
      NumeralChars(x.w);
    }
  }

  /** A numeral ends where number characters end. */
  predicate Stops(t: string, e: nat) {
    e <= |t| && (e < |t| ==> !IsNumberChar(t[e]))
  }

  lemma NextRead(t: string, e: nat, before: string, close: char, rest: string)
    requires Blank(before) && (close == ']' || close == '}') && At(t, e, before + ([close] + rest))
    ensures e <= |t| && Stops(t, e) && NextPart(t, e, close) == Close(e + |before| + 1)
  {
    hide At, SkipJson, Blank;
    AtSplit(t, e, before, [close] + rest);
    AtSplit(t, e + |before|, [close], rest);
    AtOne(t, e + |before|, close);
    BlankSkipped(t, e, before);
    BlankStops(t, e, before);
  }

  lemma BlankStops(t: string, e: nat, w: string)
    requires Blank(w) && At(t, e, w) && e + |w| < |t| && !IsNumberChar(t[e + |w|])
    ensures Stops(t, e)
  {
    BlankIff(w);
    if w != "" { AtStarts(t, e, w); }
  }

  lemma CommaRead(t: string, e: nat, before: string, after: string, rest: string, close: char)
    requires Blank(before) && Blank(after) && (close == ']' || close == '}') && rest != "" && Starts(rest[0])
    requires At(t, e, before + ("," + (after + rest)))
    ensures e <= |t| && Stops(t, e)
    ensures NextPart(t, e, close) == Comma(e + |before| + 1 + |after|) && At(t, e + |before| + 1 + |after|, rest)
  {
    hide At, SkipJson, Blank;
    var n := e + |before|;
    AtSplit(t, e, before, "," + (after + rest));
    AtSplit(t, n, ",", after + rest);
    AtSplit(t, n + 1, after, rest);
    AtOne(t, n, ',');
    AtStarts(t, n + 1 + |after|, rest);
    BlankSkipped(t, e, before);
    BlankSkipped(t, n + 1, after);
    BlankStops(t, e, before);
  }

  lemma ElementsUnfold(t: string, i: nat, e: nat)
    requires i <= |t| && ParseValue(t, i).Good? && ParseValue(t, i).end == e
    ensures var v, n := ParseValue(t, i).value, NextPart(t, e, ']');
      && (n.Close? ==> ParseElements(t, i) == Good([v], n.end))
      && (n.Comma? && ParseElements(t, n.start).Good? ==>
            ParseElements(t, i) == Good([v] + ParseElements(t, n.start).value, ParseElements(t, n.start).end))
  {
    hide ParseValue, NextPart;
  }

  lemma MembersUnfold(t: string, i: nat, e: nat)
    requires i <= |t| && ParseMember(t, i).Good? && ParseMember(t, i).end == e
    ensures var m, n := ParseMember(t, i).value, NextPart(t, e, '}');
      && (n.Close? ==> ParseMembers(t, i) == Good([m], n.end))
      && (n.Comma? && ParseMembers(t, n.start).Good? ==>
            ParseMembers(t, i) == Good([m] + ParseMembers(t, n.start).value, ParseMembers(t, n.start).end))
  {
    hide ParseMember, NextPart;
  }

  lemma {:induction false} TreeRead(t: string, i: nat, x: Tree)
    requires Legal(x) && At(t, i, Shown(x)) && Stops(t, i + |Shown(x)|)
    ensures i <= |t| && ParseValue(t, i) == Good(ValueOf(x), i + |Shown(x)|)
    decreases x
  {
    hide At, Writes, ParseString, ParseElements, ParseMembers, ParseAtom, ShownItems, ShownEntries, SkipJson, Blank,
         IsNumeralText, ValuesOf, MembersOf, Starts;
    ShownStarts(x);
    AtStarts(t, i, Shown(x));
    match x {
      case Name(w) => NameRead(t, i, w);
      case Numeral(w) => NumeralRead(t, i, w);
      case Text(pieces, s) => SpellingRead(t, i, pieces, s);
      case List(inside, items) => ListRead(t, i, inside, items);
      case Record(inside, entries) => RecordRead(t, i, inside, entries);
    }
  }

  lemma NameRead(t: string, i: nat, w: string)
    requires NameValue(w).Some? && At(t, i, w)
    ensures i < |t| && t[i] != '"' && t[i] != '[' && t[i] != '{'
    ensures ParseAtom(t, i) == Good(NameValue(w).value, i + |w|)
  {
    hide At, NumberEnd, IsNumber;
    AtStarts(t, i, w);
    if At(t, i, "null") { AtStarts(t, i, "null"); }
    if At(t, i, "true") { AtStarts(t, i, "true"); }
    if At(t, i, "false") { AtStarts(t, i, "false"); }
    if At(t, i, "NaN") { AtStarts(t, i, "NaN"); }
    if At(t, i, "Infinity") { AtStarts(t, i, "Infinity"); }
  }

  lemma NumeralRead(t: string, i: nat, w: string)
    requires IsNumeralText(w) && At(t, i, w) && Stops(t, i + |w|)
    ensures i < |t| && t[i] != '"' && t[i] != '[' && t[i] != '{'
    ensures ParseAtom(t, i) == Good(Number, i + |w|)
  {
    hide IsNumber, IsNumeralText, At, AllDigits;
    NumberIff(w);
    NumeralChars(w);
    SliceIs(t, i, w);
    AtStarts(t, i, w);
    NumberEndIs(t, i, w);
    NoName(t, i, w);
  }

  lemma NumberEndIs(t: string, i: nat, w: string)
    requires NumberChars(w) && i + |w| <= |t| && t[i..i + |w|] == w && Stops(t, i + |w|)
    ensures NumberEnd(t, i) == i + |w|
  {
    forall x | i <= x < i + |w| ensures IsNumberChar(t[x]) { assert t[x] == t[i..i + |w|][x - i] == w[x - i]; }
  }

  /** No name starts where a numeral stands: a minus is followed by a digit. */
  lemma NoName(t: string, i: nat, w: string)
    requires IsNumber(w) && i + |w| <= |t| && t[i..i + |w|] == w && w != "" && (w[0] == '-' || '0' <= w[0] <= '9')
    ensures !At(t, i, "null") && !At(t, i, "true") && !At(t, i, "false")
    ensures !At(t, i, "NaN") && !At(t, i, "Infinity") && !At(t, i, "-Infinity")
  {
    hide At, IsNumber;
    assert t[i] == w[0];
    MinusDigit(w);
    if At(t, i, "null") { AtStarts(t, i, "null"); }
    if At(t, i, "true") { AtStarts(t, i, "true"); }
    if At(t, i, "false") { AtStarts(t, i, "false"); }
    if At(t, i, "NaN") { AtStarts(t, i, "NaN"); }
    if At(t, i, "Infinity") { AtStarts(t, i, "Infinity"); }
    if At(t, i, "-Infinity") { SecondIs(t, i); }
    assert |w| > 1 ==> t[i + 1] == w[1];
  }

  lemma SecondIs(t: string, i: nat)
    requires At(t, i, "-Infinity")
    ensures i + 1 < |t| && t[i] == '-' && t[i + 1] == 'I'
  {
    var w := "-Infinity";
    assert t[i + 0] == w[0] && t[i + 1] == w[1];
  }

  lemma MinusDigit(w: string)
    requires IsNumber(w)
    ensures w != "" && w[0] == '-' ==> |w| > 1 && '0' <= w[1] <= '9'
  {
    hide IsExponent;
  }

  lemma ListRead(t: string, i: nat, inside: string, items: seq<Item>)
    requires Legal(List(inside, items)) && At(t, i, Shown(List(inside, items)))
    ensures i < |t| && t[i] == '['
    ensures ParseValue(t, i) == Good(Array(ValuesOf(items)), i + |Shown(List(inside, items))|)
    decreases items, 1
  {
    hide At, Writes, ParseElements, ShownItems, SkipJson, Blank, LegalItem, Starts, ValuesOf;
    var rest := if items == [] then "]" else ShownItems(items);
    AtSplit(t, i, "[", inside + rest);
    AtSplit(t, i + 1, inside, rest);
    AtOne(t, i, '[');
    var k := i + 1 + |inside|;
    if items == [] {
      AtOne(t, k, ']');
      assert ValuesOf([]) == [] by { NoValues(); }
    } else {
      ItemsRead(t, k, items);
    }
    BlankSkipped(t, i + 1, inside);
  }

  lemma NoValues()
    ensures ValuesOf([]) == [] && MembersOf([]) == []
  {
  }

  lemma RecordRead(t: string, i: nat, inside: string, entries: seq<Entry>)
    requires Legal(Record(inside, entries)) && At(t, i, Shown(Record(inside, entries)))
    ensures i < |t| && t[i] == '{'
    ensures ParseValue(t, i) == Good(Object(MembersOf(entries)), i + |Shown(Record(inside, entries))|)
    decreases entries, 1
  {
    hide At, Writes, ParseMembers, ShownEntries, SkipJson, Blank, LegalEntry, Starts, MembersOf;
    var rest := if entries == [] then "}" else ShownEntries(entries);
    AtSplit(t, i, "{", inside + rest);
    AtSplit(t, i + 1, inside, rest);
    AtOne(t, i, '{');
    var k := i + 1 + |inside|;
    if entries == [] {
      AtOne(t, k, '}');
      assert MembersOf([]) == [] by { NoValues(); }
    } else {
      EntriesRead(t, k, entries);
    }
    BlankSkipped(t, i + 1, inside);
  }

  lemma {:induction false} ItemsRead(t: string, i: nat, items: seq<Item>)
    requires items != [] && (forall y | y in items :: LegalItem(y)) && At(t, i, ShownItems(items))
    ensures i < |t| && !IsJsonSpace(t[i]) && t[i] != ']'
    ensures ParseElements(t, i) == Good(ValuesOf(items), i + |ShownItems(items)|)
    decreases items, 0
  {
    hide At, Shown, ValueOf, Legal, ParseValue, ParseElements, NextPart, Blank, SkipJson;
    var y := items[0];
    var w := Shown(y.x);
    var rest := y.before + if |items| == 1 then "]" else "," + (y.after + ShownItems(items[1..]));
    assert ShownItems(items) == w + rest;
    assert LegalItem(y);
    ShownStarts(y.x);
    AtStarts(t, i, w + rest);
    AtSplit(t, i, w, rest);
    var e := i + |w|;
    if |items| == 1 {
      assert rest == y.before + ([']'] + "");
      NextRead(t, e, y.before, ']', "");
      TreeRead(t, i, y.x);
      ElementsUnfold(t, i, e);
      NoValues();
      assert items[1..] == [] && ValuesOf(items) == [ValueOf(y.x)] + [] == [ValueOf(y.x)];
    } else {
      ItemsStart(items[1..]);
      CommaRead(t, e, y.before, y.after, ShownItems(items[1..]), ']');
      TreeRead(t, i, y.x);
      ItemsRead(t, e + |y.before| + 1 + |y.after|, items[1..]);
      ElementsUnfold(t, i, e);
    }
  }

  lemma ItemsStart(items: seq<Item>)
    requires items != [] && forall y | y in items :: LegalItem(y)
    ensures ShownItems(items) != "" && Starts(ShownItems(items)[0])
  {
    hide Shown, Legal, Starts;
    assert LegalItem(items[0]);
    ShownStarts(items[0].x);
  }

  lemma EntriesStart(entries: seq<Entry>)
    requires entries != []
    ensures ShownEntries(entries) != "" && ShownEntries(entries)[0] == '"' && Starts('"')
  {
    hide Cat;
  }

  lemma {:induction false} EntriesRead(t: string, i: nat, entries: seq<Entry>)
    requires entries != [] && (forall y | y in entries :: LegalEntry(y)) && At(t, i, ShownEntries(entries))
    ensures i < |t| && t[i] == '"'
    ensures ParseMembers(t, i) == Good(MembersOf(entries), i + |ShownEntries(entries)|)
    decreases entries, 0
  {
    hide At, ShownEntry, MemberOf, ParseMember, ParseMembers, NextPart, SkipJson, Blank, Writes, Legal;
    var y := entries[0];
    var w := ShownEntry(y);
    var rest := y.before + if |entries| == 1 then "}" else "," + (y.after + ShownEntries(entries[1..]));
    assert ShownEntries(entries) == w + rest;
    assert LegalEntry(y);
    AtSplit(t, i, w, rest);
    var e := i + |w|;
    if |entries| == 1 {
      assert rest == y.before + (['}'] + "");
      NextRead(t, e, y.before, '}', "");
      EntryRead(t, i, y);
      MembersUnfold(t, i, e);
      NoValues();
      assert entries[1..] == [] && MembersOf(entries) == [MemberOf(y)] + [] == [MemberOf(y)];
    } else {
      EntriesStart(entries[1..]);
      CommaRead(t, e, y.before, y.after, ShownEntries(entries[1..]), '}');
      EntryRead(t, i, y);
      EntriesRead(t, e + |y.before| + 1 + |y.after|, entries[1..]);
      MembersUnfold(t, i, e);
    }
  }

  lemma {:induction false} EntryRead(t: string, i: nat, y: Entry)
    requires LegalEntry(y) && At(t, i, ShownEntry(y)) && Stops(t, i + |ShownEntry(y)|)
    ensures i < |t| && t[i] == '"' && ParseMember(t, i) == Good(MemberOf(y), i + |ShownEntry(y)|)
    decreases y
  {
    hide At, Shown, Legal, ValueOf, ParseString, ParseValue, SkipJson, Blank, Writes, Cat, Stops, Starts;
    var q, v := InQuotes(Cat(y.pieces)), Shown(y.x);
    AtSplit(t, i, q, y.left + (":" + (y.right + v)));
    SpellingRead(t, i, y.pieces, y.key);
    SliceIs(t, i, q);
    var s := i + |q|;
    AtSplit(t, s, y.left, ":" + (y.right + v));
    var c := s + |y.left|;
    AtSplit(t, c, ":", y.right + v);
    AtSplit(t, c + 1, y.right, v);
    AtOne(t, c, ':');
    BlankSkipped(t, s, y.left);
    ShownStarts(y.x);
    AtStarts(t, c + 1 + |y.right|, v);
    assert !IsJsonSpace(v[0]) by { StartsMeans(v[0]); }
    BlankSkipped(t, c + 1, y.right);
    TreeRead(t, c + 1 + |y.right|, y.x);
  }

  lemma StartsMeans(c: char)
    requires Starts(c)
    ensures !IsJsonSpace(c)
  {
  }

  // ---------------------------------------------------------------- what is read was shown

  lemma Skipped(t: string, i: nat)
    requires i <= |t|
    ensures Blank(t[i..SkipJson(t, i)])
  {
    BlankIff(t[i..SkipJson(t, i)]);
  }

  lemma AtomWritten(t: string, i: nat) returns (x: Tree)
    requires i <= |t| && ParseAtom(t, i).Good?
    ensures Legal(x) && ValueOf(x) == ParseAtom(t, i).value && t[i..ParseAtom(t, i).end] == Shown(x)
  {
    hide At, IsNumber, IsNumeralText;
    var e := ParseAtom(t, i).end;
    Names(t, i);
    if NameValue(t[i..e]).Some? && NameValue(t[i..e]).value == ParseAtom(t, i).value {
      x := Name(t[i..e]);
    } else {
      NumberIff(t[i..e]);
      x := Numeral(t[i..e]);
    }
  }

  lemma Names(t: string, i: nat)
    requires i <= |t| && ParseAtom(t, i).Good?
    ensures var w := t[i..ParseAtom(t, i).end]; var v := ParseAtom(t, i).value;
      NameValue(w) == Some(v) || (v == Number && IsNumber(w))
  {
    hide At, IsNumber;
    SliceIs(t, i, "null");
    SliceIs(t, i, "true");
    SliceIs(t, i, "false");
    SliceIs(t, i, "NaN");
    SliceIs(t, i, "Infinity");
    SliceIs(t, i, "-Infinity");
  }

  lemma StringWritten(t: string, i: nat) returns (pieces: seq<string>)
    requires ParseString(t, i).Good?
    ensures Writes(pieces, ParseString(t, i).value) && t[i..ParseString(t, i).end] == InQuotes(Cat(pieces))
  {
    hide ParseString, Writes, InQuotes, Cat;
    StringIff(t, i, ParseString(t, i).value, ParseString(t, i).end);
    pieces :| Writes(pieces, ParseString(t, i).value) && t[i..ParseString(t, i).end] == InQuotes(Cat(pieces));
  }

  lemma {:induction false} TreeWritten(t: string, i: nat) returns (x: Tree)
    requires i <= |t| && ParseValue(t, i).Good?
    ensures Legal(x) && ValueOf(x) == ParseValue(t, i).value && t[i..ParseValue(t, i).end] == Shown(x)
    decreases |t| - i, 0
  {
    hide ParseString, ParseAtom, ParseElements, ParseMembers, SkipJson, Writes, Blank, ShownItems, ShownEntries,
         LegalItem, LegalEntry, ValuesOf, MembersOf, Cat, InQuotes;
    var e := ParseValue(t, i).end;
    if i < |t| && t[i] == '"' {
      var pieces := StringWritten(t, i);
      x := Text(pieces, ParseString(t, i).value);
    } else if i < |t| && t[i] == '[' {
      var k := SkipJson(t, i + 1);
      Skipped(t, i + 1);
      NoValues();
      if k < |t| && t[k] == ']' {
        x := List(t[i + 1..k], []);
        assert t[i..e] == "[" + (t[i + 1..k] + "]");
      } else {
        var items := ItemsWritten(t, k);
        x := List(t[i + 1..k], items);
        assert t[i..e] == "[" + (t[i + 1..k] + t[k..e]);
      }
    } else if i < |t| && t[i] == '{' {
      var k := SkipJson(t, i + 1);
      Skipped(t, i + 1);
      NoValues();
      if k < |t| && t[k] == '}' {
        x := Record(t[i + 1..k], []);
        assert t[i..e] == "{" + (t[i + 1..k] + "}");
      } else {
        var entries := EntriesWritten(t, k);
        x := Record(t[i + 1..k], entries);
        assert t[i..e] == "{" + (t[i + 1..k] + t[k..e]);
      }
    } else {
      x := AtomWritten(t, i);
    }
  }

  /** What stands between two parts. */
  lemma GapWritten(t: string, e: nat, close: char) returns (before: string, after: string)
    requires e <= |t| && !NextPart(t, e, close).Neither?
    ensures Blank(before) && Blank(after)
    ensures var n := NextPart(t, e, close);
      && (n.Close? ==> t[e..n.end] == before + [close])
      && (n.Comma? ==> t[e..n.start] == before + ("," + after))
  {
    hide SkipJson, Blank;
    var n := SkipJson(t, e);
    Skipped(t, e);
    before, after := t[e..n], "";
    NothingBlank();
    if t[n] == close {
      assert t[e..n + 1] == t[e..n] + [close];
    } else {
      Skipped(t, n + 1);
      after := t[n + 1..SkipJson(t, n + 1)];
      assert t[e..SkipJson(t, n + 1)] == t[e..n] + ("," + after);
    }
  }

  lemma NothingBlank()
    ensures Blank("")
  {
  }

  lemma {:induction false} ItemsWritten(t: string, i: nat) returns (items: seq<Item>)
    requires i <= |t| && ParseElements(t, i).Good?
    ensures items != [] && (forall y | y in items :: LegalItem(y)) && ValuesOf(items) == ParseElements(t, i).value
    ensures t[i..ParseElements(t, i).end] == ShownItems(items)
    decreases |t| - i, 1
  {
    hide ParseValue, NextPart, Blank, Shown, Legal, ValueOf;
    var e := ParseValue(t, i).end;
    var x := TreeWritten(t, i);
    var before, after := GapWritten(t, e, ']');
    var y := Item(x, before, after);
    match NextPart(t, e, ']') {
      case Close(j) =>
        items := [y];
        NoValues();
        assert items[1..] == [] && ValuesOf(items) == [ValueOf(x)] + [] == [ValueOf(x)];
        assert t[i..j] == t[i..e] + t[e..j];
      case Comma(j) =>
        var rest := ItemsWritten(t, j);
        var end := ParseElements(t, j).end;
        items := [y] + rest;
        assert items[1..] == rest;
        assert t[i..end] == t[i..e] + (t[e..j] + t[j..end]);
        assert t[e..j] + t[j..end] == before + ("," + (after + t[j..end]));
    }
  }

  lemma {:induction false} EntriesWritten(t: string, i: nat) returns (entries: seq<Entry>)
    requires i <= |t| && ParseMembers(t, i).Good?
    ensures entries != [] && (forall y | y in entries :: LegalEntry(y))
    ensures MembersOf(entries) == ParseMembers(t, i).value
    ensures t[i..ParseMembers(t, i).end] == ShownEntries(entries)
    decreases |t| - i, 2
  {
    hide ParseMember, NextPart, Blank, ShownEntry, Legal, MemberOf, Writes;
    var e := ParseMember(t, i).end;
    var z := EntryWritten(t, i);
    var before, after := GapWritten(t, e, '}');
    var y := z.(before := before, after := after);
    SameEntry(z, y);
    match NextPart(t, e, '}') {
      case Close(j) =>
        entries := [y];
        NoValues();
        assert entries[1..] == [] && MembersOf(entries) == [MemberOf(y)] + [] == [MemberOf(y)];
        assert t[i..j] == t[i..e] + t[e..j];
      case Comma(j) =>
        var rest := EntriesWritten(t, j);
        var end := ParseMembers(t, j).end;
        entries := [y] + rest;
        assert entries[1..] == rest;
        assert t[i..end] == t[i..e] + (t[e..j] + t[j..end]);
        assert t[e..j] + t[j..end] == before + ("," + (after + t[j..end]));
    }
  }

  lemma SameEntry(z: Entry, y: Entry)
    requires y == z.(before := y.before, after := y.after)
    ensures MemberOf(y) == MemberOf(z) && ShownEntry(y) == ShownEntry(z)
  {
  }

  lemma {:induction false} EntryWritten(t: string, i: nat) returns (y: Entry)
    requires i <= |t| && ParseMember(t, i).Good?
    ensures LegalEntry(y) && MemberOf(y) == ParseMember(t, i).value && t[i..ParseMember(t, i).end] == ShownEntry(y)
    decreases |t| - i, 1
  {
    hide ParseString, ParseValue, SkipJson, Blank, Writes, Cat, InQuotes, Shown, Legal, ValueOf;
    var s := ParseString(t, i).end;
    var c := SkipJson(t, s);
    var v := SkipJson(t, c + 1);
    var e := ParseMember(t, i).end;
    var pieces := StringWritten(t, i);
    var x := TreeWritten(t, v);
    Skipped(t, s);
    Skipped(t, c + 1);
    NothingBlank();
    y := Entry(pieces, ParseString(t, i).value, t[s..c], t[c + 1..v], x, "", "");
    assert t[i..e] == t[i..s] + (t[s..c] + (":" + (t[c + 1..v] + t[v..e])));
  }

  // ---------------------------------------------------------------- whole texts

  /** `json.loads` accepts exactly the texts of the grammar, with blanks around them, and reads what they show. */
  lemma LoadsIff(t: string, v: Json)
    ensures Loads(t) == Some(v) <==> exists left, x, right ::
      Blank(left) && Legal(x) && Blank(right) && ValueOf(x) == v && t == left + (Shown(x) + right)
  {
    hide Blank, Legal, ValueOf, Shown;
    if Loads(t) == Some(v) {
      var left, x, right := LoadsWritten(t);
    }
    if left, x, right :| Blank(left) && Legal(x) && Blank(right) && ValueOf(x) == v && t == left + (Shown(x) + right) {
      LoadsRead(left, x, right);
    }
  }

  lemma LoadsWritten(t: string) returns (left: string, x: Tree, right: string)
    requires Loads(t).Some?
    ensures Blank(left) && Legal(x) && Blank(right) && ValueOf(x) == Loads(t).value && t == left + (Shown(x) + right)
  {
    hide ParseValue, SkipJson, Blank, Legal, ValueOf, Shown;
    var o := SkipJson(t, 0);
    var e := ParseValue(t, o).end;
    Skipped(t, 0);
    Skipped(t, e);
    x := TreeWritten(t, o);
    left, right := t[..o], t[e..];
    assert t[0..o] == t[..o] && t[e..SkipJson(t, e)] == t[e..];
    assert t == t[..o] + (t[o..e] + t[e..]);
  }

  lemma LoadsRead(left: string, x: Tree, right: string)
    requires Blank(left) && Legal(x) && Blank(right)
    ensures Loads(left + (Shown(x) + right)) == Some(ValueOf(x))
  {
    hide ParseValue, SkipJson, Blank, Legal, ValueOf, Shown, At, Starts;
    var t := left + (Shown(x) + right);
    AtSelf(t);
    AtSplit(t, 0, left, Shown(x) + right);
    AtSplit(t, |left|, Shown(x), right);
    ShownStarts(x);
    StartsMeans(Shown(x)[0]);
    AtStarts(t, |left|, Shown(x));
    BlankSkipped(t, 0, left);
    BlankEnds(t, |left| + |Shown(x)|, right);
    TreeRead(t, |left|, x);
  }

  lemma BlankEnds(t: string, e: nat, w: string)
    requires Blank(w) && At(t, e, w) && e + |w| == |t|
    ensures Stops(t, e) && SkipJson(t, e) == |t|
  {
    BlankSkipped(t, e, w);
    BlankIff(w);
    if w != "" { AtStarts(t, e, w); }
  }
}
