/** `json.loads`: the grammar of RFC 8259, read left to right by position.

Numbers keep no value, because no draft field is numeric. Object members keep the
spelling of their key, so that a later proof can ask whether it was escaped. */
module Json {
  import opened Text

  datatype Json =
    | Null
    | Bool(b: bool)
    | Number
    | String(s: Str)
    | Array(items: seq<Json>)
    | Object(members: seq<Member>)

  datatype Member = Member(spelling: string, key: Str, value: Json)

  datatype Parsed<+T> = Bad | Good(value: T, end: nat)

  // ---------------------------------------------------------------- strings (section 7)

  function HexDigit(c: char): (v: Option<int>)
    ensures v.Some? ==> c != '"' && c != '\\'
  {
    if '0' <= c <= '9' then Some(c as int - '0' as int)
    else if 'a' <= c <= 'f' then Some(c as int - 'a' as int + 10)
    else if 'A' <= c <= 'F' then Some(c as int - 'A' as int + 10)
    else None
  }

  function Hex4(t: string, i: nat): (v: Option<int>)
    ensures v.Some? ==> i + 4 <= |t| && forall x | i <= x < i + 4 :: t[x] != '"' && t[x] != '\\'
  {
    if i + 4 > |t| then None
    else
      var a, b, c, d := HexDigit(t[i]), HexDigit(t[i + 1]), HexDigit(t[i + 2]), HexDigit(t[i + 3]);
      if a.Some? && b.Some? && c.Some? && d.Some?
      then Some(0x1000 * a.value + 0x100 * b.value + 0x10 * c.value + d.value)
      else None
  }

  function SimpleEscape(c: char): Option<int> {
    match c
    case '"' => Some(0x22)
    case '\\' => Some(0x5c)
    case '/' => Some(0x2f)
    case 'b' => Some(0x08)
    case 'f' => Some(0x0c)
    case 'n' => Some(0x0a)
    case 'r' => Some(0x0d)
    case 't' => Some(0x09)
    case _ => None
  }

  /** One character or escape inside a string. */
  function ParseChar(t: string, i: nat): (r: Parsed<int>)
    requires i < |t|
    ensures r.Good? ==> i < r.end <= |t|
  {
    if t[i] != '\\' then
      if t[i] as int < 0x20 then Bad else Good(t[i] as int, i + 1)
    else if i + 1 == |t| then Bad
    else if t[i + 1] == 'u' then
      match Hex4(t, i + 2) { case None => Bad case Some(v) => Good(v, i + 6) }
    else
      match SimpleEscape(t[i + 1]) { case None => Bad case Some(v) => Good(v, i + 2) }
  }

  /** The rest of a string after its opening quote, up to and with its closing quote. */
  function ParseChars(t: string, i: nat): (r: Parsed<Str>)
    ensures r.Good? ==> i < r.end <= |t|
    decreases |t| - i
  {
    if i >= |t| then Bad
    else if t[i] == '"' then Good([], i + 1)
    else
      match ParseChar(t, i)
      case Bad => Bad
      case Good(u, j) =>
        match ParseChars(t, j)
        case Bad => Bad
        case Good(us, e) => Good([u] + us, e)
  }

  /** An escaped high surrogate followed by an escaped low one is a single code point. */
  function JoinSurrogates(units: Str): Str {
    if |units| >= 2 && 0xd800 <= units[0] < 0xdc00 && 0xdc00 <= units[1] < 0xe000
    then [0x10000 + 0x400 * (units[0] - 0xd800) + (units[1] - 0xdc00)] + JoinSurrogates(units[2..])
    else if |units| >= 1 then [units[0]] + JoinSurrogates(units[1..])
    else []
  }

  function ParseString(t: string, i: nat): (r: Parsed<Str>)
    ensures r.Good? ==> i < r.end <= |t| && t[i] == '"'
  {
    if i >= |t| || t[i] != '"' then Bad
    else match ParseChars(t, i + 1)
      case Bad => Bad
      case Good(us, e) => Good(JoinSurrogates(us), e)
  }

  // ---------------------------------------------------------------- atoms (sections 3 and 6)

  predicate IsNumberChar(c: char) {
    '0' <= c <= '9' || c == '-' || c == '+' || c == '.' || c == 'e' || c == 'E'
  }

  function NumberEnd(t: string, i: nat): (j: nat)
    requires i <= |t|
    ensures i <= j <= |t|
    ensures forall x | i <= x < j :: IsNumberChar(t[x])
    ensures j < |t| ==> !IsNumberChar(t[j])
    decreases |t| - i
  {
    if i < |t| && IsNumberChar(t[i]) then NumberEnd(t, i + 1) else i
  }

  function DigitsEnd(w: string, i: nat): (j: nat)
    requires i <= |w|
    ensures i <= j <= |w|
    decreases |w| - i
  {
    if i < |w| && '0' <= w[i] <= '9' then DigitsEnd(w, i + 1) else i
  }

  predicate IsExponent(w: string, i: nat)
    requires i <= |w|
  {
    i == |w|
    || ((w[i] == 'e' || w[i] == 'E')
        && var s := if i + 1 < |w| && (w[i + 1] == '+' || w[i + 1] == '-') then i + 2 else i + 1;
        s < |w| && DigitsEnd(w, s) == |w|)
  }

  predicate IsNumber(w: string) {
    var a := if |w| > 0 && w[0] == '-' then 1 else 0;
    var b := DigitsEnd(w, a);
    var c := if b < |w| && w[b] == '.' then DigitsEnd(w, b + 1) else b;
    a < b && (w[a] == '0' ==> b == a + 1) && c != b + 1 && IsExponent(w, c)
  }

  /** `null`, `true`, `false`, a number, or one of the three non-finite names that Python also reads. */
  function ParseAtom(t: string, i: nat): (r: Parsed<Json>)
    requires i <= |t|
    ensures r.Good? ==> i < r.end <= |t|
  {
    if At(t, i, "null") then Good(Null, i + 4)
    else if At(t, i, "true") then Good(Bool(true), i + 4)
    else if At(t, i, "false") then Good(Bool(false), i + 5)
    else if At(t, i, "NaN") then Good(Number, i + 3)
    else if At(t, i, "Infinity") then Good(Number, i + 8)
    else if At(t, i, "-Infinity") then Good(Number, i + 9)
    else
      var e := NumberEnd(t, i);
      if i < e && IsNumber(t[i..e]) then Good(Number, e) else Bad
  }

  // ---------------------------------------------------------------- values (sections 3 to 5)

  datatype Next = Close(end: nat) | Comma(start: nat) | Neither

  /** After an element or member: the closing character, or a comma and the place of the next one. */
  function NextPart(t: string, i: nat, close: char): (r: Next)
    requires i <= |t|
    ensures r.Close? ==> i < r.end <= |t|
    ensures r.Comma? ==> i < r.start <= |t|
  {
    var n := SkipJson(t, i);
    if n < |t| && t[n] == close then Close(n + 1)
    else if n < |t| && t[n] == ',' then Comma(SkipJson(t, n + 1))
    else Neither
  }

  function ParseValue(t: string, i: nat): (r: Parsed<Json>)
    requires i <= |t|
    ensures r.Good? ==> i < r.end <= |t|
    decreases |t| - i, 0
  {
    if i < |t| && t[i] == '"' then
      match ParseString(t, i) { case Bad => Bad case Good(s, e) => Good(String(s), e) }
    else if i < |t| && t[i] == '[' then
      var k := SkipJson(t, i + 1);
      if k < |t| && t[k] == ']' then Good(Array([]), k + 1)
      else match ParseElements(t, k) { case Bad => Bad case Good(vs, e) => Good(Array(vs), e) }
    else if i < |t| && t[i] == '{' then
      var k := SkipJson(t, i + 1);
      if k < |t| && t[k] == '}' then Good(Object([]), k + 1)
      else match ParseMembers(t, k) { case Bad => Bad case Good(ms, e) => Good(Object(ms), e) }
    else ParseAtom(t, i)
  }

  /** One or more elements and the closing bracket. */
  function ParseElements(t: string, i: nat): (r: Parsed<seq<Json>>)
    requires i <= |t|
    ensures r.Good? ==> i < r.end <= |t| && |r.value| > 0
    decreases |t| - i, 1
  {
    match ParseValue(t, i)
    case Bad => Bad
    case Good(v, e) =>
      match NextPart(t, e, ']')
      case Neither => Bad
      case Close(j) => Good([v], j)
      case Comma(j) => match ParseElements(t, j) { case Bad => Bad case Good(vs, e') => Good([v] + vs, e') }
  }

  /** One key, colon and value. */
  function ParseMember(t: string, i: nat): (r: Parsed<Member>)
    requires i <= |t|
    ensures r.Good? ==> i < r.end <= |t|
    decreases |t| - i, 1
  {
    match ParseString(t, i)
    case Bad => Bad
    case Good(key, e) =>
      var c := SkipJson(t, e);
      if c == |t| || t[c] != ':' then Bad
      else match ParseValue(t, SkipJson(t, c + 1))
        case Bad => Bad
        case Good(v, e') => Good(Member(t[i..e], key, v), e')
  }

  /** One or more members and the closing brace. */
  function ParseMembers(t: string, i: nat): (r: Parsed<seq<Member>>)
    requires i <= |t|
    ensures r.Good? ==> i < r.end <= |t| && |r.value| > 0
    decreases |t| - i, 2
  {
    match ParseMember(t, i)
    case Bad => Bad
    case Good(m, e) =>
      match NextPart(t, e, '}')
      case Neither => Bad
      case Close(j) => Good([m], j)
      case Comma(j) => match ParseMembers(t, j) { case Bad => Bad case Good(ms, e') => Good([m] + ms, e') }
  }

  /** The whole text as one value; None stands for `JSONDecodeError`. */
  function Loads(t: string): Option<Json> {
    match ParseValue(t, SkipJson(t, 0))
    case Bad => None
    case Good(v, e) => if SkipJson(t, e) == |t| then Some(v) else None
  }

  /** A repeated key counts once: a later member replaces an earlier one. */
  function Get(members: seq<Member>, key: Str): Option<Json> {
    if members == [] then None
    else if members[|members| - 1].key == key then Some(members[|members| - 1].value)
    else Get(members[..|members| - 1], key)
  }

  function Keys(members: seq<Member>): set<Str> {
    set m | m in members :: m.key
  }
}
