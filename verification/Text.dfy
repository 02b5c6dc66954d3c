/** Text as the draft code sees it.

Text on the wire is a `string`. A decoded JSON string is a `Str`, a sequence of
code points, because a `\u` escape can name a surrogate that no `char` holds. */
module Text {
  datatype Option<+T> = None | Some(value: T)

  type Str = seq<int>

  function Codes(s: string): Str {
    seq(|s|, i requires 0 <= i < |s| => s[i] as int)
  }

  /** The characters that `str.isspace`, `str.strip` and `\s` call blank. */
  predicate IsSpaceCode(c: int) {
    0x09 <= c <= 0x0d || 0x1c <= c <= 0x20 || c == 0x85 || c == 0xa0 || c == 0x1680
    || 0x2000 <= c <= 0x200a || c == 0x2028 || c == 0x2029 || c == 0x202f || c == 0x205f || c == 0x3000
  }

  predicate IsSpace(c: char) {
    IsSpaceCode(c as int)
  }

  /** RFC 8259 section 2: the only blanks allowed between JSON tokens. */
  predicate IsJsonSpace(c: char) {
    c == ' ' || c == '\t' || c == '\n' || c == '\r'
  }

  /** Index of the first non-blank character at or after `i`, or the length. */
  function SkipSpaces(t: string, i: nat): (j: nat)
    requires i <= |t|
    ensures i <= j <= |t|
    ensures forall x | i <= x < j :: IsSpace(t[x])
    ensures j < |t| ==> !IsSpace(t[j])
    decreases |t| - i
  {
    if i < |t| && IsSpace(t[i]) then SkipSpaces(t, i + 1) else i
  }

  /** The same for the blanks of JSON. */
  function SkipJson(t: string, i: nat): (j: nat)
    requires i <= |t|
    ensures i <= j <= |t|
    ensures forall x | i <= x < j :: IsJsonSpace(t[x])
    ensures j < |t| ==> !IsJsonSpace(t[j])
    decreases |t| - i
  {
    if i < |t| && IsJsonSpace(t[i]) then SkipJson(t, i + 1) else i
  }

  /** `t` reads `w` at position `i`. */
  predicate At(t: string, i: nat, w: string) {
    i + |w| <= |t| && forall x | 0 <= x < |w| :: t[i + x] == w[x]
  }

  lemma AtSplit(t: string, i: nat, a: string, b: string)
    ensures At(t, i, a + b) <==> At(t, i, a) && At(t, i + |a|, b)
  {
    var w := a + b;
    if At(t, i, w) {
      forall x | 0 <= x < |a| ensures t[i + x] == a[x] { assert w[x] == a[x]; }
      forall x | 0 <= x < |b| ensures t[i + |a| + x] == b[x] {
        assert w[|a| + x] == b[x] && t[i + (|a| + x)] == w[|a| + x];
      }
    }
    if At(t, i, a) && At(t, i + |a|, b) {
      forall x | 0 <= x < |w| ensures t[i + x] == w[x] {
        if x >= |a| { assert t[i + |a| + (x - |a|)] == b[x - |a|]; }
      }
    }
  }

  lemma AtStarts(t: string, i: nat, w: string)
    requires At(t, i, w) && w != ""
    ensures i < |t| && t[i] == w[0]
  {
    assert t[i + 0] == w[0];
  }

  lemma AtSelf(w: string)
    ensures At(w, 0, w)
  {
  }

  function Strip(s: Str): Str {
    StripEnd(StripStart(s))
  }

  function StripStart(s: Str): Str {
    if |s| > 0 && IsSpaceCode(s[0]) then StripStart(s[1..]) else s
  }

  function StripEnd(s: Str): Str {
    if |s| > 0 && IsSpaceCode(s[|s| - 1]) then StripEnd(s[..|s| - 1]) else s
  }

  function Flatten<T>(chunks: seq<seq<T>>): seq<T> {
    if chunks == [] then [] else Flatten(chunks[..|chunks| - 1]) + chunks[|chunks| - 1]
  }

  function Join(sep: Str, parts: seq<Str>): Str {
    if |parts| == 0 then []
    else if |parts| == 1 then parts[0]
    else Join(sep, parts[..|parts| - 1]) + sep + parts[|parts| - 1]
  }
}
