/** The two key patterns of the draft reader, as leftmost searches.

`"abstain"\s*:\s*(true|false)` and `"claims"\s*:\s*\[`. What makes streaming
possible is `SearchPrefix`: more text never moves the first match. */
module KeySearch {
  import opened Text

  datatype Key = Abstain | Claims

  /** `end` is the index after the match; `value` is the boolean that `abstain` was given. */
  datatype Hit = Miss | Hit(end: nat, value: bool)

  function Quoted(k: Key): string {
    match k
    case Abstain => "\"abstain\""
    case Claims => "\"claims\""
  }

  function TailAt(k: Key, t: string, i: nat): Hit {
    match k
    case Abstain => if At(t, i, "true") then Hit(i + 4, true) else if At(t, i, "false") then Hit(i + 5, false) else Miss
    case Claims => if At(t, i, "[") then Hit(i + 1, false) else Miss
  }

  /** `\s*:\s*` read from `i`. */
  function AfterColon(t: string, i: nat): (j: Option<nat>)
    requires i <= |t|
    ensures j.Some? ==> i < j.value <= |t|
  {
    var j := SkipSpaces(t, i);
    if j < |t| && t[j] == ':' then Some(SkipSpaces(t, j + 1)) else None
  }

  /** The match of the pattern at exactly position `p`. */
  function HitAt(k: Key, t: string, p: nat): Hit {
    if !At(t, p, Quoted(k)) then Miss
    else match AfterColon(t, p + |Quoted(k)|)
      case None => Miss
      case Some(i) => TailAt(k, t, i)
  }

  predicate Blank(w: string) {
    forall c | c in w :: IsSpace(c)
  }

  /** What the pattern ends with, for either value. */
  function Ending(k: Key, value: bool): string {
    match k
    case Abstain => if value then "true" else "false"
    case Claims => "["
  }

  /** A match is the quoted key, a colon with any blanks before and after it, and one of the endings. */
  predicate Spelled(k: Key, t: string, p: nat, value: bool, end: nat, a: string, b: string) {
    var w := Quoted(k) + a + (":" + b + Ending(k, value));
    Blank(a) && Blank(b) && At(t, p, w) && end == p + |w| && (k == Claims ==> !value)
  }

  lemma BlanksSkipped(t: string, i: nat, a: string, next: string)
    requires Blank(a) && At(t, i, a + next) && next != "" && !IsSpace(next[0])
    ensures i + |a| < |t| && SkipSpaces(t, i) == i + |a| && t[i + |a|] == next[0] && At(t, i + |a|, next)
  {
    AtSplit(t, i, a, next);
    AtStarts(t, i + |a|, next);
    forall x | i <= x < i + |a| ensures IsSpace(t[x]) { assert t[i + (x - i)] == a[x - i]; }
    var j := SkipSpaces(t, i);
    assert !(j < i + |a|) && !(j > i + |a|);
  }

  lemma SkippedIsBlank(t: string, i: nat, j: nat)
    requires i <= |t| && j == SkipSpaces(t, i)
    ensures Blank(t[i..j]) && At(t, i, t[i..j])
  {
  }

  lemma EndingIff(k: Key, t: string, i: nat, value: bool, end: nat)
    ensures TailAt(k, t, i) == Hit(end, value) <==>
      At(t, i, Ending(k, value)) && end == i + |Ending(k, value)| && (k == Claims ==> !value)
  {
    if At(t, i, "true") { AtStarts(t, i, "true"); }
    if At(t, i, "false") { AtStarts(t, i, "false"); }
  }

  lemma PatternIff(k: Key, t: string, p: nat, value: bool, end: nat)
    ensures HitAt(k, t, p) == Hit(end, value) <==> exists a, b :: Spelled(k, t, p, value, end, a, b)
  {
    hide At, Ending, TailAt, Quoted, Spelled;
    if HitAt(k, t, p) == Hit(end, value) { MatchIsSpelled(k, t, p, value, end); }
    if a, b :| Spelled(k, t, p, value, end, a, b) { SpelledMatches(k, t, p, value, end, a, b); }
  }

  lemma MatchIsSpelled(k: Key, t: string, p: nat, value: bool, end: nat)
    requires HitAt(k, t, p) == Hit(end, value)
    ensures exists a, b :: Spelled(k, t, p, value, end, a, b)
  {
    hide At, Ending, TailAt, Quoted, Blank;
    var q := p + |Quoted(k)|;
    AtFits(t, p, Quoted(k));
    var j := SkipSpaces(t, q);
    var i := AfterColon(t, q).value;
    var a, b, last := t[q..j], t[j + 1..i], Ending(k, value);
    SkippedIsBlank(t, q, j);
    SkippedIsBlank(t, j + 1, i);
    EndingIff(k, t, i, value, end);
    ColonAt(t, j);
    AtSplit(t, p, Quoted(k), a);
    AtSplit(t, j, ":", b);
    AtSplit(t, j, ":" + b, last);
    AtSplit(t, p, Quoted(k) + a, ":" + b + last);
    assert Spelled(k, t, p, value, end, a, b);
  }

  lemma AtFits(t: string, i: nat, w: string)
    ensures At(t, i, w) ==> i + |w| <= |t|
  {
  }

  lemma ColonAt(t: string, j: nat)
    requires j < |t|
    ensures At(t, j, ":") <==> t[j] == ':'
  {
    if At(t, j, ":") { AtStarts(t, j, ":"); }
    if t[j] == ':' { assert forall x | 0 <= x < 1 :: x == 0 && ":"[x] == ':'; }
  }

  lemma SpelledMatches(k: Key, t: string, p: nat, value: bool, end: nat, a: string, b: string)
    requires Spelled(k, t, p, value, end, a, b)
    ensures HitAt(k, t, p) == Hit(end, value)
  {
    hide At, Ending, TailAt, Quoted, Blank;
    var q, last := p + |Quoted(k)|, Ending(k, value);
    var rest := ":" + b + last;
    AtSplit(t, p, Quoted(k) + a, rest);
    AtSplit(t, p, Quoted(k), a);
    AtSplit(t, q, a, rest);
    BlanksSkipped(t, q, a, rest);
    var j := q + |a|;
    AtSplit(t, j, ":", b + last);
    assert rest == ":" + (b + last);
    EndingStarts(k, value);
    BlanksSkipped(t, j + 1, b, last);
    EndingIff(k, t, j + 1 + |b|, value, end);
  }

  lemma EndingStarts(k: Key, value: bool)
    ensures Ending(k, value) != "" && !IsSpace(Ending(k, value)[0])
  {
  }

  function SearchFrom(k: Key, t: string, p: nat): Hit
    decreases |t| - p
  {
    if p >= |t| then Miss
    else if HitAt(k, t, p).Hit? then HitAt(k, t, p)
    else SearchFrom(k, t, p + 1)
  }

  /** `re.search`: the leftmost match. */
  function Search(k: Key, t: string): Hit {
    SearchFrom(k, t, 0)
  }

  ghost predicate IsFirst(k: Key, t: string, p: nat) {
    p < |t| && HitAt(k, t, p).Hit? && forall q: nat | q < p :: HitAt(k, t, q).Miss?
  }

  lemma {:induction false} SearchIsFirst(k: Key, t: string, from: nat, p: nat)
    requires from <= p && IsFirst(k, t, p)
    ensures SearchFrom(k, t, from) == HitAt(k, t, p)
    decreases p - from
  {
    hide HitAt;
    if from < p { SearchIsFirst(k, t, from + 1, p); }
  }

  lemma {:induction false} SearchFinds(k: Key, t: string, from: nat) returns (p: nat)
    requires forall q: nat | q < from :: HitAt(k, t, q).Miss?
    ensures SearchFrom(k, t, from).Hit? ==> IsFirst(k, t, p) && HitAt(k, t, p) == SearchFrom(k, t, from)
    ensures SearchFrom(k, t, from).Miss? ==> forall q: nat | q < |t| :: HitAt(k, t, q).Miss?
    decreases |t| - from
  {
    hide HitAt;
    p := from;
    if from < |t| && HitAt(k, t, from).Miss? { p := SearchFinds(k, t, from + 1); }
  }

  lemma SkipSpacesPrefix(t: string, n: nat, i: nat)
    requires i <= n <= |t|
    ensures SkipSpaces(t[..n], i) == if SkipSpaces(t, i) <= n then SkipSpaces(t, i) else n
  {
    assert forall x | 0 <= x < n :: t[..n][x] == t[x];
    var a, b := SkipSpaces(t[..n], i), SkipSpaces(t, i);
    assert a < n ==> !IsSpace(t[a]);
    assert b < n ==> !IsSpace(t[..n][b]);
  }

  lemma AtPrefix(t: string, n: nat, i: nat, w: string)
    requires n <= |t|
    ensures At(t[..n], i, w) <==> At(t, i, w) && i + |w| <= n
  {
  }

  /** A match lies inside the text, and cutting the text anywhere after it leaves it unchanged. */
  lemma HitPrefix(k: Key, t: string, n: nat, p: nat)
    requires n <= |t|
    ensures HitAt(k, t, p).Hit? ==> p < HitAt(k, t, p).end <= |t|
    ensures HitAt(k, t[..n], p)
         == if HitAt(k, t, p).Hit? && HitAt(k, t, p).end <= n then HitAt(k, t, p) else Miss
  {
    hide AfterColon, TailAt, Quoted;
    var q := p + |Quoted(k)|;
    AtPrefix(t, n, p, Quoted(k));
    if At(t, p, Quoted(k)) {
      if q <= n { AfterColonPrefix(t, n, q); }
      if AfterColon(t, q).Some? {
        var i := AfterColon(t, q).value;
        TailPrefix(k, t, n, i);
        if n < i { TailPrefix(k, t, n, n); }
      }
    }
  }

  lemma AfterColonPrefix(t: string, n: nat, i: nat)
    requires i <= n <= |t|
    ensures AfterColon(t, i).Some? && AfterColon(t, i).value <= n ==> AfterColon(t[..n], i) == AfterColon(t, i)
    ensures AfterColon(t[..n], i) in {None, Some(n), AfterColon(t, i)}
    ensures AfterColon(t[..n], i) == Some(n) ==> AfterColon(t, i).Some? && n <= AfterColon(t, i).value
  {
    SkipSpacesPrefix(t, n, i);
    var j := SkipSpaces(t, i);
    if j < n { SkipSpacesPrefix(t, n, j + 1); }
  }

  lemma TailPrefix(k: Key, t: string, n: nat, i: nat)
    requires n <= |t|
    ensures TailAt(k, t, i).Hit? ==> i < TailAt(k, t, i).end <= |t|
    ensures TailAt(k, t[..n], i)
         == if TailAt(k, t, i).Hit? && TailAt(k, t, i).end <= n then TailAt(k, t, i) else Miss
  {
    AtPrefix(t, n, i, "true");
    AtPrefix(t, n, i, "false");
    AtPrefix(t, n, i, "[");
    if At(t, i, "true") { assert t[i + 0] == "true"[0]; }
    if At(t, i, "false") { assert t[i + 0] == "false"[0]; }
  }

  /** Inside a match only the two quotes of the key are quotes. */
  lemma QuotesInHit(k: Key, t: string, p: nat, x: nat)
    requires HitAt(k, t, p).Hit? && p < x < HitAt(k, t, p).end && x < |t| && t[x] == '"'
    ensures x == p + |Quoted(k)| - 1
  {
    var w := Quoted(k);
    assert forall y | 0 <= y < |w| && w[y] == '"' :: y == 0 || y == |w| - 1;
    assert x < p + |w| ==> t[p + (x - p)] == w[x - p];
    TailHasNoQuote(k, t, AfterColon(t, p + |w|).value);
  }

  lemma TailHasNoQuote(k: Key, t: string, i: nat)
    requires TailAt(k, t, i).Hit?
    ensures TailAt(k, t, i).end <= |t|
    ensures forall x | i <= x < TailAt(k, t, i).end :: t[x] != '"'
  {
    var w := if k == Claims then "[" else if At(t, i, "true") then "true" else "false";
    assert forall x | 0 <= x < |w| :: w[x] != '"';
    forall x | i <= x < TailAt(k, t, i).end ensures t[x] != '"' { assert t[i + (x - i)] == w[x - i]; }
  }

  /** Two matches of one pattern never overlap. */
  lemma HitsDisjoint(k: Key, t: string, p: nat, q: nat)
    requires HitAt(k, t, p).Hit? && HitAt(k, t, q).Hit? && p < q
    ensures HitAt(k, t, p).end <= q
  {
    var w := Quoted(k);
    assert t[q + 0] == w[0] && t[q + 1] == w[1];
    if q < HitAt(k, t, p).end {
      QuotesInHit(k, t, p, q);
    }
  }

  /** The first match in a prefix is the first match in the text, if the prefix holds
  it, and otherwise the prefix has no match at all. */
  lemma SearchPrefix(k: Key, t: string, n: nat)
    requires n <= |t|
    ensures Search(k, t).Hit? ==> Search(k, t).end <= |t|
    ensures Search(k, t[..n])
         == if Search(k, t).Hit? && Search(k, t).end <= n then Search(k, t) else Miss
  {
    var p := SearchFinds(k, t, 0);
    var q := SearchFinds(k, t[..n], 0);
    HitPrefix(k, t, n, p);
    HitPrefix(k, t, n, q);
    if Search(k, t).Hit? && Search(k, t).end <= n {
      forall x: nat | x < p ensures HitAt(k, t[..n], x).Miss? { HitPrefix(k, t, n, x); }
      SearchIsFirst(k, t[..n], 0, p);
    } else if Search(k, t[..n]).Hit? && p < q {
      HitsDisjoint(k, t, p, q);
    }
  }
}
