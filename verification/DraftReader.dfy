/** The incremental reader of a half-received draft (`streaming_draft.py`). */
module DraftReader {
  import opened Text
  import opened KeySearch
  import Json
  import opened AnswerDraft

  // ---------------------------------------------------------------- the object scanner

  /** Where the brace scanner stands between two characters. */
  datatype Lex = Lex(depth: int, inString: bool, escaped: bool)

  function Step(s: Lex, c: char): Lex {
    if s.inString then
      if s.escaped then s.(escaped := false)
      else if c == '\\' then s.(escaped := true)
      else if c == '"' then s.(inString := false)
      else s
    else if c == '"' then s.(inString := true)
    else if c == '{' then s.(depth := s.depth + 1)
    else if c == '}' then s.(depth := s.depth - 1)
    else s
  }

  predicate Closes(s: Lex, c: char) {
    !s.inString && c == '}' && s.depth == 1
  }

  /** The index after the brace that closes the object being scanned, if it has arrived. */
  function ScanEnd(t: string, i: nat, s: Lex): (e: Option<nat>)
    ensures e.Some? ==> i < e.value <= |t|
    decreases |t| - i
  {
    if i >= |t| then None
    else if Closes(s, t[i]) then Some(i + 1)
    else ScanEnd(t, i + 1, Step(s, t[i]))
  }

  predicate IsSeparator(c: char) {
    c == ',' || Text.IsJsonSpace(c)
  }

  function SkipSeparators(t: string, i: nat): (j: nat)
    requires i <= |t|
    ensures i <= j <= |t|
    ensures forall x | i <= x < j :: IsSeparator(t[x])
    ensures j < |t| ==> !IsSeparator(t[j])
    decreases |t| - i
  {
    if i < |t| && IsSeparator(t[i]) then SkipSeparators(t, i + 1) else i
  }

  /** `Stray` is the ValueError for an array element that is not an object. */
  datatype Found = Object(text: string, end: nat) | Incomplete | Stray

  function NextObject(t: string, start: nat): (r: Found)
    requires start <= |t|
    ensures r.Object? ==> start < r.end <= |t|
  {
    var i := SkipSeparators(t, start);
    if i == |t| || t[i] == ']' then Incomplete
    else if t[i] != '{' then Stray
    else match ScanEnd(t, i, Lex(0, false, false))
      case None => Incomplete
      case Some(e) => Object(t[i..e], e)
  }

  /** `_next_object`, as the loop it is. */
  method FindObject(t: string, start: nat) returns (r: Found)
    requires start <= |t|
    ensures r == NextObject(t, start)
  {
    var index := start;
    while index < |t| && IsSeparator(t[index])
      invariant start <= index <= |t|
      invariant SkipSeparators(t, index) == SkipSeparators(t, start)
    {
      index := index + 1;
    }
    if index >= |t| || t[index] == ']' { return Incomplete; }
    if t[index] != '{' { return Stray; }
    var depth, inString, escaped, cursor := 0, false, false, index;
    while cursor < |t|
      invariant index <= cursor <= |t|
      invariant ScanEnd(t, cursor, Lex(depth, inString, escaped)) == ScanEnd(t, index, Lex(0, false, false))
    {
      var c := t[cursor];
      if inString {
        if escaped { escaped := false; }
        else if c == '\\' { escaped := true; }
        else if c == '"' { inString := false; }
      } else if c == '"' {
        inString := true;
      } else if c == '{' {
        depth := depth + 1;
      } else if c == '}' {
        depth := depth - 1;
        if depth == 0 { return Object(t[index..cursor + 1], cursor + 1); }
      }
      cursor := cursor + 1;
    }
    return Incomplete;
  }

  /** The first character that is neither a comma nor a blank of JSON decides. */
  lemma FirstDecides(t: string, start: nat, i: nat)
    requires start <= i <= |t|
    requires (forall x | start <= x < i :: t[x] in ", \t\r\n") && (i < |t| ==> t[i] !in ", \t\r\n")
    ensures i == |t| || t[i] == ']' ==> NextObject(t, start) == Incomplete
    ensures i < |t| && t[i] != ']' && t[i] != '{' ==> NextObject(t, start) == Stray
    ensures var found := NextObject(t, start); i < |t| && t[i] == '{' && found != Incomplete ==>
      found.Object? && i < found.end && found.text == t[i..found.end]
  {
    hide ScanEnd;
    assert forall c :: IsSeparator(c) <==> c in ", \t\r\n";
    assert SkipSeparators(t, start) == i;
  }

  // ---------------------------------------------------------------- the reader's specification

  /** `json.loads` and `build_claim` on the text of one object. */
  function ClaimOf(text: string, known: set<Str>): Option<Claim> {
    match Json.Loads(text)
    case None => None
    case Some(v) => BuildClaim(v, known)
  }

  datatype Read = Read(claims: seq<Claim>, cursor: nat, gaveUp: bool)

  /** Every complete claim from `cursor` on, and where and how the reading stopped. */
  function ReadFrom(known: set<Str>, t: string, cursor: nat): (r: Read)
    requires cursor <= |t|
    ensures cursor <= r.cursor <= |t|
    decreases |t| - cursor
  {
    match NextObject(t, cursor)
    case Incomplete => Read([], cursor, false)
    case Stray => Read([], cursor, true)
    case Object(text, e) =>
      match ClaimOf(text, known)
      case None => Read([], e, true)
      case Some(c) => var r := ReadFrom(known, t, e); r.(claims := [c] + r.claims)
  }

  datatype Reader = Reader(buffer: string, abstain: Option<bool>, cursor: Option<nat>, gaveUp: bool)

  const FRESH := Reader("", None, None, false)

  predicate WellFormed(r: Reader) {
    r.cursor.Some? ==> r.cursor.value <= |r.buffer|
  }

  /** The first non-blank character, if any, is an opening brace. */
  predicate OpensLikeObject(t: string) {
    var i := SkipSpaces(t, 0);
    i == |t| || t[i] == '{'
  }

  lemma OpensIff(t: string)
    ensures OpensLikeObject(t) <==>
      forall i | 0 <= i < |t| && !IsSpace(t[i]) && (forall j | 0 <= j < i :: IsSpace(t[j])) :: t[i] == '{'
  {
    var i := SkipSpaces(t, 0);
    assert forall k | 0 <= k < |t| && !IsSpace(t[k]) && (forall j | 0 <= j < k :: IsSpace(t[j])) :: k == i;
  }

  /** The part of `feed` after the text has been added. */
  function Advance(known: set<Str>, r: Reader): (res: (Reader, seq<Claim>))
    requires WellFormed(r)
    ensures WellFormed(res.0)
  {
    if r.abstain.None? && Search(Abstain, r.buffer).Miss? then
      (r.(gaveUp := r.gaveUp || Search(Claims, r.buffer).Hit?), [])
    else
      var abstain := if r.abstain.None? then Search(Abstain, r.buffer).value else r.abstain.value;
      if r.abstain.None? && abstain then (r.(abstain := Some(true), gaveUp := true), [])
      else if r.cursor.None? && Search(Claims, r.buffer).Miss? then
        (r.(abstain := Some(abstain), gaveUp := r.gaveUp || !OpensLikeObject(r.buffer)), [])
      else
        SearchPrefix(Claims, r.buffer, |r.buffer|);
        var cursor := if r.cursor.None? then Search(Claims, r.buffer).end else r.cursor.value;
        var read := ReadFrom(known, r.buffer, cursor);
        (Reader(r.buffer, Some(abstain), Some(read.cursor), r.gaveUp || read.gaveUp), read.claims)
  }

  function Fed(known: set<Str>, r: Reader, chunk: string): (res: (Reader, seq<Claim>))
    requires WellFormed(r)
    ensures WellFormed(res.0)
  {
    if r.gaveUp then (r, []) else Advance(known, r.(buffer := r.buffer + chunk))
  }

  /** Feeding the chunks one by one, from a fresh reader, with all the claims that came out. */
  function FeedAll(known: set<Str>, chunks: seq<string>): (res: (Reader, seq<Claim>))
    ensures WellFormed(res.0)
  {
    if chunks == [] then (FRESH, [])
    else
      var (r, out) := FeedAll(known, chunks[..|chunks| - 1]);
      var (r', more) := Fed(known, r, chunks[|chunks| - 1]);
      (r', out + more)
  }

  /** What one feed of the whole text yields. */
  function Whole(known: set<Str>, t: string): seq<Claim> {
    Fed(known, FRESH, t).1
  }

  // ---------------------------------------------------------------- the reader itself

  class IncrementalDraftReader {
    const evidenceIds: set<Str>
    var buffer: string
    var abstain: Option<bool>
    var cursor: Option<nat>
    var gaveUp: bool

    function Model(): Reader
      reads this
    {
      Reader(buffer, abstain, cursor, gaveUp)
    }

    constructor (evidenceIds: set<Str>)
      ensures Model() == FRESH && this.evidenceIds == evidenceIds
    {
      this.evidenceIds := evidenceIds;
      buffer, abstain, cursor, gaveUp := "", None, None, false;
    }

    method Feed(chunk: string) returns (claims: seq<Claim>)
      requires WellFormed(Model())
      modifies this
      ensures WellFormed(Model())
      ensures (Model(), claims) == Fed(evidenceIds, old(Model()), chunk)
    {
      hide Search, ReadFrom, OpensLikeObject;
      if gaveUp { return []; }
      buffer := buffer + chunk;
      claims := [];
      if abstain.None? {
        var match_ := Search(Abstain, buffer);
        if match_.Miss? {
          if Search(Claims, buffer).Hit? { gaveUp := true; }
          return;
        }
        abstain := Some(match_.value);
        if match_.value {
          gaveUp := true;
          return;
        }
      }
      if cursor.None? {
        var opening := Search(Claims, buffer);
        if opening.Miss? {
          if !OpensLikeObject(buffer) { gaveUp := true; }
          return;
        }
        SearchPrefix(Claims, buffer, |buffer|);
        cursor := Some(opening.end);
      }
      claims := ReadClaims();
    }

    /** The reading loop at the end of `feed`. */
    method ReadClaims() returns (claims: seq<Claim>)
      requires WellFormed(Model()) && cursor.Some? && !gaveUp
      modifies this`cursor, this`gaveUp
      ensures WellFormed(Model())
      ensures var r := ReadFrom(evidenceIds, buffer, old(cursor).value);
        claims == r.claims && cursor == Some(r.cursor) && gaveUp == r.gaveUp
    {
      hide NextObject, ClaimOf;
      claims := [];
      while true
        invariant WellFormed(Model()) && cursor.Some? && !gaveUp
        invariant ReadFrom(evidenceIds, buffer, old(cursor).value)
               == var r := ReadFrom(evidenceIds, buffer, cursor.value); r.(claims := claims + r.claims)
        decreases |buffer| - cursor.value
      {
        var found := FindObject(buffer, cursor.value);
        if found.Stray? {
          gaveUp := true;
          return;
        }
        if found.Incomplete? { return; }
        ghost var before := cursor.value;
        cursor := Some(found.end);
        var claim := ClaimOf(found.text, evidenceIds);
        if claim.None? {
          gaveUp := true;
          return;
        }
        assert claims + ReadFrom(evidenceIds, buffer, before).claims
            == claims + [claim.value] + ReadFrom(evidenceIds, buffer, cursor.value).claims;
        claims := claims + [claim.value];
      }
    }
  }
}
