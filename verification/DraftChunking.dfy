/** How much the cutting of a draft into chunks can matter. */
module DraftChunking {
  import opened Text
  import opened KeySearch
  import opened AnswerDraft
  import opened DraftReader

  // ---------------------------------------------------------------- more text changes nothing already read

  lemma {:induction false} ScanPrefix(t: string, n: nat, i: nat, s: Lex)
    requires n <= |t| && ScanEnd(t[..n], i, s).Some?
    ensures ScanEnd(t, i, s) == ScanEnd(t[..n], i, s)
    decreases n - i
  {
    hide Step;
    assert t[..n][i] == t[i];
    if !Closes(s, t[i]) { ScanPrefix(t, n, i + 1, Step(s, t[i])); }
  }

  lemma SkipSeparatorsPrefix(t: string, n: nat, i: nat)
    requires i <= n <= |t|
    ensures SkipSeparators(t[..n], i) == if SkipSeparators(t, i) <= n then SkipSeparators(t, i) else n
  {
    assert forall x | 0 <= x < n :: t[..n][x] == t[x];
    var a, b := SkipSeparators(t[..n], i), SkipSeparators(t, i);
    assert a < n ==> !IsSeparator(t[a]);
    assert b < n ==> !IsSeparator(t[..n][b]);
  }

  lemma NextObjectPrefix(t: string, n: nat, i: nat)
    requires i <= n <= |t| && !NextObject(t[..n], i).Incomplete?
    ensures NextObject(t, i) == NextObject(t[..n], i)
  {
    hide ScanEnd;
    SkipSeparatorsPrefix(t, n, i);
    var k := SkipSeparators(t, i);
    assert t[..n][k] == t[k];
    if t[k] == '{' {
      ScanPrefix(t, n, k, Lex(0, false, false));
      var e := ScanEnd(t, k, Lex(0, false, false)).value;
      assert t[..n][k..e] == t[k..e];
    }
  }

  lemma Concat<T>(a: seq<T>, b: seq<T>, c: seq<T>)
    ensures a + (b + c) == a + b + c
  {
  }

  /** Reading a longer text repeats the reading of its prefix and goes on from there, unless it gave up. */
  lemma {:induction false} ReadPrefix(known: set<Str>, t: string, n: nat, i: nat)
    requires i <= n <= |t|
    ensures var r := ReadFrom(known, t[..n], i);
      ReadFrom(known, t, i)
      == if r.gaveUp then r else var q := ReadFrom(known, t, r.cursor); q.(claims := r.claims + q.claims)
    decreases n - i
  {
    hide NextObject, ClaimOf;
    var found := NextObject(t[..n], i);
    if !found.Incomplete? { NextObjectPrefix(t, n, i); }
    if found.Object? && ClaimOf(found.text, known).Some? {
      ReadPrefix(known, t, n, found.end);
      var r := ReadFrom(known, t[..n], found.end);
      if !r.gaveUp { Concat([ClaimOf(found.text, known).value], r.claims, ReadFrom(known, t, r.cursor).claims); }
    }
  }

  // ---------------------------------------------------------------- the reader after any chunks

  /** The reading of `b` from its claims opening, which exists. */
  ghost predicate Reads(known: set<Str>, b: string, read: Read) {
    && Search(Abstain, b).Hit? && !Search(Abstain, b).value
    && Search(Claims, b).Hit? && Search(Claims, b).end <= |b|
    && ReadFrom(known, b, Search(Claims, b).end) == read
  }

  /** What a reader that has received `b` and yielded `out` is like. */
  ghost predicate Tracks(known: set<Str>, b: string, r: Reader, out: seq<Claim>) {
    if r.gaveUp then
      if r.cursor.None? then out == [] else Reads(known, b, Read(out, r.cursor.value, true))
    else
      && r.buffer == b
      && (r.abstain.None? ==> Search(Abstain, b).Miss? && Search(Claims, b).Miss? && r.cursor.None?)
      && (r.abstain.Some? ==> Search(Abstain, b).Hit? && !Search(Abstain, b).value && !r.abstain.value)
      && (r.cursor.None? ==> out == [] && Search(Claims, b).Miss?)
      && (r.cursor.Some? ==> Reads(known, b, Read(out, r.cursor.value, false)))
  }

  lemma ReadsLonger(known: set<Str>, b: string, n: nat, read: Read)
    requires n <= |b| && Reads(known, b[..n], read)
    ensures Search(Claims, b) == Search(Claims, b[..n])
    ensures read.cursor <= n
    ensures Reads(known, b, if read.gaveUp then read else
        var q := ReadFrom(known, b, read.cursor); q.(claims := read.claims + q.claims))
  {
    hide Search, ReadFrom;
    SearchPrefix(Abstain, b, n);
    SearchPrefix(Claims, b, n);
    ReadPrefix(known, b, n, Search(Claims, b).end);
  }

  lemma FedTracks(known: set<Str>, b: string, n: nat, r: Reader, out: seq<Claim>)
    requires n <= |b| && WellFormed(r) && Tracks(known, b[..n], r, out)
    ensures var (r', more) := Fed(known, r, b[n..]); Tracks(known, b, r', out + more)
  {
    hide Search, ReadFrom, OpensLikeObject;
    assert b == b[..n] + b[n..];
    SearchPrefix(Abstain, b, n);
    SearchPrefix(Claims, b, n);
    if r.gaveUp {
      assert out + [] == out;
      if r.cursor.Some? { ReadsLonger(known, b, n, Read(out, r.cursor.value, true)); }
    } else if r.cursor.Some? {
      ReadsLonger(known, b, n, Read(out, r.cursor.value, false));
    } else if Search(Claims, b).Hit? {
      var read := ReadFrom(known, b, Search(Claims, b).end);
      assert out + read.claims == read.claims;
    }
  }

  lemma {:induction false} AllTracks(known: set<Str>, chunks: seq<string>)
    ensures Tracks(known, Flatten(chunks), FeedAll(known, chunks).0, FeedAll(known, chunks).1)
  {
    hide Fed, Tracks;
    if chunks == [] {
      FreshTracks(known);
    } else {
      var init, last := chunks[..|chunks| - 1], chunks[|chunks| - 1];
      AllTracks(known, init);
      var b := Flatten(chunks);
      var n := |Flatten(init)|;
      assert b[..n] == Flatten(init) && b[n..] == last;
      FedTracks(known, b, n, FeedAll(known, init).0, FeedAll(known, init).1);
    }
  }

  lemma FreshTracks(known: set<Str>)
    ensures Tracks(known, "", FRESH, [])
  {
  }

  // ---------------------------------------------------------------- all or nothing

  /** For any text and any chunks the reader ends having yielded either nothing or exactly
  what one feed of the whole text yields; so its output is always a prefix of that. */
  lemma AllOrNothing(known: set<Str>, chunks: seq<string>)
    ensures FeedAll(known, chunks).1 in {[], Whole(known, Flatten(chunks))}
    ensures FeedAll(known, chunks).1 <= Whole(known, Flatten(chunks))
  {
    hide Search, ReadFrom, OpensLikeObject;
    var t := Flatten(chunks);
    AllTracks(known, chunks);
    assert "" + t == t;
  }

  /** `abstain` is matched before the claims open, and nothing but blanks comes before a brace. */
  predicate StreamOrder(t: string) {
    && Search(Abstain, t).Hit? && Search(Claims, t).Hit?
    && Search(Abstain, t).end <= Search(Claims, t).end
    && OpensLikeObject(t)
  }

  /** A reader that has given up did so while reading claims. */
  predicate Settled(r: Reader) {
    r.gaveUp ==> r.cursor.Some?
  }

  lemma OpensPrefix(t: string, n: nat)
    requires n <= |t| && OpensLikeObject(t)
    ensures OpensLikeObject(t[..n])
  {
    SkipSpacesPrefix(t, n, 0);
  }

  lemma FedSettled(known: set<Str>, t: string, m: nat, n: nat, r: Reader, out: seq<Claim>)
    requires m <= n <= |t| && WellFormed(r) && Tracks(known, t[..m], r, out) && Settled(r)
    requires StreamOrder(t) && !Search(Abstain, t).value
    ensures var (r', more) := Fed(known, r, t[m..n]);
      Tracks(known, t[..n], r', out + more) && Settled(r')
  {
    hide Search, ReadFrom, OpensLikeObject;
    var b := t[..n];
    assert b[..m] == t[..m] && b[m..] == t[m..n] && b == t[..m] + t[m..n];
    FedTracks(known, b, m, r, out);
    SearchPrefix(Abstain, t, n);
    SearchPrefix(Claims, t, n);
    OpensPrefix(t, n);
  }

  lemma {:induction false} AllSettled(known: set<Str>, t: string, chunks: seq<string>)
    requires Flatten(chunks) <= t && StreamOrder(t) && !Search(Abstain, t).value
    ensures Tracks(known, Flatten(chunks), FeedAll(known, chunks).0, FeedAll(known, chunks).1)
    ensures Settled(FeedAll(known, chunks).0)
  {
    hide Fed, Tracks, StreamOrder, Search;
    if chunks == [] {
      FreshTracks(known);
    } else {
      var init, last := chunks[..|chunks| - 1], chunks[|chunks| - 1];
      var m, n := |Flatten(init)|, |Flatten(chunks)|;
      assert Flatten(chunks) == Flatten(init) + last;
      assert t[..n] == Flatten(chunks) && t[..m] == Flatten(init) && t[m..n] == last;
      AllSettled(known, t, init);
      FedSettled(known, t, m, n, FeedAll(known, init).0, FeedAll(known, init).1);
    }
  }

  lemma StreamOrderIsEnough(known: set<Str>, t: string, chunks: seq<string>)
    requires StreamOrder(t) && Whole(known, t) != [] && Flatten(chunks) == t
    ensures FeedAll(known, chunks).1 == Whole(known, t)
  {
    hide Search, ReadFrom, OpensLikeObject;
    assert "" + t == t;
    SearchPrefix(Claims, t, |t|);
    AllSettled(known, t, chunks);
  }

  /** A text with something to stream is streamed alike under every cutting
  exactly when it is in stream order. */
  lemma ChunkingNeverMattersIff(known: set<Str>, t: string)
    requires Whole(known, t) != []
    ensures (forall chunks | Flatten(chunks) == t :: FeedAll(known, chunks).1 == Whole(known, t)) <==> StreamOrder(t)
  {
    hide Search, Flatten, FeedAll, Whole, StreamOrder;
    if StreamOrder(t) {
      forall chunks | Flatten(chunks) == t ensures FeedAll(known, chunks).1 == Whole(known, t) {
        StreamOrderIsEnough(known, t, chunks);
      }
    } else {
      BadCut(known, t);
      var n := Earlier(t);
      FeedTwo(known, t[..n], t[n..]);
      assert t == t[..n] + t[n..];
    }
  }

  /** Where the earlier of the two matches ends. */
  function Earlier(t: string): nat
    requires Search(Abstain, t).Hit? && Search(Claims, t).Hit?
  {
    if Search(Abstain, t).end > Search(Claims, t).end then Search(Claims, t).end else Search(Abstain, t).end
  }

  lemma FeedTwo(known: set<Str>, a: string, b: string)
    ensures Flatten([a, b]) == a + b
    ensures Fed(known, FRESH, a).0.gaveUp && Fed(known, FRESH, a).1 == [] ==> FeedAll(known, [a, b]).1 == []
  {
    hide Advance;
    assert [a, b][..1] == [a] && [a][..0] == [];
    assert Flatten([a]) == [] + a;
    assert FeedAll(known, [a]).1 == [] + Fed(known, FRESH, a).1;
  }

  /** Out of stream order, stopping after the earlier of the two matches makes the reader give up. */
  lemma BadCut(known: set<Str>, t: string)
    requires Whole(known, t) != [] && !StreamOrder(t)
    ensures Search(Abstain, t).Hit? && Search(Claims, t).Hit?
    ensures Earlier(t) <= |t|
    ensures Fed(known, FRESH, t[..Earlier(t)]).0.gaveUp && Fed(known, FRESH, t[..Earlier(t)]).1 == []
  {
    hide Search, ReadFrom, OpensLikeObject;
    assert "" + t == t;
    var n := Earlier(t);
    SearchPrefix(Abstain, t, |t|);
    SearchPrefix(Claims, t, |t|);
    SearchPrefix(Abstain, t, n);
    SearchPrefix(Claims, t, n);
    assert "" + t[..n] == t[..n];
    if n == Search(Abstain, t).end {
      EndsDiffer(t);
      OpensEarly(t);
    }
  }

  lemma EndsDiffer(t: string)
    requires Search(Abstain, t).Hit? && Search(Claims, t).Hit?
    ensures Search(Abstain, t).end != Search(Claims, t).end
  {
    hide HitAt;
    var p := SearchFinds(Abstain, t, 0);
    var q := SearchFinds(Claims, t, 0);
    LastOfHit(Abstain, t, p);
    LastOfHit(Claims, t, q);
  }

  lemma LastOfHit(k: Key, t: string, p: nat)
    requires HitAt(k, t, p).Hit?
    ensures 0 < HitAt(k, t, p).end <= |t|
    ensures t[HitAt(k, t, p).end - 1] == (if k == Abstain then 'e' else '[')
  {
    hide At, AfterColon, TailAt;
    LastOfTail(k, t, AfterColon(t, p + |Quoted(k)|).value);
  }

  lemma LastOfTail(k: Key, t: string, i: nat)
    requires TailAt(k, t, i).Hit?
    ensures i < TailAt(k, t, i).end <= |t|
    ensures t[TailAt(k, t, i).end - 1] == (if k == Abstain then 'e' else '[')
  {
    if k == Claims { assert t[i + 0] == "["[0]; }
    else if At(t, i, "true") { assert t[i + 3] == "true"[3]; }
    else { assert t[i + 4] == "false"[4]; }
  }

  /** The brace test looks no further than the first quote. */
  lemma OpensEarly(t: string)
    requires Search(Abstain, t).Hit? && !OpensLikeObject(t)
    ensures Search(Abstain, t).end <= |t| && !OpensLikeObject(t[..Search(Abstain, t).end])
  {
    var p := SearchFinds(Abstain, t, 0);
    HitPrefix(Abstain, t, |t|, p);
    assert t[p + 0] == Quoted(Abstain)[0];
    SkipSpacesPrefix(t, Search(Abstain, t).end, 0);
  }
}
