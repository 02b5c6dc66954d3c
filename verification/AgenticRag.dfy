/** The retrieval rounds of the agentic RAG loop (`AgenticRAGLoop.run`).

Model calls are inputs: each round brings what retrieval returned for its queries,
whether the evidence was judged sufficient, and the follow-up queries proposed. */
module AgenticRag {
  datatype Doc = Doc(url: string, title: string, content: string, score: real)

  /** `norm` lower-cases and collapses blanks, `key` is the URL or a hash of the content; both arbitrary here. */
  datatype Config = Config(maxRounds: int, maxFollowUps: int, norm: string -> string, key: Doc -> string)

  /** What came back for one query: documents, or an error that is logged and skipped. */
  datatype Found = Failed | Docs(docs: seq<Doc>)

  datatype Round = Round(contexts: seq<Found>, sufficient: bool, followUps: seq<string>)

  function Norms(c: Config, queries: seq<string>): set<string> {
    set q | q in queries :: c.norm(q)
  }

  /** The queries whose normal form is neither blank nor seen, nor met earlier in the list. */
  function Novel(c: Config, queries: seq<string>, seen: set<string>): seq<string> {
    if queries == [] then []
    else
      var init, q := queries[..|queries| - 1], queries[|queries| - 1];
      var novel := Novel(c, init, seen);
      if c.norm(q) == "" || c.norm(q) in seen || c.norm(q) in Norms(c, novel) then novel else novel + [q]
  }

  /** No two queries of the list have one normal form, and none is blank. */
  ghost predicate Distinct(c: Config, queries: seq<string>) {
    && (forall q | q in queries :: c.norm(q) != "")
    && forall i, j | 0 <= i < j < |queries| :: c.norm(queries[i]) != c.norm(queries[j])
  }

  lemma {:induction false} NovelHolds(c: Config, queries: seq<string>, seen: set<string>)
    ensures Distinct(c, Novel(c, queries, seen))
    ensures forall q | q in Novel(c, queries, seen) :: q in queries && c.norm(q) !in seen
    ensures forall q | q in queries && c.norm(q) != "" :: c.norm(q) in seen + Norms(c, Novel(c, queries, seen))
  {
    if queries != [] {
      var init, q := queries[..|queries| - 1], queries[|queries| - 1];
      NovelHolds(c, init, seen);
      assert queries == init + [q];
      NormsGrow(c, Novel(c, init, seen), q);
    }
  }

  lemma NormsGrow(c: Config, queries: seq<string>, q: string)
    ensures Norms(c, queries + [q]) == Norms(c, queries) + {c.norm(q)}
  {
    assert forall x | x in queries :: x in queries + [q];
    assert q in queries + [q];
  }

  /** Read from the front: a query is kept if it is not blank and its normal form was not seen, and then counts as
  seen. */
  lemma {:induction false} NovelReads(c: Config, q: string, rest: seq<string>, seen: set<string>)
    ensures Novel(c, [], seen) == []
    ensures Novel(c, [q] + rest, seen) ==
      if c.norm(q) == "" || c.norm(q) in seen then Novel(c, rest, seen)
      else [q] + Novel(c, rest, seen + {c.norm(q)})
    decreases |rest|
  {
    var all := [q] + rest;
    NoNorms(c);
    if rest == [] {
      assert all[..0] == [] && all == [q];
      assert [] + [q] == [q];
    } else {
      var n := |rest| - 1;
      NovelReads(c, q, rest[..n], seen);
      assert all[..n + 1] == [q] + rest[..n] && all[n + 1] == rest[n];
      NormsConsed(c, q, Novel(c, rest[..n], seen + {c.norm(q)}));
    }
  }

  lemma NormsConsed(c: Config, q: string, queries: seq<string>)
    ensures Norms(c, [q] + queries) == {c.norm(q)} + Norms(c, queries)
  {
    assert forall x :: x in [q] + queries <==> x == q || x in queries;
  }

  /** `_dedupe_novel`. */
  method DedupeNovel(c: Config, queries: seq<string>, seen: set<string>)
    returns (novel: seq<string>, seen': set<string>)
    ensures novel == Novel(c, queries, seen)
    ensures seen' == seen + Norms(c, novel)
  {
    hide Norms;
    novel, seen' := [], seen;
    assert Norms(c, []) == {} by { NoNorms(c); }
    for i := 0 to |queries|
      invariant novel == Novel(c, queries[..i], seen)
      invariant seen' == seen + Norms(c, novel)
    {
      assert queries[..i + 1][..i] == queries[..i];
      var n := c.norm(queries[i]);
      if n != "" && n !in seen' {
        NormsGrow(c, novel, queries[i]);
        seen' := seen' + {n};
        novel := novel + [queries[i]];
      }
    }
    assert queries[..|queries|] == queries;
  }

  lemma NoNorms(c: Config)
    ensures Norms(c, []) == {}
  {
  }

  // ---------------------------------------------------------------- accumulating documents

  function DocKeys(c: Config, docs: seq<Doc>): set<string> {
    set d | d in docs :: c.key(d)
  }

  /** The documents of one list that are new, appended in order. */
  function WithDocs(c: Config, acc: seq<Doc>, docs: seq<Doc>): seq<Doc> {
    if docs == [] then acc
    else
      var acc', d := WithDocs(c, acc, docs[..|docs| - 1]), docs[|docs| - 1];
      if c.key(d) in DocKeys(c, acc') then acc' else acc' + [d]
  }

  /** The same over what came back for `n` queries. */
  function WithFound(c: Config, acc: seq<Doc>, contexts: seq<Found>, n: nat): seq<Doc> {
    if n == 0 then acc
    else
      var acc' := WithFound(c, acc, contexts, n - 1);
      if n <= |contexts| && contexts[n - 1].Docs? then WithDocs(c, acc', contexts[n - 1].docs) else acc'
  }

  ghost predicate DistinctDocs(c: Config, docs: seq<Doc>) {
    forall i, j | 0 <= i < j < |docs| :: c.key(docs[i]) != c.key(docs[j])
  }

  lemma {:induction false} WithDocsHolds(c: Config, acc: seq<Doc>, docs: seq<Doc>)
    ensures acc <= WithDocs(c, acc, docs)
    ensures DistinctDocs(c, acc) ==> DistinctDocs(c, WithDocs(c, acc, docs))
    ensures forall d | d in docs :: c.key(d) in DocKeys(c, WithDocs(c, acc, docs))
  {
    if docs != [] {
      var init, d := docs[..|docs| - 1], docs[|docs| - 1];
      WithDocsHolds(c, acc, init);
      assert docs == init + [d];
      var acc' := WithDocs(c, acc, init);
      assert (acc' + [d])[|acc'|] == d;
      assert forall x | x in acc' :: x in acc' + [d];
    }
  }

  /** Read from the front: a document comes in if its key is new. */
  lemma {:induction false} DocsRead(c: Config, acc: seq<Doc>, d: Doc, rest: seq<Doc>)
    ensures WithDocs(c, acc, []) == acc
    ensures WithDocs(c, acc, [d] + rest) ==
      WithDocs(c, if exists x | x in acc :: c.key(x) == c.key(d) then acc else acc + [d], rest)
    decreases |rest|
  {
    hide DocKeys;
    var all := [d] + rest;
    KeyKnown(c, acc, d);
    if rest == [] {
      assert all[..0] == [] && all == [d];
    } else {
      DocsRead(c, acc, d, rest[..|rest| - 1]);
      assert all[..|rest|] == [d] + rest[..|rest| - 1] && all[|rest|] == rest[|rest| - 1];
    }
  }

  lemma KeyKnown(c: Config, acc: seq<Doc>, d: Doc)
    ensures c.key(d) in DocKeys(c, acc) <==> exists x | x in acc :: c.key(x) == c.key(d)
  {
  }

  /** The results of the queries come in one after the other; a failed one brings nothing. */
  lemma {:induction false} FoundReads(c: Config, acc: seq<Doc>, f: Found, rest: seq<Found>, n: nat)
    ensures WithFound(c, acc, rest, 0) == acc
    ensures WithFound(c, acc, [f] + rest, n + 1) ==
      WithFound(c, if f.Docs? then WithDocs(c, acc, f.docs) else acc, rest, n)
    decreases n
  {
    hide WithDocs;
    if n > 0 { FoundReads(c, acc, f, rest, n - 1); }
  }

  lemma {:induction false} NothingFound(c: Config, acc: seq<Doc>, n: nat)
    ensures WithFound(c, acc, [], n) == acc
  {
    if n > 0 { NothingFound(c, acc, n - 1); }
  }

  lemma KeysOfPrefix(c: Config, a: seq<Doc>, b: seq<Doc>)
    requires a <= b
    ensures DocKeys(c, a) <= DocKeys(c, b)
  {
    assert forall d | d in a :: d in b;
  }

  lemma {:induction false} WithFoundHolds(c: Config, acc: seq<Doc>, contexts: seq<Found>, n: nat)
    ensures acc <= WithFound(c, acc, contexts, n)
    ensures DistinctDocs(c, acc) ==> DistinctDocs(c, WithFound(c, acc, contexts, n))
    ensures forall i, d | 0 <= i < n && i < |contexts| && contexts[i].Docs? && d in contexts[i].docs ::
      c.key(d) in DocKeys(c, WithFound(c, acc, contexts, n))
  {
    hide DocKeys, DistinctDocs, WithDocs;
    if n > 0 {
      WithFoundHolds(c, acc, contexts, n - 1);
      var acc' := WithFound(c, acc, contexts, n - 1);
      if n <= |contexts| && contexts[n - 1].Docs? { WithDocsHolds(c, acc', contexts[n - 1].docs); }
      KeysOfPrefix(c, acc', WithFound(c, acc, contexts, n));
    }
  }

  /** The loop over one round's results. */
  method Accumulate(c: Config, acc: seq<Doc>, queries: seq<string>, contexts: seq<Found>) returns (acc': seq<Doc>)
    ensures acc' == WithFound(c, acc, contexts, |queries|)
  {
    hide WithDocs;
    acc' := acc;
    for i := 0 to |queries|
      invariant acc' == WithFound(c, acc, contexts, i)
    {
      if i < |contexts| && contexts[i].Docs? { acc' := AddDocs(c, acc', contexts[i].docs); }
    }
  }

  method AddDocs(c: Config, acc: seq<Doc>, docs: seq<Doc>) returns (acc': seq<Doc>)
    ensures acc' == WithDocs(c, acc, docs)
  {
    acc' := acc;
    for i := 0 to |docs|
      invariant acc' == WithDocs(c, acc, docs[..i])
    {
      assert docs[..i + 1][..i] == docs[..i];
      if c.key(docs[i]) !in DocKeys(c, acc') { acc' := acc' + [docs[i]]; }
    }
    assert docs[..|docs|] == docs;
  }

  // ---------------------------------------------------------------- the rounds

  function Cut(queries: seq<string>, n: int): seq<string> {
    if n <= 0 then [] else if n >= |queries| then queries else queries[..n]
  }

  function Flat(batches: seq<seq<string>>): seq<string> {
    if batches == [] then [] else Flat(batches[..|batches| - 1]) + batches[|batches| - 1]
  }

  /** The next round's queries: what is novel among the follow-ups against what was really retrieved, cut to the
  limit. What an earlier cut left out is not counted as seen. */
  function NextQueries(c: Config, retrieved: seq<seq<string>>, round: Round): seq<string> {
    Cut(Novel(c, round.followUps, Norms(c, Flat(retrieved))), c.maxFollowUps)
  }

  /** What every run keeps, after some rounds. */
  ghost predicate Rounds(c: Config, initial: seq<string>, rounds: seq<Round>,
                         retrieved: seq<seq<string>>, documents: seq<seq<Doc>>)
  {
    && |retrieved| == |documents| <= |rounds|
    && Distinct(c, Flat(retrieved))
    && (forall i | 0 <= i < |retrieved| :: retrieved[i] == Batch(c, initial, rounds, retrieved, i) != [])
    && (forall i | 0 <= i < |documents| ::
          documents[i] == WithFound(c, Before(documents, i), rounds[i].contexts, |retrieved[i]|))
  }

  /** The queries of round `i`, from the rounds before it. */
  function Batch(c: Config, initial: seq<string>, rounds: seq<Round>, retrieved: seq<seq<string>>, i: nat): seq<string>
    requires i <= |retrieved| && i <= |rounds|
  {
    if i == 0 then Novel(c, initial, {}) else NextQueries(c, retrieved[..i], rounds[i - 1])
  }

  function Before(documents: seq<seq<Doc>>, i: nat): seq<Doc>
    requires i <= |documents|
  {
    if i == 0 then [] else documents[i - 1]
  }

  lemma FlatGrows(batches: seq<seq<string>>, b: seq<string>)
    ensures Flat(batches + [b]) == Flat(batches) + b
  {
    assert (batches + [b])[..|batches|] == batches;
  }

  lemma NormsJoin(c: Config, a: seq<string>, b: seq<string>)
    ensures Norms(c, a + b) == Norms(c, a) + Norms(c, b)
  {
    assert forall q :: q in a + b <==> q in a || q in b;
  }

  lemma DistinctJoin(c: Config, a: seq<string>, b: seq<string>)
    requires Distinct(c, a) && Distinct(c, b) && forall q | q in b :: c.norm(q) !in Norms(c, a)
    ensures Distinct(c, a + b)
  {
    forall i, j | 0 <= i < |a| && 0 <= j < |b| ensures c.norm(a[i]) != c.norm(b[j]) {
      assert a[i] in a && b[j] in b;
    }
  }

  /** The cut keeps the first `n`. */
  lemma CutIs(queries: seq<string>, n: int)
    ensures Cut(queries, n) <= queries
    ensures |Cut(queries, n)| == n || (n < 0 && Cut(queries, n) == []) || (n > |queries| && Cut(queries, n) == queries)
  {
  }

  lemma CutHolds(c: Config, queries: seq<string>, n: int)
    requires Distinct(c, queries)
    ensures Distinct(c, Cut(queries, n)) && forall q | q in Cut(queries, n) :: q in queries
  {
  }

  /** The first `n` rounds are all: the limit is reached, the evidence is sufficient, or there is nothing new to ask. */
  predicate Stops(c: Config, rounds: seq<Round>, retrieved: seq<seq<string>>, n: nat)
    requires 0 < n <= |retrieved| && n <= |rounds|
  {
    n >= c.maxRounds || rounds[n - 1].sufficient || NextQueries(c, retrieved[..n], rounds[n - 1]) == []
  }

  lemma StopsFirst(c: Config, initial: seq<string>, rounds: seq<Round>,
                   retrieved: seq<seq<string>>, documents: seq<seq<Doc>>)
    requires Rounds(c, initial, rounds, retrieved, documents) && 0 < |retrieved| <= c.maxRounds
    requires forall i | 0 <= i < |retrieved| - 1 :: !rounds[i].sufficient
    requires var n := |retrieved|;
      n == c.maxRounds || rounds[n - 1].sufficient || NextQueries(c, retrieved, rounds[n - 1]) == []
    ensures Stops(c, rounds, retrieved, |retrieved|)
    ensures forall n | 0 < n < |retrieved| :: !Stops(c, rounds, retrieved, n)
  {
    hide NextQueries, WithFound, Distinct, Before, Batch;
    assert retrieved[..|retrieved|] == retrieved;
    forall n | 0 < n < |retrieved| ensures !Stops(c, rounds, retrieved, n) {
      BatchOf(c, initial, rounds, retrieved, documents, n);
    }
  }

  /** The run up to synthesis: the batches retrieved and the document list after each. */
  method Run(c: Config, initial: seq<string>, rounds: seq<Round>)
    returns (retrieved: seq<seq<string>>, documents: seq<seq<Doc>>, roundsUsed: nat)
    requires c.maxRounds <= |rounds|
    ensures Rounds(c, initial, rounds, retrieved, documents)
    ensures c.maxRounds > 0 ==> |retrieved| <= c.maxRounds
    ensures roundsUsed == if c.maxRounds <= 0 then 0 else if retrieved == [] then 1 else |retrieved|
    ensures forall i | 0 <= i < |retrieved| - 1 :: !rounds[i].sufficient
    ensures retrieved != [] ==>
      Stops(c, rounds, retrieved, |retrieved|) && forall n | 0 < n < |retrieved| :: !Stops(c, rounds, retrieved, n)
    ensures retrieved == [] && c.maxRounds > 0 ==> Novel(c, initial, {}) == []
  {
    hide Novel, Norms, Distinct, WithFound, Cut, Flat, Rounds, Batch, Stops;
    retrieved, documents, roundsUsed := [], [], 0;
    var accumulated: seq<Doc> := [];
    var seen: set<string> := {};
    var current := initial;
    NoNorms(c);
    NoRounds(c, initial, rounds);
    if c.maxRounds <= 0 { return; }
    for index := 0 to c.maxRounds
      invariant index == |retrieved| == |documents| == roundsUsed
      invariant Rounds(c, initial, rounds, retrieved, documents)
      invariant accumulated == Before(documents, index)
      invariant index == 0 ==> current == initial && seen == {}
      invariant forall i | 0 <= i < index :: !rounds[i].sufficient
      invariant index > 0 ==> current != [] && current == NextQueries(c, retrieved, rounds[index - 1])
      invariant index > 0 ==> seen == Norms(c, Flat(retrieved)) + Norms(c, current)
    {
      roundsUsed := roundsUsed + 1;
      BatchIs(c, initial, rounds, retrieved);
      var queries := current;
      if index == 0 { queries, seen := DedupeNovel(c, current, seen); }
      if queries == [] { return; }
      accumulated := Accumulate(c, accumulated, queries, rounds[index].contexts);
      RoundExtends(c, initial, rounds, retrieved, documents, queries, accumulated);
      FlatGrows(retrieved, queries);
      NormsJoin(c, Flat(retrieved), queries);
      retrieved := retrieved + [queries];
      documents := documents + [accumulated];
      if index == c.maxRounds - 1 || rounds[index].sufficient { break; }
      var novel, _ := DedupeNovel(c, rounds[index].followUps, seen);
      current := Cut(novel, c.maxFollowUps);
      if current == [] { break; }
      seen := seen + Norms(c, current);
    }
    StopsFirst(c, initial, rounds, retrieved, documents);
  }

  lemma NoRounds(c: Config, initial: seq<string>, rounds: seq<Round>)
    ensures Rounds(c, initial, rounds, [], []) && Flat([]) == []
  {
  }

  lemma BatchIs(c: Config, initial: seq<string>, rounds: seq<Round>, retrieved: seq<seq<string>>)
    requires |retrieved| < |rounds|
    ensures Batch(c, initial, rounds, retrieved, |retrieved|)
         == if retrieved == [] then Novel(c, initial, {}) else NextQueries(c, retrieved, rounds[|retrieved| - 1])
  {
    assert retrieved[..|retrieved|] == retrieved;
  }

  lemma DocumentsAt(c: Config, initial: seq<string>, rounds: seq<Round>,
                    retrieved: seq<seq<string>>, documents: seq<seq<Doc>>, j: nat)
    requires Rounds(c, initial, rounds, retrieved, documents) && j < |documents|
    ensures |retrieved| == |documents| <= |rounds|
    ensures documents[j] == WithFound(c, if j == 0 then [] else documents[j - 1], rounds[j].contexts, |retrieved[j]|)
  {
    hide Distinct, WithFound, Batch;
  }

  lemma RoundExtends(c: Config, initial: seq<string>, rounds: seq<Round>,
                     retrieved: seq<seq<string>>, documents: seq<seq<Doc>>,
                     queries: seq<string>, acc: seq<Doc>)
    requires Rounds(c, initial, rounds, retrieved, documents) && |retrieved| < |rounds| && queries != []
    requires var n := |retrieved|;
      && queries == Batch(c, initial, rounds, retrieved, n)
      && acc == WithFound(c, Before(documents, n), rounds[n].contexts, |queries|)
    ensures Rounds(c, initial, rounds, retrieved + [queries], documents + [acc])
  {
    hide Novel, Norms, Distinct, WithFound, Batch, Before;
    var n := |retrieved|;
    BatchIsNew(c, initial, rounds, retrieved);
    FlatGrows(retrieved, queries);
    DistinctJoin(c, Flat(retrieved), queries);
    forall i | 0 <= i <= n
      ensures Batch(c, initial, rounds, retrieved + [queries], i) == Batch(c, initial, rounds, retrieved, i)
    {
      BatchStays(c, initial, rounds, retrieved, queries, i);
    }
    forall i | 0 <= i <= n ensures Before(documents + [acc], i) == Before(documents, i) {
      BeforeStays(documents, acc, i);
    }
  }

  lemma BatchStays(c: Config, initial: seq<string>, rounds: seq<Round>,
                   retrieved: seq<seq<string>>, queries: seq<string>, i: nat)
    requires i <= |retrieved| < |rounds|
    ensures Batch(c, initial, rounds, retrieved + [queries], i) == Batch(c, initial, rounds, retrieved, i)
  {
    assert (retrieved + [queries])[..i] == retrieved[..i];
  }

  lemma BeforeStays(documents: seq<seq<Doc>>, acc: seq<Doc>, i: nat)
    requires i <= |documents|
    ensures Before(documents + [acc], i) == Before(documents, i)
  {
  }

  /** A batch repeats no query of the rounds before it. */
  lemma BatchIsNew(c: Config, initial: seq<string>, rounds: seq<Round>, retrieved: seq<seq<string>>)
    requires |retrieved| < |rounds|
    ensures var batch := Batch(c, initial, rounds, retrieved, |retrieved|);
      Distinct(c, batch) && forall q | q in batch :: c.norm(q) !in Norms(c, Flat(retrieved))
  {
    hide Novel, Distinct, Cut;
    var n := |retrieved|;
    if n == 0 {
      NovelHolds(c, initial, {});
    } else {
      assert retrieved[..n] == retrieved;
      NovelHolds(c, rounds[n - 1].followUps, Norms(c, Flat(retrieved)));
      CutHolds(c, Novel(c, rounds[n - 1].followUps, Norms(c, Flat(retrieved))), c.maxFollowUps);
    }
  }

  /** Document numbers are stable: a later list starts with every earlier one. Keys stay distinct, and every
  document that was fetched is represented from its round on. */
  lemma {:induction false} NumbersAreStable(c: Config, initial: seq<string>, rounds: seq<Round>,
                                            retrieved: seq<seq<string>>, documents: seq<seq<Doc>>, i: nat, j: nat)
    requires Rounds(c, initial, rounds, retrieved, documents) && i <= j < |documents|
    requires |retrieved| == |documents| <= |rounds|
    ensures documents[i] <= documents[j] && DistinctDocs(c, documents[j])
    ensures forall q, d | 0 <= q < |retrieved[i]| && q < |rounds[i].contexts| && rounds[i].contexts[q].Docs?
                          && d in rounds[i].contexts[q].docs :: c.key(d) in DocKeys(c, documents[j])
    decreases j
  {
    hide WithFound, DocKeys, DistinctDocs, Rounds;
    NoDocs(c);
    DocumentsAt(c, initial, rounds, retrieved, documents, j);
    WithFoundHolds(c, if j == 0 then [] else documents[j - 1], rounds[j].contexts, |retrieved[j]|);
    if i < j {
      NumbersAreStable(c, initial, rounds, retrieved, documents, i, j - 1);
      KeysOfPrefix(c, documents[j - 1], documents[j]);
    } else if j > 0 {
      NumbersAreStable(c, initial, rounds, retrieved, documents, j - 1, j - 1);
    }
  }

  lemma NoDocs(c: Config)
    ensures DistinctDocs(c, [])
  {
  }

  lemma {:induction false} FlatSplits(a: seq<seq<string>>, b: seq<seq<string>>)
    ensures Flat(a + b) == Flat(a) + Flat(b)
  {
    if b == [] {
      assert a + b == a;
    } else {
      assert (a + b)[..|a + b| - 1] == a + b[..|b| - 1];
      FlatSplits(a, b[..|b| - 1]);
    }
  }

  /** Round `i` was followed by a proposal that was novel and that the cut left out. */
  ghost predicate WasCut(c: Config, rounds: seq<Round>, retrieved: seq<seq<string>>, i: nat, q: string)
    requires i + 1 < |retrieved| && i < |rounds|
  {
    q in Novel(c, rounds[i].followUps, Norms(c, Flat(retrieved[..i + 1]))) && q !in retrieved[i + 1]
  }

  /** In any run: a follow-up that a cut left out, and that no round in between retrieved in any form, is the first
  query of a later round when it is the first follow-up proposed for it. */
  lemma CutOffStaysEligible(c: Config, initial: seq<string>, rounds: seq<Round>,
                            retrieved: seq<seq<string>>, documents: seq<seq<Doc>>, i: nat, j: nat, q: string)
    requires Rounds(c, initial, rounds, retrieved, documents)
    requires |retrieved| <= |rounds| && i + 1 < j < |retrieved| && WasCut(c, rounds, retrieved, i, q)
    requires c.norm(q) !in Norms(c, Flat(retrieved[i + 2..j]))
    requires rounds[j - 1].followUps != [] && rounds[j - 1].followUps[0] == q
    ensures retrieved[j] != [] && retrieved[j][0] == q
  {
    hide Novel, Norms, Distinct, WithFound, Flat, Before, NextQueries, Rounds, WasCut;
    BatchOf(c, initial, rounds, retrieved, documents, j);
    StillNew(c, initial, rounds, retrieved, documents, i, j, q);
    FirstRetrieved(c, retrieved[..j], rounds[j - 1]);
  }

  lemma BatchOf(c: Config, initial: seq<string>, rounds: seq<Round>,
                retrieved: seq<seq<string>>, documents: seq<seq<Doc>>, j: nat)
    requires Rounds(c, initial, rounds, retrieved, documents) && 0 < j < |retrieved|
    ensures j < |rounds| && retrieved[j] == NextQueries(c, retrieved[..j], rounds[j - 1]) != []
  {
    hide NextQueries, WithFound, Distinct, Before;
    assert retrieved[j] == Batch(c, initial, rounds, retrieved, j);
  }

  /** In any run the queries of a later round are the first novel ones among the proposals of the round before, as many
  as are allowed or there are. */
  lemma FollowUpsFirst(c: Config, initial: seq<string>, rounds: seq<Round>,
                       retrieved: seq<seq<string>>, documents: seq<seq<Doc>>, j: nat)
    requires Rounds(c, initial, rounds, retrieved, documents) && 0 < j < |retrieved| && |retrieved| <= |rounds|
    ensures var novel := Novel(c, rounds[j - 1].followUps, Norms(c, Flat(retrieved[..j])));
      && retrieved[j] <= novel && c.maxFollowUps > 0
      && |retrieved[j]| == if c.maxFollowUps < |novel| then c.maxFollowUps else |novel|
  {
    hide Rounds, Novel, Norms, Flat;
    BatchOf(c, initial, rounds, retrieved, documents, j);
  }

  /** The first proposal, if it is new, comes first in a batch that is not empty. */
  lemma FirstRetrieved(c: Config, before: seq<seq<string>>, round: Round)
    requires round.followUps != [] && c.norm(round.followUps[0]) != ""
    requires c.norm(round.followUps[0]) !in Norms(c, Flat(before)) && NextQueries(c, before, round) != []
    ensures NextQueries(c, before, round)[0] == round.followUps[0]
  {
    hide Norms, Flat, Novel;
    FirstIsNovel(c, round.followUps, Norms(c, Flat(before)));
  }

  /** What was cut after round `i` and not retrieved since has not been retrieved at all. */
  lemma StillNew(c: Config, initial: seq<string>, rounds: seq<Round>,
                 retrieved: seq<seq<string>>, documents: seq<seq<Doc>>, i: nat, j: nat, q: string)
    requires Rounds(c, initial, rounds, retrieved, documents)
    requires |retrieved| <= |rounds| && i + 1 < j < |retrieved| && WasCut(c, rounds, retrieved, i, q)
    requires c.norm(q) !in Norms(c, Flat(retrieved[i + 2..j]))
    ensures c.norm(q) != "" && c.norm(q) !in Norms(c, Flat(retrieved[..j]))
  {
    hide Novel, Norms, Distinct, Flat, Rounds, Cut;
    var early, late, batch := retrieved[..i + 1], retrieved[i + 2..j], retrieved[i + 1];
    var seen := Norms(c, Flat(early));
    var novel := Novel(c, rounds[i].followUps, seen);
    BatchOf(c, initial, rounds, retrieved, documents, i + 1);
    NovelHolds(c, rounds[i].followUps, seen);
    CutIsNew(c, novel, q);
    assert retrieved[..j] == early + [batch] + late;
    FlatSplits(early + [batch], late);
    FlatGrows(early, batch);
    NormsJoin(c, Flat(early) + batch, Flat(late));
    NormsJoin(c, Flat(early), batch);
  }

  lemma CutIsNew(c: Config, novel: seq<string>, q: string)
    requires Distinct(c, novel) && q in novel && q !in Cut(novel, c.maxFollowUps)
    ensures c.norm(q) != "" && c.norm(q) !in Norms(c, Cut(novel, c.maxFollowUps))
  {
    var x :| 0 <= x < |novel| && novel[x] == q;
    forall y | y in Cut(novel, c.maxFollowUps) ensures c.norm(y) != c.norm(q) {
      var z :| 0 <= z < |Cut(novel, c.maxFollowUps)| && Cut(novel, c.maxFollowUps)[z] == y;
      assert novel[z] == y && z != x;
    }
  }

  lemma {:induction false} FirstIsNovel(c: Config, queries: seq<string>, seen: set<string>)
    requires queries != [] && c.norm(queries[0]) != "" && c.norm(queries[0]) !in seen
    ensures Novel(c, queries, seen) != [] && Novel(c, queries, seen)[0] == queries[0]
  {
    if |queries| > 1 {
      FirstIsNovel(c, queries[..|queries| - 1], seen);
    } else {
      assert queries[..0] == [];
    }
  }
}
