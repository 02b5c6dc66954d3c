/** Maximal marginal relevance reranking (`mmr_rerank`), over reals. */
module Mmr {
  datatype Doc = Doc(title: string, content: string, url: string, score: real)

  /** `netloc` is the host part of a URL, any function. */
  datatype Params = Params(lambda: real, netloc: string -> string)

  function Head(s: string, n: nat): string {
    if |s| <= n then s else s[..n]
  }

  /** `_doc_source`. */
  function Source(p: Params, d: Doc): string {
    if d.url != "" then
      if p.netloc(d.url) != "" then p.netloc(d.url) else Head(d.url, 50)
    else if d.title != "" then d.title
    else Head(d.content, 40)
  }

  function Sources(p: Params, docs: seq<Doc>): set<string> {
    set d | d in docs :: Source(p, d)
  }

  /** `docs[:topk]`, which counts from the end when `topk` is negative. */
  function Slice(docs: seq<Doc>, topk: int): seq<Doc> {
    if topk >= |docs| then docs else if topk >= 0 then docs[..topk]
    else if -topk >= |docs| then [] else docs[..|docs| + topk]
  }

  datatype Item = Item(doc: Doc, rel: real)

  function MaxScore(docs: seq<Doc>): (m: real)
    requires docs != []
    ensures forall d | d in docs :: d.score <= m
    ensures exists d | d in docs :: d.score == m
  {
    var last := docs[|docs| - 1];
    if |docs| == 1 then last.score
    else
      var rest := docs[..|docs| - 1];
      assert docs == rest + [last];
      var m := MaxScore(rest);
      if last.score > m then last.score else m
  }

  /** The divisor: the largest score, or one in place of zero. */
  function Scale(docs: seq<Doc>): (m: real)
    requires docs != []
    ensures m != 0.0
  {
    if MaxScore(docs) == 0.0 then 1.0 else MaxScore(docs)
  }

  function Docs(items: seq<Item>): seq<Doc> {
    seq(|items|, i requires 0 <= i < |items| => items[i].doc)
  }

  /** What a pick maximises: relevance first, then relevance against similarity to what is selected. */
  function Merit(p: Params, selected: seq<Doc>, x: Item): real {
    if selected == [] then x.rel
    else p.lambda * x.rel - (1.0 - p.lambda) * (if Source(p, x.doc) in Sources(p, selected) then 1.0 else 0.0)
  }

  /** The first item of greatest merit. */
  function Best(p: Params, selected: seq<Doc>, items: seq<Item>): (b: nat)
    requires items != []
    ensures b < |items|
    ensures forall i | 0 <= i < |items| :: Merit(p, selected, items[i]) <= Merit(p, selected, items[b])
    ensures forall i | 0 <= i < b :: Merit(p, selected, items[i]) < Merit(p, selected, items[b])
  {
    var n := |items| - 1;
    if n == 0 then 0
    else
      var b := Best(p, selected, items[..n]);
      if Merit(p, selected, items[n]) > Merit(p, selected, items[b]) then n else b
  }

  function Without<T>(s: seq<T>, i: nat): seq<T>
    requires i < |s|
  {
    s[..i] + s[i + 1..]
  }

  /** The picks in order, and the items that are left. */
  function Picks(p: Params, selected: seq<Doc>, items: seq<Item>, topk: int): (seq<Doc>, seq<Item>)
    decreases |items|
  {
    if items == [] || |selected| >= topk then (selected, items)
    else
      var b := Best(p, selected, items);
      Picks(p, selected + [items[b].doc], Without(items, b), topk)
  }

  function Normalized(docs: seq<Doc>): seq<Item>
    requires docs != []
  {
    seq(|docs|, i requires 0 <= i < |docs| => Item(docs[i], docs[i].score / Scale(docs)))
  }

  function Rerank(p: Params, docs: seq<Doc>, topk: int): (seq<Doc>, seq<Item>)
    requires docs != []
  {
    Picks(p, [], Normalized(docs), topk)
  }

  /** What `mmr_rerank` returns. */
  function Reranked(p: Params, docs: seq<Doc>, topk: int): seq<Doc> {
    if docs == [] || p.lambda >= 1.0 then Slice(docs, topk) else Rerank(p, docs, topk).0
  }

  method MmrRerank(p: Params, docs: seq<Doc>, topk: int) returns (selected: seq<Doc>)
    ensures selected == Reranked(p, docs, topk)
  {
    hide Merit, Best;
    if docs == [] || p.lambda >= 1.0 { return Slice(docs, topk); }
    var remaining := Normalized(docs);
    selected := [];
    while remaining != [] && |selected| < topk
      invariant Picks(p, selected, remaining, topk) == Rerank(p, docs, topk)
      decreases |remaining|
    {
      var b := Best(p, selected, remaining);
      selected := selected + [remaining[b].doc];
      remaining := Without(remaining, b);
    }
  }

  // ---------------------------------------------------------------- how many, and which

  lemma WithoutParts<T>(s: seq<T>, i: nat)
    requires i < |s|
    ensures s == s[..i] + [s[i]] + s[i + 1..]
    ensures multiset(s) == multiset(Without(s, i)) + multiset{s[i]}
    ensures forall x | x in Without(s, i) :: x in s
    ensures forall x | x in s :: x == s[i] || x in Without(s, i)
  {
    assert s == s[..i] + [s[i]] + s[i + 1..];
  }

  lemma DocsWithout(items: seq<Item>, b: nat)
    requires b < |items|
    ensures Docs(Without(items, b)) == Without(Docs(items), b)
  {
  }

  /** The picks and the rest are the input, and there are as many picks as were asked for and available. */
  lemma {:induction false} PicksConserve(p: Params, selected: seq<Doc>, items: seq<Item>, topk: int)
    requires |selected| <= topk || selected == []
    ensures var (out, rest) := Picks(p, selected, items, topk);
      && multiset(out) + multiset(Docs(rest)) == multiset(selected) + multiset(Docs(items))
      && |out| == (if topk <= 0 then 0 else if topk <= |selected| + |items| then topk else |selected| + |items|)
    decreases |items|
  {
    hide Best, Merit;
    if items != [] && |selected| < topk {
      var b := Best(p, selected, items);
      PicksConserve(p, selected + [items[b].doc], Without(items, b), topk);
      DocsWithout(items, b);
      WithoutParts(Docs(items), b);
    }
  }

  lemma NormalizedDocs(docs: seq<Doc>)
    requires docs != []
    ensures Docs(Normalized(docs)) == docs && |Normalized(docs)| == |docs|
  {
  }

  lemma RerankConserves(p: Params, docs: seq<Doc>, topk: int)
    ensures multiset(Reranked(p, docs, topk)) <= multiset(docs)
    ensures topk >= 0 ==> |Reranked(p, docs, topk)| == if topk <= |docs| then topk else |docs|
    ensures topk < 0 && p.lambda < 1.0 ==> Reranked(p, docs, topk) == []
    ensures p.lambda >= 1.0 ==> Reranked(p, docs, topk) <= docs
    ensures topk < 0 && p.lambda >= 1.0 ==>
      |Reranked(p, docs, topk)| == if -topk <= |docs| then |docs| + topk else 0
  {
    hide Picks, Normalized, Docs;
    if docs == [] || p.lambda >= 1.0 {
      var out := Slice(docs, topk);
      assert docs == out + docs[|out|..];
    } else {
      NormalizedDocs(docs);
      PicksConserve(p, [], Normalized(docs), topk);
      var rest := Docs(Rerank(p, docs, topk).1);
      assert multiset(Rerank(p, docs, topk).0) + multiset(rest) == multiset(docs);
    }
  }

  // ---------------------------------------------------------------- diversity

  /** Wherever a source is picked again, every source has been picked before. */
  ghost predicate Diverse(p: Params, out: seq<Doc>, sources: set<string>) {
    forall j | 0 <= j < |out| && Source(p, out[j]) in Sources(p, out[..j]) :: sources <= Sources(p, out[..j])
  }

  lemma DiverseStep(p: Params, selected: seq<Doc>, items: seq<Item>, sources: set<string>)
    requires p.lambda < 0.5 && items != []
    requires forall x | x in items :: 0.0 <= x.rel <= 1.0
    requires Sources(p, selected) + Sources(p, Docs(items)) == sources
    requires Diverse(p, selected, sources)
    ensures var b := Best(p, selected, items);
      && Diverse(p, selected + [items[b].doc], sources)
      && Sources(p, selected + [items[b].doc]) + Sources(p, Docs(Without(items, b))) == sources
  {
    hide Source, Best, Merit, Without;
    var b := Best(p, selected, items);
    var out := selected + [items[b].doc];
    SourcesStep(p, selected, items, b);
    if Source(p, items[b].doc) in Sources(p, selected) {
      forall s | s in sources ensures s in Sources(p, selected) {
        if s !in Sources(p, selected) {
          var d :| d in Docs(items) && Source(p, d) == s;
          var i :| 0 <= i < |items| && items[i].doc == d;
          UnseenWins(p, selected, items[i], items[b]);
        }
      }
    }
    assert out[..|selected|] == selected;
    assert forall j | 0 <= j < |selected| :: out[j] == selected[j] && out[..j] == selected[..j];
  }

  lemma UnseenWins(p: Params, selected: seq<Doc>, x: Item, y: Item)
    requires p.lambda < 0.5 && 0.0 <= x.rel <= 1.0 && 0.0 <= y.rel <= 1.0
    requires Source(p, x.doc) !in Sources(p, selected) && Source(p, y.doc) in Sources(p, selected)
    ensures Merit(p, selected, x) > Merit(p, selected, y)
  {
    hide Source;
    if p.lambda >= 0.0 {
      assert p.lambda * y.rel <= p.lambda;
      assert p.lambda * x.rel >= 0.0;
    } else {
      assert -p.lambda * y.rel >= 0.0;
      assert -p.lambda * x.rel <= -p.lambda;
    }
  }

  lemma SourcesStep(p: Params, selected: seq<Doc>, items: seq<Item>, b: nat)
    requires b < |items|
    ensures Sources(p, selected + [items[b].doc]) + Sources(p, Docs(Without(items, b)))
         == Sources(p, selected) + Sources(p, Docs(items))
  {
    hide Source;
    DocsWithout(items, b);
    WithoutParts(Docs(items), b);
    assert Sources(p, selected + [items[b].doc]) == Sources(p, selected) + {Source(p, items[b].doc)};
  }

  lemma {:induction false} PicksDiverse(p: Params, selected: seq<Doc>, items: seq<Item>, topk: int,
                                        sources: set<string>)
    requires p.lambda < 0.5
    requires forall x | x in items :: 0.0 <= x.rel <= 1.0
    requires Sources(p, selected) + Sources(p, Docs(items)) == sources && Diverse(p, selected, sources)
    ensures Diverse(p, Picks(p, selected, items, topk).0, sources)
    decreases |items|
  {
    hide Best, Merit, Diverse, Sources;
    if items != [] && |selected| < topk {
      var b := Best(p, selected, items);
      DiverseStep(p, selected, items, sources);
      WithoutParts(items, b);
      PicksDiverse(p, selected + [items[b].doc], Without(items, b), topk, sources);
    }
  }

  lemma {:induction false} FewSources(p: Params, docs: seq<Doc>)
    ensures |Sources(p, docs)| <= |docs|
  {
    hide Source;
    if docs != [] {
      var rest, d := docs[..|docs| - 1], docs[|docs| - 1];
      FewSources(p, rest);
      assert docs == rest + [d];
      assert Sources(p, docs) == Sources(p, rest) + {Source(p, d)};
    }
  }

  /** With scores that are not negative and lambda below one half, no source is repeated among the first
  picks until every source has been picked. */
  lemma FirstPicksDiffer(p: Params, docs: seq<Doc>, topk: int, i: nat, j: nat)
    requires p.lambda < 0.5 && forall d | d in docs :: d.score >= 0.0
    requires i < j < |Reranked(p, docs, topk)| && j < |Sources(p, docs)|
    ensures Source(p, Reranked(p, docs, topk)[i]) != Source(p, Reranked(p, docs, topk)[j])
  {
    hide Source, Picks;
    var items := Normalized(docs);
    assert Docs(items) == docs;
    forall x | x in items ensures 0.0 <= x.rel <= 1.0 { RelInUnit(docs, x); }
    PicksDiverse(p, [], items, topk, Sources(p, docs));
    var out := Reranked(p, docs, topk);
    if Source(p, out[i]) == Source(p, out[j]) {
      assert out[..j][i] == out[i];
      FewSources(p, out[..j]);
      SubsetSize(Sources(p, docs), Sources(p, out[..j]));
    }
  }

  lemma {:induction false} SubsetSize(a: set<string>, b: set<string>)
    requires a <= b
    ensures |a| <= |b|
  {
    if a != {} {
      var x :| x in a;
      SubsetSize(a - {x}, b - {x});
    }
  }

  lemma RelInUnit(docs: seq<Doc>, x: Item)
    requires docs != [] && (forall d | d in docs :: d.score >= 0.0) && x in Normalized(docs)
    ensures 0.0 <= x.rel <= 1.0
  {
    Quotient(x.doc.score, MaxScore(docs), Scale(docs));
  }

  lemma Quotient(a: real, b: real, m: real)
    requires m > 0.0
    ensures a <= b <==> a / m <= b / m
    ensures a >= 0.0 ==> a / m >= 0.0
    ensures m / m == 1.0
  {
    assert a == (a / m) * m && b == (b / m) * m;
  }

  ghost predicate FirstPicksAlwaysDiffer(p: Params) {
    forall docs: seq<Doc>, topk: int, i: nat, j: nat |
      && (forall d | d in docs :: d.score >= 0.0)
      && i < j < |Reranked(p, docs, topk)| && j < |Sources(p, docs)| ::
      Source(p, Reranked(p, docs, topk)[i]) != Source(p, Reranked(p, docs, topk)[j])
  }

  /** Lambda gives that diversity exactly when it is below one half. */
  lemma DiversityIff(p: Params)
    ensures FirstPicksAlwaysDiffer(p) <==> p.lambda < 0.5
  {
    hide Reranked, Source, Sources;
    if p.lambda < 0.5 {
      forall docs: seq<Doc>, topk: int, i: nat, j: nat |
        && (forall d | d in docs :: d.score >= 0.0)
        && i < j < |Reranked(p, docs, topk)| && j < |Sources(p, docs)|
        ensures Source(p, Reranked(p, docs, topk)[i]) != Source(p, Reranked(p, docs, topk)[j])
      {
        FirstPicksDiffer(p, docs, topk, i, j);
      }
    } else {
      var docs := TwoAgainstOne();
      TwoSources(p);
      SameSourceTwice(p);
      assert Source(p, Reranked(p, docs, 2)[0]) == Source(p, Reranked(p, docs, 2)[1]);
    }
  }

  predicate HasHost(p: Params, d: Doc) {
    d.url != "" && p.netloc(d.url) != ""
  }

  /** What makes two documents one source. */
  lemma SameSourceIff(p: Params, a: Doc, b: Doc)
    ensures HasHost(p, a) && HasHost(p, b) ==>
      (Source(p, a) == Source(p, b) <==> p.netloc(a.url) == p.netloc(b.url))
    ensures a.url != "" && b.url != "" && !HasHost(p, a) && !HasHost(p, b) ==>
      (Source(p, a) == Source(p, b) <==> Alike(a.url, b.url, 50))
    ensures a.url == b.url == "" && a.title != "" && b.title != "" ==>
      (Source(p, a) == Source(p, b) <==> a.title == b.title)
    ensures a.url == b.url == a.title == b.title == "" ==>
      (Source(p, a) == Source(p, b) <==> Alike(a.content, b.content, 40))
  {
    AlikeIff(a.url, b.url, 50);
    AlikeIff(a.content, b.content, 40);
  }

  /** The first `n` characters are the same. */
  predicate Alike(a: string, b: string, n: nat) {
    (|a| == |b| || (|a| >= n && |b| >= n)) && forall i | 0 <= i < n && i < |a| :: a[i] == b[i]
  }

  lemma AlikeIff(a: string, b: string, n: nat)
    ensures Head(a, n) == Head(b, n) <==> Alike(a, b, n)
  {
    if Head(a, n) == Head(b, n) {
      forall i | 0 <= i < n && i < |a| ensures a[i] == b[i] { assert Head(a, n)[i] == Head(b, n)[i]; }
    }
    if Alike(a, b, n) { assert |Head(a, n)| == |Head(b, n)|; }
  }

  /** Among documents from the web the first picks are from different hosts, as many as there are hosts. */
  lemma FirstHostsDiffer(p: Params, docs: seq<Doc>, topk: int, i: nat, j: nat)
    requires p.lambda < 0.5 && forall d | d in docs :: d.score >= 0.0 && HasHost(p, d)
    requires i < j < |Reranked(p, docs, topk)| && j < |set d | d in docs :: p.netloc(d.url)|
    ensures p.netloc(Reranked(p, docs, topk)[i].url) != p.netloc(Reranked(p, docs, topk)[j].url)
  {
    hide Reranked, Source, HasHost;
    var out := Reranked(p, docs, topk);
    RerankConserves(p, docs, topk);
    Within(out, docs, i);
    Within(out, docs, j);
    HostsAreSources(p, docs);
    FirstPicksDiffer(p, docs, topk, i, j);
    SameSourceIff(p, out[i], out[j]);
  }

  lemma Within(out: seq<Doc>, docs: seq<Doc>, i: nat)
    requires multiset(out) <= multiset(docs) && i < |out|
    ensures out[i] in docs
  {
    assert out[i] in multiset(out);
  }

  lemma HostsAreSources(p: Params, docs: seq<Doc>)
    requires forall d | d in docs :: HasHost(p, d)
    ensures (set d | d in docs :: p.netloc(d.url)) == Sources(p, docs)
  {
    assert forall d | d in docs :: Source(p, d) == p.netloc(d.url);
  }

  function TwoAgainstOne(): seq<Doc> {
    [Doc("a", "", "", 1.0), Doc("a", "", "", 1.0), Doc("b", "", "", 0.0)]
  }

  lemma TwoSources(p: Params)
    ensures |Sources(p, TwoAgainstOne())| == 2 && forall d | d in TwoAgainstOne() :: d.score >= 0.0
  {
    var docs := TwoAgainstOne();
    assert docs[0] in docs && docs[2] in docs;
    assert Sources(p, docs) == {"a", "b"};
  }

  /** From one half on, a relevant document of a picked source beats an irrelevant one of another source. */
  lemma SameSourceTwice(p: Params)
    requires p.lambda >= 0.5
    ensures Reranked(p, TwoAgainstOne(), 2) == TwoAgainstOne()[..2]
    ensures Source(p, TwoAgainstOne()[0]) == Source(p, TwoAgainstOne()[1])
  {
    hide Best, Merit, Picks, Normalized, Without;
    var docs := TwoAgainstOne();
    if p.lambda < 1.0 {
      var a, b, c := Item(docs[0], 1.0), Item(docs[1], 1.0), Item(docs[2], 0.0);
      TwoAgainstOneItems();
      FirstPick(p, [a, b, c]);
      SecondPick(p, [a.doc], [b, c]);
      PickStep(p, [], [a, b, c], 2, 0);
      assert [a, b, c][1..] == [b, c] && [] + [a.doc] == [a.doc];
      PickStep(p, [a.doc], [b, c], 2, 0);
    }
  }

  lemma TwoAgainstOneItems()
    ensures var docs := TwoAgainstOne();
      Normalized(docs) == [Item(docs[0], 1.0), Item(docs[1], 1.0), Item(docs[2], 0.0)]
  {
    hide Scale;
    TopIsOne();
  }

  lemma PickStep(p: Params, selected: seq<Doc>, items: seq<Item>, topk: int, b: nat)
    requires items != [] && |selected| < topk && b == Best(p, selected, items)
    ensures Picks(p, selected, items, topk)
         == if |selected| + 1 == topk then (selected + [items[b].doc], Without(items, b))
            else Picks(p, selected + [items[b].doc], Without(items, b), topk)
    ensures b == 0 ==> Without(items, b) == items[1..]
  {
    hide Best;
  }

  lemma FirstPick(p: Params, items: seq<Item>)
    requires items != [] && forall i | 0 <= i < |items| :: items[i].rel <= items[0].rel
    ensures Best(p, [], items) == 0
  {
  }

  lemma SecondPick(p: Params, selected: seq<Doc>, items: seq<Item>)
    requires 0.5 <= p.lambda < 1.0 && |items| == 2 && items[0].rel == 1.0 && items[1].rel == 0.0 && selected != []
    ensures Best(p, selected, items) == 0
  {
    hide Source;
  }

  lemma TopIsOne()
    ensures Scale(TwoAgainstOne()) == 1.0
  {
  }

  // ---------------------------------------------------------------- each pick

  /** What a document is worth as the next pick: its score against the largest, and less if its source was picked. */
  ghost function Worth(p: Params, m: real, picked: seq<Doc>, d: Doc): real
    requires m != 0.0
  {
    if picked == [] then d.score / m
    else if exists x | x in picked :: Source(p, x) == Source(p, d) then p.lambda * (d.score / m) - (1.0 - p.lambda)
    else p.lambda * (d.score / m)
  }

  /** The pick at `k` is worth no less than any later one and any leftover. */
  ghost predicate Wins(p: Params, m: real, out: seq<Doc>, rest: seq<Doc>, k: nat)
    requires m != 0.0 && k < |out|
  {
    forall d | d in out[k..] || d in rest :: Worth(p, m, out[..k], d) <= Worth(p, m, out[..k], out[k])
  }

  ghost predicate Greedy(p: Params, m: real, out: seq<Doc>, rest: seq<Doc>, from: nat)
    requires m != 0.0
  {
    forall k | from <= k < |out| :: Wins(p, m, out, rest, k)
  }

  lemma WorthIsMerit(p: Params, m: real, selected: seq<Doc>, x: Item)
    requires m != 0.0 && x.rel == x.doc.score / m
    ensures Worth(p, m, selected, x.doc) == Merit(p, selected, x)
  {
    hide Source;
  }

  lemma BestWins(p: Params, m: real, selected: seq<Doc>, items: seq<Item>, d: Doc)
    requires m != 0.0 && items != [] && (forall x | x in items :: x.rel == x.doc.score / m) && d in Docs(items)
    ensures Worth(p, m, selected, d) <= Worth(p, m, selected, items[Best(p, selected, items)].doc)
  {
    hide Best, Merit, Worth;
    var b := Best(p, selected, items);
    var i :| 0 <= i < |items| && items[i].doc == d;
    WorthIsMerit(p, m, selected, items[i]);
    WorthIsMerit(p, m, selected, items[b]);
  }

  /** The picks go on from what was selected, and pick from the items. */
  lemma {:induction false} PicksCover(p: Params, selected: seq<Doc>, items: seq<Item>, topk: int)
    ensures var (out, rest) := Picks(p, selected, items, topk);
      && selected <= out
      && forall d | d in out[|selected|..] || d in Docs(rest) :: d in Docs(items)
    decreases |items|
  {
    hide Best, Merit;
    if items != [] && |selected| < topk {
      var b := Best(p, selected, items);
      DocsWithout(items, b);
      WithoutParts(Docs(items), b);
      PicksCover(p, selected + [items[b].doc], Without(items, b), topk);
      var out := Picks(p, selected, items, topk).0;
      assert out[|selected|..] == [items[b].doc] + out[|selected| + 1..];
      assert items[b].doc == Docs(items)[b];
    } else {
      assert selected[|selected|..] == [];
    }
  }

  lemma {:induction false} PicksGreedy(p: Params, m: real, selected: seq<Doc>, items: seq<Item>, topk: int)
    requires m != 0.0 && forall x | x in items :: x.rel == x.doc.score / m
    ensures var (out, rest) := Picks(p, selected, items, topk); Greedy(p, m, out, Docs(rest), |selected|)
    decreases |items|
  {
    hide Best, Merit, Worth, Docs, Wins;
    if items != [] && |selected| < topk {
      var b := Best(p, selected, items);
      WithoutParts(items, b);
      PicksGreedy(p, m, selected + [items[b].doc], Without(items, b), topk);
      FirstWins(p, m, selected, items, topk);
    }
  }

  lemma FirstWins(p: Params, m: real, selected: seq<Doc>, items: seq<Item>, topk: int)
    requires m != 0.0 && (forall x | x in items :: x.rel == x.doc.score / m) && items != [] && |selected| < topk
    ensures var (out, rest) := Picks(p, selected, items, topk);
      |selected| < |out| && Wins(p, m, out, Docs(rest), |selected|)
  {
    hide Best, Merit, Worth, Docs, Without;
    var b := Best(p, selected, items);
    var (out, rest) := Picks(p, selected, items, topk);
    PicksCover(p, selected, items, topk);
    PicksCover(p, selected + [items[b].doc], Without(items, b), topk);
    assert out[..|selected|] == selected && out[|selected|] == items[b].doc;
    forall d | d in out[|selected|..] || d in Docs(rest)
      ensures Worth(p, m, selected, d) <= Worth(p, m, selected, items[b].doc)
    {
      BestWins(p, m, selected, items, d);
    }
  }

  /** So each pick is the worthiest of what is left, with scores measured against the largest, unless that is zero; and
  the first pick has the largest score, or the smallest when all are negative. */
  lemma RerankIsGreedy(p: Params, docs: seq<Doc>, topk: int, top: real)
    requires (exists d | d in docs :: d.score == top) && forall d | d in docs :: d.score <= top
    ensures var (out, rest) := Rerank(p, docs, topk);
      && Greedy(p, if top == 0.0 then 1.0 else top, out, Docs(rest), 0)
      && (out != [] ==>
            forall d | d in docs :: if top >= 0.0 then d.score <= out[0].score else d.score >= out[0].score)
  {
    hide Picks, Worth, Docs, MaxScore;
    assert MaxScore(docs) == top;
    var m := Scale(docs);
    PicksGreedy(p, m, [], Normalized(docs), topk);
    var (out, rest) := Rerank(p, docs, topk);
    if out != [] {
      assert Wins(p, m, out, Docs(rest), 0) && out[0..] == out && out[..0] == [];
      forall d | d in docs ensures if top >= 0.0 then d.score <= out[0].score else d.score >= out[0].score {
        NothingDropped(p, docs, topk, d);
        FirstWorth(p, m, d, out[0]);
      }
    }
  }

  lemma FirstWorth(p: Params, m: real, a: Doc, b: Doc)
    requires m != 0.0 && Worth(p, m, [], a) <= Worth(p, m, [], b)
    ensures if m > 0.0 then a.score <= b.score else a.score >= b.score
  {
    AheadMeans(m);
    assert Ahead(m, b, a);
  }

  lemma NothingDropped(p: Params, docs: seq<Doc>, topk: int, d: Doc)
    requires d in docs
    ensures var (out, rest) := Rerank(p, docs, topk); d in out || d in Docs(rest)
  {
    hide Picks, Docs, Normalized;
    NormalizedDocs(docs);
    PicksConserve(p, [], Normalized(docs), topk);
    var (out, rest) := Rerank(p, docs, topk);
    assert d in multiset(docs);
    assert d in multiset(out) + multiset(Docs(rest));
  }

  // ---------------------------------------------------------------- order within a source

  predicate Ahead(m: real, a: Doc, b: Doc)
    requires m != 0.0
  {
    a.score / m >= b.score / m
  }

  /** Each pick is ahead of the later picks, and of the leftovers, of its own source. */
  ghost predicate Ordered(p: Params, m: real, out: seq<Doc>, rest: seq<Doc>)
    requires m != 0.0
  {
    && (forall i, j | 0 <= i < j < |out| :: Source(p, out[i]) == Source(p, out[j]) ==> Ahead(m, out[i], out[j]))
    && (forall a, b | a in out && b in rest :: Source(p, a) == Source(p, b) ==> Ahead(m, a, b))
  }

  lemma SameSourceByRel(p: Params, selected: seq<Doc>, x: Item, y: Item)
    requires 0.0 < p.lambda && Source(p, x.doc) == Source(p, y.doc)
    requires Merit(p, selected, x) >= Merit(p, selected, y)
    ensures x.rel >= y.rel
  {
    hide Source;
    assert selected != [] ==> p.lambda * (x.rel - y.rel) >= 0.0;
  }

  lemma OrderedStep(p: Params, m: real, selected: seq<Doc>, items: seq<Item>)
    requires m != 0.0 && 0.0 < p.lambda && items != []
    requires forall x | x in items :: x.rel == x.doc.score / m
    requires Ordered(p, m, selected, Docs(items))
    ensures var b := Best(p, selected, items);
      Ordered(p, m, selected + [items[b].doc], Docs(Without(items, b)))
  {
    hide Source, Best, Merit;
    var b := Best(p, selected, items);
    DocsWithout(items, b);
    WithoutParts(items, b);
    WithoutParts(Docs(items), b);
    assert items[b].doc == Docs(items)[b];
    forall d | d in Docs(Without(items, b)) && Source(p, d) == Source(p, items[b].doc)
      ensures Ahead(m, items[b].doc, d)
    {
      var i :| 0 <= i < |items| && items[i].doc == d;
      SameSourceByRel(p, selected, items[b], items[i]);
    }
  }

  lemma {:induction false} PicksOrdered(p: Params, m: real, selected: seq<Doc>, items: seq<Item>, topk: int)
    requires m != 0.0 && 0.0 < p.lambda
    requires forall x | x in items :: x.rel == x.doc.score / m
    requires Ordered(p, m, selected, Docs(items))
    ensures var (out, rest) := Picks(p, selected, items, topk); Ordered(p, m, out, Docs(rest))
    decreases |items|
  {
    hide Best, Merit, Ordered;
    if items != [] && |selected| < topk {
      var b := Best(p, selected, items);
      OrderedStep(p, m, selected, items);
      WithoutParts(items, b);
      PicksOrdered(p, m, selected + [items[b].doc], Without(items, b), topk);
    }
  }

  /** With lambda strictly between zero and one the picks of one source are its best, best first, when some
  score is not negative. When all scores are negative the division turns the order around. */
  lemma SourceOrder(p: Params, docs: seq<Doc>, topk: int)
    requires docs != [] && 0.0 < p.lambda < 1.0
    ensures var (out, rest) := Rerank(p, docs, topk);
      && (forall i, j | 0 <= i < j < |out| && Source(p, out[i]) == Source(p, out[j]) ::
          if MaxScore(docs) >= 0.0 then out[i].score >= out[j].score else out[i].score <= out[j].score)
      && (forall a, b | a in out && b in Docs(rest) && Source(p, a) == Source(p, b) ::
          if MaxScore(docs) >= 0.0 then a.score >= b.score else a.score <= b.score)
  {
    hide Source, Picks, MaxScore;
    var m := Scale(docs);
    PicksOrdered(p, m, [], Normalized(docs), topk);
    AheadMeans(m);
  }

  lemma AheadMeans(m: real)
    requires m != 0.0
    ensures forall a, b :: Ahead(m, a, b) ==> if m > 0.0 then a.score >= b.score else a.score <= b.score
  {
    forall a, b | Ahead(m, a, b) ensures if m > 0.0 then a.score >= b.score else a.score <= b.score {
      assert a.score == (a.score / m) * m && b.score == (b.score / m) * m;
    }
  }

  /** Two documents of one source with negative scores come out worst first. */
  lemma NegativeScoresReverse(p: Params)
    ensures Rerank(p, [Doc("a", "", "", -1.0), Doc("a", "", "", -2.0)], 1).0 == [Doc("a", "", "", -2.0)]
  {
    hide Scale, Best;
    var docs := [Doc("a", "", "", -1.0), Doc("a", "", "", -2.0)];
    var items := [Item(docs[0], 1.0), Item(docs[1], 2.0)];
    assert Scale(docs) == -1.0 by { TopIsMinusOne(docs); }
    assert Normalized(docs) == items;
    LaterIsBetter(p, items);
    PickStep(p, [], items, 1, 1);
  }

  lemma TopIsMinusOne(docs: seq<Doc>)
    requires |docs| == 2 && docs[0].score == -1.0 && docs[1].score == -2.0
    ensures Scale(docs) == -1.0
  {
    assert docs[..1] == [docs[0]];
  }

  lemma LaterIsBetter(p: Params, items: seq<Item>)
    requires |items| == 2 && items[0].rel < items[1].rel
    ensures Best(p, [], items) == 1
  {
  }
}
