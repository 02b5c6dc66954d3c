/** What sufficient evidence is and what the evidence score measures, said of the passages themselves. */
module EvidenceRules {
  import opened Text
  import opened Evidence

  /** The scores that count, summed and counted. */
  function PositiveSum(ps: seq<Passage>): real {
    if ps == [] then 0.0
    else PositiveSum(ps[..|ps| - 1]) + if ps[|ps| - 1].score > 0.0 then ps[|ps| - 1].score else 0.0
  }

  function PositiveCount(ps: seq<Passage>): nat {
    if ps == [] then 0
    else PositiveCount(ps[..|ps| - 1]) + if ps[|ps| - 1].score > 0.0 then 1 else 0
  }

  /** The best score that counts. */
  predicate IsBest(ps: seq<Passage>, x: real) {
    (forall p | p in ps :: p.score <= x) && exists p | p in ps :: p.score == x > 0.0
  }

  predicate SomeScore(ps: seq<Passage>) {
    exists p | p in ps :: p.score > 0.0
  }

  /** Enough passages, none too short, a score if one is required; and if there are scores, a good one among them and a
  good average. */
  predicate Enough(c: Config, ps: seq<Passage>) {
    && |ps| >= c.minResultsPerQuery && (forall p | p in ps :: p.length >= c.minContentLength)
    && (c.requireScores ==> SomeScore(ps))
    && (SomeScore(ps) ==>
          && (exists p | p in ps :: p.score > 0.0 && p.score >= c.minTopScore)
          && PositiveSum(ps) >= c.minAvgScore * PositiveCount(ps) as real)
  }

  lemma {:induction false} ScoredIs(ps: seq<Passage>)
    ensures forall x :: x in Scored(ps) <==> exists p | p in ps :: p.score == x > 0.0
  {
    if ps != [] {
      ScoredIs(ps[1..]);
      assert ps == [ps[0]] + ps[1..];
    }
  }

  function ScoreOf(p: Passage): seq<real> {
    if p.score > 0.0 then [p.score] else []
  }

  lemma {:induction false} ScoredGrows(ps: seq<Passage>, p: Passage)
    ensures Scored(ps + [p]) == Scored(ps) + ScoreOf(p)
  {
    hide Scored, ScoreOf;
    ScoredStep(ps + [p]);
    if ps == [] {
      assert (ps + [p])[1..] == ps && (ps + [p])[0] == p;
      NoScores(ps);
      assert ScoreOf(p) + [] == [] + ScoreOf(p);
    } else {
      ScoredStep(ps);
      assert (ps + [p])[1..] == ps[1..] + [p];
      ScoredGrows(ps[1..], p);
      assert ScoreOf(ps[0]) + (Scored(ps[1..]) + ScoreOf(p)) == (ScoreOf(ps[0]) + Scored(ps[1..])) + ScoreOf(p);
    }
  }

  lemma ScoredStep(ps: seq<Passage>)
    requires ps != []
    ensures Scored(ps) == ScoreOf(ps[0]) + Scored(ps[1..])
  {
  }

  lemma {:induction false} SumGrows(xs: seq<real>, x: real)
    ensures Sum(xs + [x]) == Sum(xs) + x
  {
    if xs == [] {
      assert [x][1..] == [];
    } else {
      assert (xs + [x])[1..] == xs[1..] + [x];
      SumGrows(xs[1..], x);
    }
  }

  lemma {:induction false} ScoresSum(ps: seq<Passage>)
    ensures Sum(Scored(ps)) == PositiveSum(ps) && |Scored(ps)| == PositiveCount(ps)
  {
    hide Scored, Sum;
    if ps == [] {
      NoScores(ps);
    } else {
      var n := |ps| - 1;
      assert ps == ps[..n] + [ps[n]];
      ScoresSum(ps[..n]);
      ScoredGrows(ps[..n], ps[n]);
      if ps[n].score > 0.0 {
        SumGrows(Scored(ps[..n]), ps[n].score);
      } else {
        assert Scored(ps[..n]) + [] == Scored(ps[..n]);
      }
    }
  }

  lemma NoScores(ps: seq<Passage>)
    requires ps == []
    ensures Scored(ps) == [] && Sum(Scored(ps)) == 0.0
  {
  }

  lemma {:induction false} MaxIs(xs: seq<real>)
    requires xs != []
    ensures Max(xs) in xs && forall x | x in xs :: x <= Max(xs)
  {
    if |xs| > 1 {
      MaxIs(xs[1..]);
      assert xs == [xs[0]] + xs[1..];
    }
  }

  lemma {:induction false} AllLong(c: Config, ps: seq<Passage>)
    ensures NonEmpty(c, ps) <= |ps|
    ensures NonEmpty(c, ps) >= |ps| <==> forall p | p in ps :: p.length >= c.minContentLength
  {
    if ps != [] {
      AllLong(c, ps[1..]);
      assert ps == [ps[0]] + ps[1..];
    }
  }

  lemma {:induction false} NoneIsNoScore(ps: seq<Passage>)
    ensures Scored(ps) == [] <==> !SomeScore(ps)
  {
    hide Scored;
    ScoredIs(ps);
    if SomeScore(ps) {
      var p :| p in ps && p.score > 0.0;
      assert p.score in Scored(ps);
    }
    if Scored(ps) != [] {
      var x := Scored(ps)[0];
      assert x in Scored(ps);
    }
  }

  lemma BestIs(ps: seq<Passage>)
    requires Scored(ps) != []
    ensures IsBest(ps, Max(Scored(ps)))
  {
    hide Scored, Max;
    ScoredIs(ps);
    MaxIs(Scored(ps));
    forall p | p in ps ensures p.score <= Max(Scored(ps)) {
      if p.score > 0.0 { assert p.score in Scored(ps); }
    }
  }

  lemma AverageIff(sum: real, n: nat, least: real)
    requires n > 0
    ensures sum / n as real >= least <==> sum >= least * n as real
  {
    var avg := sum / n as real;
    assert avg * n as real == sum;
    if avg >= least { assert (avg - least) * n as real >= 0.0; }
    if avg < least { assert (least - avg) * n as real > 0.0; }
  }

  /** A query is judged sufficient exactly when what it found is enough; it counts what it found, and its top score is
  the best of those. */
  lemma QueryIff(c: Config, ps: seq<Passage>)
    ensures var e := EvaluateQuery(c, ps);
      && (e.sufficient <==> Enough(c, ps)) && e.count == |ps|
      && (if SomeScore(ps) then e.top.Some? && IsBest(ps, e.top.value) else e.top == None)
  {
    hide Scored, Max, Sum, NonEmpty;
    var xs := Scored(ps);
    AllLong(c, ps);
    NoneIsNoScore(ps);
    if xs != [] {
      BestIs(ps);
      ScoresSum(ps);
      AverageIff(PositiveSum(ps), PositiveCount(ps), c.minAvgScore);
      BestReaches(ps, Max(xs), c.minTopScore);
    }
  }

  lemma BestReaches(ps: seq<Passage>, best: real, least: real)
    requires IsBest(ps, best)
    ensures best >= least <==> exists p | p in ps :: p.score > 0.0 && p.score >= least
  {
  }

  /** A round is judged sufficient exactly when it asked something, found enough in all, and enough for each query. */
  lemma RoundIff(c: Config, rows: seq<seq<Passage>>)
    ensures var e := EvaluateRound(c, rows);
      && |e.queries| == |rows| && e.total == |Flatten(rows)|
      && (e.sufficient <==>
            rows != [] && |Flatten(rows)| >= c.minTotalResults && forall row | row in rows :: Enough(c, row))
  {
    hide EvaluateQuery, Enough, TotalCount;
    Totals(c, rows);
    var qs := EvaluateQueries(c, rows);
    forall row ensures EvaluateQuery(c, row).sufficient <==> Enough(c, row) { QueryIff(c, row); }
    forall row | row in rows ensures EvaluateQuery(c, row) in qs {
      var i :| 0 <= i < |rows| && rows[i] == row;
      assert qs[i] == EvaluateQuery(c, row);
    }
  }

  lemma {:induction false} TotalGrows(qs: seq<QueryEval>, q: QueryEval)
    ensures TotalCount(qs + [q]) == TotalCount(qs) + q.count
  {
    if qs == [] {
      assert [q][1..] == [];
    } else {
      assert (qs + [q])[1..] == qs[1..] + [q];
      TotalGrows(qs[1..], q);
    }
  }

  lemma {:induction false} Totals(c: Config, rows: seq<seq<Passage>>)
    ensures TotalCount(EvaluateQueries(c, rows)) == |Flatten(rows)|
  {
    hide EvaluateQuery;
    if rows != [] {
      var n := |rows| - 1;
      Totals(c, rows[..n]);
      assert EvaluateQueries(c, rows) == EvaluateQueries(c, rows[..n]) + [EvaluateQuery(c, rows[n])];
      TotalGrows(EvaluateQueries(c, rows[..n]), EvaluateQuery(c, rows[n]));
      QueryIff(c, rows[n]);
    }
  }

  // ---------------------------------------------------------------- the evidence score

  function EnoughCount(c: Config, rows: seq<seq<Passage>>): nat {
    if rows == [] then 0
    else EnoughCount(c, rows[..|rows| - 1]) + if Enough(c, rows[|rows| - 1]) then 1 else 0
  }

  /** The rows that have a score, and their best scores, squashed into the unit interval and summed. */
  ghost predicate BestSum(rows: seq<seq<Passage>>, n: nat, sum: real) {
    if rows == [] then n == 0 && sum == 0.0
    else
      var init, row := rows[..|rows| - 1], rows[|rows| - 1];
      if SomeScore(row) then n > 0 && exists x | IsBest(row, x) :: BestSum(init, n - 1, sum - x / (1.0 + x))
      else BestSum(init, n, sum)
  }

  /** The score is half the share of the queries that found enough, and half the mean of the squashed best scores. */
  lemma ScoreIs(c: Config, rows: seq<seq<Passage>>) returns (n: nat, sum: real)
    requires rows != []
    ensures BestSum(rows, n, sum)
    ensures ToScore(EvaluateRound(c, rows)) ==
      0.5 * (EnoughCount(c, rows) as real / |rows| as real) + 0.5 * (if n == 0 then 0.0 else sum / n as real)
  {
    hide EvaluateQuery, CountSufficient, Tops, Sum, BestSum, EnoughCount;
    var e := EvaluateRound(c, rows);
    BlendIsScore(e);
    Shared(c, rows);
    n, sum := |Tops(e.queries)|, Sum(Tops(e.queries));
    Squashed(c, rows);
  }

  lemma {:induction false} Shared(c: Config, rows: seq<seq<Passage>>)
    ensures CountSufficient(EvaluateQueries(c, rows)) == EnoughCount(c, rows)
  {
    hide EvaluateQuery, Enough;
    if rows != [] {
      var n := |rows| - 1;
      Shared(c, rows[..n]);
      assert EvaluateQueries(c, rows) == EvaluateQueries(c, rows[..n]) + [EvaluateQuery(c, rows[n])];
      CountGrows(EvaluateQueries(c, rows[..n]), EvaluateQuery(c, rows[n]));
      QueryIff(c, rows[n]);
    }
  }

  lemma {:induction false} CountGrows(qs: seq<QueryEval>, q: QueryEval)
    ensures CountSufficient(qs + [q]) == CountSufficient(qs) + if q.sufficient then 1 else 0
  {
    if qs == [] {
      assert [q][1..] == [];
    } else {
      assert (qs + [q])[1..] == qs[1..] + [q];
      CountGrows(qs[1..], q);
    }
  }

  function TopOf(q: QueryEval): seq<real> {
    if q.top.Some? then [Squash(q.top.value)] else []
  }

  lemma {:induction false} TopsGrow(qs: seq<QueryEval>, q: QueryEval)
    ensures Tops(qs + [q]) == Tops(qs) + TopOf(q)
  {
    hide Tops, TopOf;
    TopsStep(qs + [q]);
    if qs == [] {
      assert (qs + [q])[1..] == qs && (qs + [q])[0] == q;
      NoTop(qs);
      assert TopOf(q) + [] == [] + TopOf(q);
    } else {
      TopsStep(qs);
      assert (qs + [q])[1..] == qs[1..] + [q];
      TopsGrow(qs[1..], q);
      assert TopOf(qs[0]) + (Tops(qs[1..]) + TopOf(q)) == (TopOf(qs[0]) + Tops(qs[1..])) + TopOf(q);
    }
  }

  lemma TopsStep(qs: seq<QueryEval>)
    requires qs != []
    ensures Tops(qs) == TopOf(qs[0]) + Tops(qs[1..])
  {
    hide Squash;
  }

  lemma NoTop(qs: seq<QueryEval>)
    requires qs == []
    ensures Tops(qs) == []
  {
  }

  lemma {:induction false} Squashed(c: Config, rows: seq<seq<Passage>>)
    ensures var tops := Tops(EvaluateQueries(c, rows)); BestSum(rows, |tops|, Sum(tops))
  {
    hide EvaluateQuery, Tops, Squash, Sum, SomeScore, IsBest;
    if rows == [] {
      NoTops(c, rows);
    } else {
      var n := |rows| - 1;
      var q, init := EvaluateQuery(c, rows[n]), EvaluateQueries(c, rows[..n]);
      Squashed(c, rows[..n]);
      assert EvaluateQueries(c, rows) == init + [q];
      TopsGrow(init, q);
      QueryIff(c, rows[n]);
      var tops := Tops(init);
      if q.top.Some? {
        var x := Squash(q.top.value);
        SumGrows(tops, x);
        SquashIs(rows[n], q.top.value);
        assert Sum(tops + [x]) - x == Sum(tops) && |tops + [x]| - 1 == |tops|;
      } else {
        assert tops + [] == tops;
      }
    }
  }

  lemma NoTops(c: Config, rows: seq<seq<Passage>>)
    requires rows == []
    ensures Tops(EvaluateQueries(c, rows)) == [] && Sum(Tops(EvaluateQueries(c, rows))) == 0.0
  {
  }

  lemma SquashIs(ps: seq<Passage>, x: real)
    requires IsBest(ps, x)
    ensures x > 0.0 && Squash(x) == x / (1.0 + x)
  {
  }
}
