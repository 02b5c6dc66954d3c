/** Judging a search round (`result_evaluation.py`, `evidence_judge.py`), over reals. */
module Evidence {
  import opened Text

  /** A result, as the evaluator looks at it: its score and the length of its stripped contents. */
  datatype Passage = Passage(contents: string, length: nat, score: real)

  datatype Config = Config(minResultsPerQuery: int, minTotalResults: int, minTopScore: real, minAvgScore: real,
                           minContentLength: int, requireScores: bool)

  datatype QueryEval = QueryEval(count: nat, top: Option<real>, sufficient: bool)

  datatype RoundEval = RoundEval(queries: seq<QueryEval>, total: nat, sufficient: bool)

  /** The positive scores. */
  function Scored(ps: seq<Passage>): seq<real> {
    if ps == [] then [] else (if ps[0].score > 0.0 then [ps[0].score] else []) + Scored(ps[1..])
  }

  function Sum(xs: seq<real>): real {
    if xs == [] then 0.0 else xs[0] + Sum(xs[1..])
  }

  function Max(xs: seq<real>): real
    requires xs != []
  {
    if |xs| == 1 then xs[0] else var m := Max(xs[1..]); if xs[0] >= m then xs[0] else m
  }

  function NonEmpty(c: Config, ps: seq<Passage>): nat {
    if ps == [] then 0 else (if ps[0].length >= c.minContentLength then 1 else 0) + NonEmpty(c, ps[1..])
  }

  /** `_evaluate_query`: sufficient when no reason against it is found. */
  function EvaluateQuery(c: Config, ps: seq<Passage>): QueryEval {
    var xs := Scored(ps);
    var top := if xs == [] then None else Some(Max(xs));
    QueryEval(|ps|, top,
      && |ps| >= c.minResultsPerQuery
      && NonEmpty(c, ps) >= |ps|
      && (c.requireScores ==> xs != [])
      && (xs != [] ==> Max(xs) >= c.minTopScore && Sum(xs) / |xs| as real >= c.minAvgScore))
  }

  function EvaluateQueries(c: Config, rows: seq<seq<Passage>>): seq<QueryEval> {
    seq(|rows|, i requires 0 <= i < |rows| => EvaluateQuery(c, rows[i]))
  }

  function TotalCount(qs: seq<QueryEval>): nat {
    if qs == [] then 0 else qs[0].count + TotalCount(qs[1..])
  }

  /** `evaluate_round`. */
  function EvaluateRound(c: Config, rows: seq<seq<Passage>>): RoundEval {
    var qs := EvaluateQueries(c, rows);
    RoundEval(qs, TotalCount(qs),
      qs != [] && TotalCount(qs) >= c.minTotalResults && forall q | q in qs :: q.sufficient)
  }

  function Squash(x: real): (y: real)
    ensures 0.0 <= y < 1.0
  {
    if x <= 0.0 then 0.0 else x / (1.0 + x)
  }

  function CountSufficient(qs: seq<QueryEval>): (n: nat)
    ensures n <= |qs|
  {
    if qs == [] then 0 else (if qs[0].sufficient then 1 else 0) + CountSufficient(qs[1..])
  }

  function Tops(qs: seq<QueryEval>): seq<real> {
    if qs == [] then [] else (if qs[0].top.Some? then [Squash(qs[0].top.value)] else []) + Tops(qs[1..])
  }

  function Mean(xs: seq<real>): real {
    if xs == [] then 0.0 else Sum(xs) / |xs| as real
  }

  function Fraction(qs: seq<QueryEval>): real
    requires qs != []
  {
    CountSufficient(qs) as real / |qs| as real
  }

  /** Half the share of sufficient queries, half the mean squashed top score. */
  function Blend(qs: seq<QueryEval>): real
    requires qs != []
  {
    0.5 * Fraction(qs) + 0.5 * Mean(Tops(qs))
  }

  function Clamp(x: real): (y: real)
    ensures 0.0 <= y <= 1.0
  {
    if x < 0.0 then 0.0 else if x > 1.0 then 1.0 else x
  }

  /** `_to_score`. */
  function ToScore(r: RoundEval): (y: real)
    ensures 0.0 <= y <= 1.0
  {
    if r.queries == [] then 0.0 else Clamp(Blend(r.queries))
  }

  /** The two halves are shares, so the blend needs no clamp: it is the score. */
  lemma BlendIsScore(r: RoundEval)
    requires r.queries != []
    ensures 0.0 <= Fraction(r.queries) <= 1.0 && 0.0 <= Mean(Tops(r.queries)) < 1.0
    ensures 0.0 <= Blend(r.queries) < 1.0 && ToScore(r) == Blend(r.queries)
  {
    hide Tops, CountSufficient;
    var qs, n := r.queries, |r.queries| as real;
    DivideBelow(0.0, CountSufficient(qs) as real, n);
    DivideBelow(CountSufficient(qs) as real, n, n);
    TopsInUnit(qs);
    MeanInUnit(Tops(qs));
  }

  lemma {:induction false} TopsInUnit(qs: seq<QueryEval>)
    ensures forall x | x in Tops(qs) :: 0.0 <= x < 1.0
  {
    hide Squash;
    if qs != [] { TopsInUnit(qs[1..]); }
  }

  lemma MeanInUnit(xs: seq<real>)
    requires forall x | x in xs :: 0.0 <= x < 1.0
    ensures 0.0 <= Mean(xs) < 1.0
  {
    if xs != [] {
      SumInUnit(xs);
      assert Mean(xs) * |xs| as real == Sum(xs);
    }
  }

  lemma {:induction false} SumInUnit(xs: seq<real>)
    requires forall x | x in xs :: 0.0 <= x < 1.0
    ensures 0.0 <= Sum(xs) && (xs != [] ==> Sum(xs) < |xs| as real)
  {
    if xs != [] {
      assert xs[0] in xs && forall x | x in xs[1..] :: x in xs;
      SumInUnit(xs[1..]);
    }
  }

  // ---------------------------------------------------------------- raising scores

  ghost predicate Below(xs: seq<real>, ys: seq<real>) {
    |xs| == |ys| && forall i | 0 <= i < |xs| :: xs[i] <= ys[i]
  }

  /** The same passages with scores that were positive raised, and the others left. */
  ghost predicate Raised(ps: seq<Passage>, qs: seq<Passage>) {
    && |ps| == |qs|
    && forall i | 0 <= i < |ps| ::
      && ps[i].length == qs[i].length
      && if ps[i].score > 0.0 then ps[i].score <= qs[i].score else ps[i].score == qs[i].score
  }

  lemma {:induction false} SumBelow(xs: seq<real>, ys: seq<real>)
    requires Below(xs, ys)
    ensures Sum(xs) <= Sum(ys)
  {
    if xs != [] { SumBelow(xs[1..], ys[1..]); }
  }

  lemma {:induction false} MaxBelow(xs: seq<real>, ys: seq<real>)
    requires Below(xs, ys) && xs != []
    ensures Max(xs) <= Max(ys)
  {
    if |xs| > 1 { MaxBelow(xs[1..], ys[1..]); }
  }

  lemma MeanBelow(xs: seq<real>, ys: seq<real>)
    requires Below(xs, ys)
    ensures Mean(xs) <= Mean(ys)
  {
    SumBelow(xs, ys);
    if xs != [] { DivideBelow(Sum(xs), Sum(ys), |xs| as real); }
  }

  lemma DivideBelow(a: real, b: real, n: real)
    requires a <= b && n > 0.0
    ensures a / n <= b / n
  {
    assert (b - a) / n >= 0.0;
  }

  lemma {:induction false} ScoredBelow(ps: seq<Passage>, qs: seq<Passage>)
    requires Raised(ps, qs)
    ensures Below(Scored(ps), Scored(qs))
  {
    if ps != [] {
      ScoredBelow(ps[1..], qs[1..]);
      var a, b := Scored(ps[1..]), Scored(qs[1..]);
      assert forall i | 0 <= i < |a| :: a[i] <= b[i];
    }
  }

  lemma {:induction false} NonEmptySame(c: Config, ps: seq<Passage>, qs: seq<Passage>)
    requires Raised(ps, qs)
    ensures NonEmpty(c, ps) == NonEmpty(c, qs)
  {
    if ps != [] { NonEmptySame(c, ps[1..], qs[1..]); }
  }

  ghost predicate Better(a: QueryEval, b: QueryEval) {
    && a.count == b.count && (a.sufficient ==> b.sufficient) && (a.top.Some? <==> b.top.Some?)
    && (a.top.Some? ==> 0.0 < a.top.value <= b.top.value)
  }

  lemma {:induction false} MaxOfScored(ps: seq<Passage>)
    ensures Scored(ps) != [] ==> Max(Scored(ps)) > 0.0
  {
    if ps != [] {
      MaxOfScored(ps[1..]);
      var xs := Scored(ps[1..]);
      assert Scored(ps) == xs || Scored(ps) == [ps[0].score] + xs;
      assert ([ps[0].score] + xs)[1..] == xs;
    }
  }

  lemma QueryBetter(c: Config, ps: seq<Passage>, qs: seq<Passage>)
    requires Raised(ps, qs)
    ensures Better(EvaluateQuery(c, ps), EvaluateQuery(c, qs))
  {
    hide Scored, Max, Sum, NonEmpty;
    ScoredBelow(ps, qs);
    NonEmptySame(c, ps, qs);
    MaxOfScored(ps);
    if Scored(ps) != [] {
      MaxBelow(Scored(ps), Scored(qs));
      MeanBelow(Scored(ps), Scored(qs));
    }
  }

  ghost predicate AllBetter(a: seq<QueryEval>, b: seq<QueryEval>) {
    |a| == |b| && forall i | 0 <= i < |a| :: Better(a[i], b[i])
  }

  lemma {:induction false} CountsBetter(a: seq<QueryEval>, b: seq<QueryEval>)
    requires AllBetter(a, b)
    ensures TotalCount(a) == TotalCount(b) && CountSufficient(a) <= CountSufficient(b)
    ensures Below(Tops(a), Tops(b))
  {
    if a != [] {
      CountsBetter(a[1..], b[1..]);
      if a[0].top.Some? { SquashBelow(a[0].top.value, b[0].top.value); }
      BelowCons(Tops(a[1..]), Tops(b[1..]), a[0].top, b[0].top);
    }
  }

  lemma BelowCons(xs: seq<real>, ys: seq<real>, x: Option<real>, y: Option<real>)
    requires Below(xs, ys) && (x.Some? <==> y.Some?) && (x.Some? ==> Squash(x.value) <= Squash(y.value))
    ensures x.Some? ==> Below([Squash(x.value)] + xs, [Squash(y.value)] + ys)
    ensures Below([] + xs, [] + ys)
  {
    hide Squash;
    assert [] + xs == xs && [] + ys == ys;
  }

  lemma SquashBelow(x: real, y: real)
    requires x <= y
    ensures Squash(x) <= Squash(y)
  {
    if x > 0.0 {
      Quotient(x);
      Quotient(y);
      var a, b := Squash(x), Squash(y);
      NonNegative(1.0 - a, y - x);
      assert a * (1.0 + y) == x + a * (y - x);
      Cancel(a, b, 1.0 + y);
    }
  }

  lemma Quotient(x: real)
    requires x > 0.0
    ensures Squash(x) * (1.0 + x) == x
  {
  }

  lemma NonNegative(a: real, b: real)
    requires a >= 0.0 && b >= 0.0
    ensures a * b >= 0.0
  {
  }

  lemma Cancel(a: real, b: real, m: real)
    requires m > 0.0 && a * m <= b * m
    ensures a <= b
  {
    assert (b - a) * m >= 0.0;
  }

  lemma BetterRound(a: RoundEval, b: RoundEval)
    requires AllBetter(a.queries, b.queries)
    ensures ToScore(a) <= ToScore(b)
  {
    hide CountSufficient, Tops, Mean, Better;
    CountsBetter(a.queries, b.queries);
    MeanBelow(Tops(a.queries), Tops(b.queries));
    if a.queries != [] {
      DivideBelow(CountSufficient(a.queries) as real, CountSufficient(b.queries) as real, |a.queries| as real);
    }
  }

  /** Raising scores that are already positive never makes a sufficient round insufficient, and never lowers
  the evidence score. */
  lemma RaisingHelps(c: Config, rows: seq<seq<Passage>>, raised: seq<seq<Passage>>)
    requires |rows| == |raised| && forall i | 0 <= i < |rows| :: Raised(rows[i], raised[i])
    ensures EvaluateRound(c, rows).sufficient ==> EvaluateRound(c, raised).sufficient
    ensures ToScore(EvaluateRound(c, rows)) <= ToScore(EvaluateRound(c, raised))
  {
    hide EvaluateQuery, TotalCount, CountSufficient, Tops, ToScore;
    var a, b := EvaluateQueries(c, rows), EvaluateQueries(c, raised);
    forall i | 0 <= i < |rows| ensures Better(a[i], b[i]) { QueryBetter(c, rows[i], raised[i]); }
    CountsBetter(a, b);
    BetterRound(EvaluateRound(c, rows), EvaluateRound(c, raised));
    if EvaluateRound(c, rows).sufficient {
      forall q | q in b ensures q.sufficient {
        var i :| 0 <= i < |b| && b[i] == q;
        assert a[i] in a;
      }
    }
  }

  /** A score of zero is not counted in the average, so raising it can pull the average under its minimum. */
  lemma RaisingZeroHurts() returns (c: Config, ps: seq<Passage>, qs: seq<Passage>)
    ensures |ps| == |qs| && forall i | 0 <= i < |ps| :: ps[i].length == qs[i].length && ps[i].score <= qs[i].score
    ensures EvaluateQuery(c, ps).sufficient && !EvaluateQuery(c, qs).sufficient
  {
    c := Config(1, 1, 0.0, 1.0, 0, false);
    var one, zero, half := Passage("", 0, 1.0), Passage("", 0, 0.0), Passage("", 0, 0.5);
    ps, qs := [one, zero], [one, half];
    assert ps[1..] == [zero] && qs[1..] == [half] && [zero][1..] == [] && [half][1..] == [];
    assert Scored([zero]) == [] && Scored([half]) == [0.5];
    assert Scored(ps) == [1.0] && Scored(qs) == [1.0, 0.5];
    assert [1.0][1..] == [] && [1.0, 0.5][1..] == [0.5] && [0.5][1..] == [];
    assert Sum([1.0]) == 1.0 && Sum([0.5]) == 0.5 && Sum([1.0, 0.5]) == 1.5;
    assert NonEmpty(c, [zero]) == 1 && NonEmpty(c, ps) == 2;
    assert EvaluateQuery(c, ps).sufficient && !EvaluateQuery(c, qs).sufficient;
  }
}
