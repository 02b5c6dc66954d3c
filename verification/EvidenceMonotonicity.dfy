/** When a higher retrieval score can make the evidence look worse.

Only positive scores enter the average and the top score, so raising a score to its first positive value brings
a new number into both. */
module EvidenceMonotonicity {
  import opened Text
  import opened Evidence

  /** The same passages, none with a lower score. */
  ghost predicate Lifted(ps: seq<Passage>, qs: seq<Passage>) {
    |ps| == |qs| && forall i | 0 <= i < |ps| :: ps[i].length == qs[i].length && ps[i].score <= qs[i].score
  }

  ghost predicate LiftedRows(rows: seq<seq<Passage>>, lifted: seq<seq<Passage>>) {
    |rows| == |lifted| && forall i | 0 <= i < |rows| :: Lifted(rows[i], lifted[i])
  }

  /** No query that had no positive score gets one. */
  ghost predicate NoFirstScore(rows: seq<seq<Passage>>, lifted: seq<seq<Passage>>)
    requires |rows| == |lifted|
  {
    forall i | 0 <= i < |rows| && Scored(rows[i]) == [] :: Scored(lifted[i]) == []
  }

  ghost predicate KeepsQueries(c: Config) {
    forall ps, qs | Lifted(ps, qs) && EvaluateQuery(c, ps).sufficient :: EvaluateQuery(c, qs).sufficient
  }

  ghost predicate KeepsRounds(c: Config) {
    forall rows, lifted | LiftedRows(rows, lifted) && EvaluateRound(c, rows).sufficient ::
      EvaluateRound(c, lifted).sufficient
  }

  ghost predicate KeepsScores(c: Config) {
    forall rows, lifted | LiftedRows(rows, lifted) && NoFirstScore(rows, lifted) ::
      ToScore(EvaluateRound(c, rows)) <= ToScore(EvaluateRound(c, lifted))
  }

  /** No minimum average, and no minimum top score that a query may meet by having no scores. */
  predicate Tolerant(c: Config) {
    c.minAvgScore <= 0.0 && (c.minTopScore <= 0.0 || c.requireScores)
  }

  // ---------------------------------------------------------------- what higher scores cannot spoil

  lemma {:induction false} LiftScored(ps: seq<Passage>, qs: seq<Passage>)
    requires Lifted(ps, qs)
    ensures Scored(ps) != [] ==> Scored(qs) != [] && Max(Scored(ps)) <= Max(Scored(qs))
  {
    if ps != [] {
      LiftScored(ps[1..], qs[1..]);
      MaxOfCons(ps);
      MaxOfCons(qs);
    }
  }

  lemma MaxOfCons(ps: seq<Passage>)
    requires ps != []
    ensures var x, xs := ps[0].score, Scored(ps[1..]);
      && (Scored(ps) == [] <==> x <= 0.0 && xs == [])
      && (Scored(ps) != [] ==>
            Max(Scored(ps)) == if xs == [] then x else if x > 0.0 && x >= Max(xs) then x else Max(xs))
  {
    var x, xs := ps[0].score, Scored(ps[1..]);
    assert ([x] + xs)[1..] == xs && [] + xs == xs;
  }

  lemma {:induction false} SameLengths(c: Config, ps: seq<Passage>, qs: seq<Passage>)
    requires Lifted(ps, qs)
    ensures NonEmpty(c, ps) == NonEmpty(c, qs)
  {
    if ps != [] { SameLengths(c, ps[1..], qs[1..]); }
  }

  lemma {:induction false} ScoredIsPositive(ps: seq<Passage>)
    ensures Sum(Scored(ps)) >= 0.0 && (Scored(ps) != [] ==> Max(Scored(ps)) > 0.0)
  {
    MaxOfScored(ps);
    if ps != [] {
      ScoredIsPositive(ps[1..]);
      assert ([ps[0].score] + Scored(ps[1..]))[1..] == Scored(ps[1..]) && [] + Scored(ps[1..]) == Scored(ps[1..]);
    }
  }

  lemma TolerantKeeps(c: Config, ps: seq<Passage>, qs: seq<Passage>)
    requires Tolerant(c) && Lifted(ps, qs) && EvaluateQuery(c, ps).sufficient
    ensures EvaluateQuery(c, qs).sufficient
  {
    hide Scored, Max, Sum, NonEmpty;
    LiftScored(ps, qs);
    SameLengths(c, ps, qs);
    ScoredIsPositive(qs);
    if Scored(qs) != [] { DivideBelow(0.0, Sum(Scored(qs)), |Scored(qs)| as real); }
  }

  /** Without a minimum average, a query that does not get its first score gets no worse. */
  lemma LiftBetter(c: Config, ps: seq<Passage>, qs: seq<Passage>)
    requires c.minAvgScore <= 0.0 && Lifted(ps, qs) && (Scored(ps) == [] ==> Scored(qs) == [])
    ensures Better(EvaluateQuery(c, ps), EvaluateQuery(c, qs))
  {
    hide Scored, Max, Sum, NonEmpty;
    LiftScored(ps, qs);
    SameLengths(c, ps, qs);
    ScoredIsPositive(ps);
    ScoredIsPositive(qs);
    if Scored(qs) != [] { DivideBelow(0.0, Sum(Scored(qs)), |Scored(qs)| as real); }
  }

  // ---------------------------------------------------------------- what they can spoil

  /** A passage of as many letters as the evaluator asks for. */
  function Long(c: Config, score: real): Passage {
    var letters := seq(if c.minContentLength > 0 then c.minContentLength else 0, _ => 'x');
    Passage(letters, |letters|, score)
  }

  /** `n` passages of one score, long enough for the evaluator. */
  function Many(c: Config, score: real, n: nat): seq<Passage> {
    if n == 0 then [] else [Long(c, score)] + Many(c, score, n - 1)
  }

  lemma {:induction false} ManyHolds(c: Config, score: real, n: nat)
    ensures |Many(c, score, n)| == n == NonEmpty(c, Many(c, score, n))
    ensures forall i | 0 <= i < n :: Many(c, score, n)[i] == Long(c, score)
  {
    if n > 0 {
      ManyHolds(c, score, n - 1);
      assert Many(c, score, n)[1..] == Many(c, score, n - 1);
    }
  }

  function Copies(x: real, n: nat): seq<real> {
    if n == 0 then [] else [x] + Copies(x, n - 1)
  }

  lemma {:induction false} CopiesHold(x: real, n: nat)
    ensures |Copies(x, n)| == n && Sum(Copies(x, n)) == n as real * x && (n > 0 ==> Max(Copies(x, n)) == x)
  {
    if n > 0 {
      CopiesHold(x, n - 1);
      assert Copies(x, n)[1..] == Copies(x, n - 1);
      OneMore(n - 1, x);
    }
  }

  lemma OneMore(n: nat, x: real)
    ensures (n + 1) as real * x == x + n as real * x
  {
  }

  lemma {:induction false} ManyScored(c: Config, score: real, n: nat)
    ensures Scored(Many(c, score, n)) == if score > 0.0 then Copies(score, n) else []
  {
    if n > 0 {
      ManyScored(c, score, n - 1);
      assert Many(c, score, n)[1..] == Many(c, score, n - 1);
    }
  }

  lemma LiftedMany(c: Config, x: real, y: real, n: nat)
    requires x <= y
    ensures Lifted(Many(c, x, n), Many(c, y, n))
  {
    ManyHolds(c, x, n);
    ManyHolds(c, y, n);
  }

  /** More than each of the two minimum counts, and more than zero. */
  function Enough(c: Config): (n: nat)
    ensures n > 0 && n >= c.minResultsPerQuery && n >= c.minTotalResults
  {
    1 + (if c.minResultsPerQuery > 0 then c.minResultsPerQuery else 0)
      + (if c.minTotalResults > 0 then c.minTotalResults else 0)
  }

  /** With a minimum top score that a query may meet by having none, a first score can be too low. */
  lemma TopSpoils(c: Config) returns (ps: seq<Passage>, qs: seq<Passage>)
    requires c.minTopScore > 0.0 && !c.requireScores
    ensures Lifted(ps, qs) && |ps| >= c.minTotalResults
    ensures EvaluateQuery(c, ps).sufficient && !EvaluateQuery(c, qs).sufficient
  {
    hide Many, Scored, NonEmpty, Max, Sum;
    var n, low := Enough(c), c.minTopScore / 2.0;
    ps, qs := Many(c, 0.0, n), Many(c, low, n);
    LiftedMany(c, 0.0, low, n);
    ManyHolds(c, 0.0, n);
    ManyScored(c, 0.0, n);
    ManyScored(c, low, n);
    CopiesHold(low, n);
  }

  /** Passages of which the first is scored `first` and `n` more `rest`. */
  function Led(c: Config, first: real, rest: real, n: nat): seq<Passage> {
    [Long(c, first)] + Many(c, rest, n)
  }

  lemma LedHolds(c: Config, first: real, rest: real, n: nat)
    requires 0.0 <= rest <= first && first > 0.0
    ensures var ps := Led(c, first, rest, n); var xs := Scored(ps);
      && |ps| == n + 1 == NonEmpty(c, ps) && xs != [] && Max(xs) == first
      && (rest == 0.0 ==> |xs| == 1 && Sum(xs) == first)
      && (rest > 0.0 ==> |xs| == n + 1 && Sum(xs) == first + n as real * rest)
  {
    hide Many;
    var ps, tail := Led(c, first, rest, n), Many(c, rest, n);
    ManyHolds(c, rest, n);
    ManyScored(c, rest, n);
    CopiesHold(rest, n);
    assert ps[1..] == tail;
    var xs := Scored(tail);
    assert Scored(ps) == [first] + xs;
    assert ([first] + xs)[1..] == xs;
  }

  /** So many low scores that the average falls below its minimum. */
  lemma ManyPullDown(first: real, min: real, least: nat) returns (n: nat)
    requires first > 0.0 && min > 0.0
    ensures n >= least && first + n as real * (min / 2.0) < (n + 1) as real * min
  {
    var q := 2.0 * first / min;
    n := q.Floor + 1 + least;
    assert q * min == 2.0 * first;
    assert n as real > q;
    MoreThan(n as real, q, min);
  }

  lemma MoreThan(x: real, y: real, m: real)
    requires x > y && m > 0.0
    ensures x * m > y * m
  {
  }

  /** With a minimum average, raising zeros can pull the average under it, and the top score stays. */
  lemma AverageSpoils(c: Config) returns (ps: seq<Passage>, qs: seq<Passage>)
    requires c.minAvgScore > 0.0
    ensures Lifted(ps, qs) && |ps| >= c.minTotalResults && Scored(ps) != [] && Scored(qs) != []
    ensures EvaluateQuery(c, ps).sufficient && !EvaluateQuery(c, qs).sufficient
    ensures EvaluateQuery(c, ps).top == EvaluateQuery(c, qs).top
  {
    hide Many, Scored, NonEmpty, Max, Sum, Led;
    var first := 1.0 + c.minAvgScore + if c.minTopScore > 0.0 then c.minTopScore else 0.0;
    var low := c.minAvgScore / 2.0;
    var n := ManyPullDown(first, c.minAvgScore, Enough(c));
    ps, qs := Led(c, first, 0.0, n), Led(c, first, low, n);
    LedHolds(c, first, 0.0, n);
    LedHolds(c, first, low, n);
    LedLifted(c, first, low, n);
    Divided(first + n as real * low, (n + 1) as real, c.minAvgScore);
  }

  lemma Divided(a: real, n: real, m: real)
    requires n > 0.0 && a < n * m
    ensures a / n < m
  {
    assert (a / n) * n == a;
  }

  lemma LedLifted(c: Config, first: real, low: real, n: nat)
    requires 0.0 <= low
    ensures Lifted(Led(c, first, 0.0, n), Led(c, first, low, n))
  {
    hide Many;
    ManyHolds(c, 0.0, n);
    ManyHolds(c, low, n);
  }

  // ---------------------------------------------------------------- exactly when

  lemma OneRow(c: Config, ps: seq<Passage>)
    ensures var r := EvaluateRound(c, [ps]);
      && r.queries == [EvaluateQuery(c, ps)] && r.total == |ps|
      && (r.sufficient <==> |ps| >= c.minTotalResults && EvaluateQuery(c, ps).sufficient)
  {
    hide Scored, Max, Sum, NonEmpty;
    var qs := EvaluateQueries(c, [ps]);
    assert qs == [EvaluateQuery(c, ps)] && qs[1..] == [];
    assert TotalCount([]) == 0;
  }

  /** Raising scores, zeros included, never makes a sufficient query insufficient exactly when the configuration is
  tolerant; and the same for rounds. */
  lemma SufficiencyIff(c: Config)
    ensures KeepsQueries(c) <==> Tolerant(c)
    ensures KeepsRounds(c) <==> Tolerant(c)
  {
    hide EvaluateQuery, EvaluateRound, Lifted;
    if Tolerant(c) {
      forall ps, qs | Lifted(ps, qs) && EvaluateQuery(c, ps).sufficient ensures EvaluateQuery(c, qs).sufficient {
        TolerantKeeps(c, ps, qs);
      }
      forall rows, lifted | LiftedRows(rows, lifted) && EvaluateRound(c, rows).sufficient
        ensures EvaluateRound(c, lifted).sufficient
      {
        TolerantRound(c, rows, lifted);
      }
    } else {
      var ps, qs;
      if c.minAvgScore > 0.0 { ps, qs := AverageSpoils(c); } else { ps, qs := TopSpoils(c); }
      OneRow(c, ps);
      OneRow(c, qs);
      assert LiftedRows([ps], [qs]);
      assert |ps| == |qs| by { assert Lifted(ps, qs); SameCount(ps, qs); }
    }
  }

  lemma SameCount(ps: seq<Passage>, qs: seq<Passage>)
    requires Lifted(ps, qs)
    ensures |ps| == |qs|
  {
  }

  lemma TolerantRound(c: Config, rows: seq<seq<Passage>>, lifted: seq<seq<Passage>>)
    requires Tolerant(c) && LiftedRows(rows, lifted) && EvaluateRound(c, rows).sufficient
    ensures EvaluateRound(c, lifted).sufficient
  {
    hide EvaluateQuery, TotalCount, Lifted;
    var a, b := EvaluateQueries(c, rows), EvaluateQueries(c, lifted);
    forall i | 0 <= i < |rows| ensures b[i].sufficient && a[i].count == b[i].count {
      assert a[i] in a;
      TolerantKeeps(c, rows[i], lifted[i]);
      CountsAre(c, rows[i], lifted[i]);
    }
    SameTotal(a, b);
  }

  lemma CountsAre(c: Config, ps: seq<Passage>, qs: seq<Passage>)
    requires Lifted(ps, qs)
    ensures EvaluateQuery(c, ps).count == EvaluateQuery(c, qs).count
  {
    hide Scored, Max, Sum, NonEmpty;
  }

  lemma {:induction false} SameTotal(a: seq<QueryEval>, b: seq<QueryEval>)
    requires |a| == |b| && forall i | 0 <= i < |a| :: a[i].count == b[i].count
    ensures TotalCount(a) == TotalCount(b)
  {
    if a != [] { SameTotal(a[1..], b[1..]); }
  }

  /** Raising scores without giving any query its first positive one never lowers the evidence score exactly when no
  minimum average is set. */
  lemma ScoreIff(c: Config)
    ensures KeepsScores(c) <==> c.minAvgScore <= 0.0
  {
    hide EvaluateQuery, EvaluateRound, Lifted, ToScore, Scored;
    if c.minAvgScore <= 0.0 {
      forall rows, lifted | LiftedRows(rows, lifted) && NoFirstScore(rows, lifted)
        ensures ToScore(EvaluateRound(c, rows)) <= ToScore(EvaluateRound(c, lifted))
      {
        NoFirstKeeps(c, rows, lifted);
      }
    } else {
      var ps, qs := AverageSpoils(c);
      OneRow(c, ps);
      OneRow(c, qs);
      OneQueryFalls(EvaluateRound(c, [ps]), EvaluateRound(c, [qs]));
      assert LiftedRows([ps], [qs]) && NoFirstScore([ps], [qs]);
    }
  }

  lemma NoFirstKeeps(c: Config, rows: seq<seq<Passage>>, lifted: seq<seq<Passage>>)
    requires c.minAvgScore <= 0.0 && LiftedRows(rows, lifted) && NoFirstScore(rows, lifted)
    ensures ToScore(EvaluateRound(c, rows)) <= ToScore(EvaluateRound(c, lifted))
  {
    hide EvaluateQuery, Lifted, ToScore, Scored, Better, TotalCount;
    forall i | 0 <= i < |rows| ensures Better(EvaluateQuery(c, rows[i]), EvaluateQuery(c, lifted[i])) {
      LiftBetter(c, rows[i], lifted[i]);
    }
    BetterRound(EvaluateRound(c, rows), EvaluateRound(c, lifted));
  }

  lemma OneQueryFalls(a: RoundEval, b: RoundEval)
    requires |a.queries| == |b.queries| == 1 && a.queries[0].sufficient && !b.queries[0].sufficient
    requires a.queries[0].top == b.queries[0].top
    ensures ToScore(a) > ToScore(b)
  {
    hide Squash;
    BlendIsScore(a);
    BlendIsScore(b);
    assert a.queries[1..] == [] && b.queries[1..] == [];
    assert Tops(a.queries) == Tops(b.queries);
    assert CountSufficient(a.queries) == 1 && CountSufficient(b.queries) == 0;
  }

  // ---------------------------------------------------------------- a first score

  /** Eight queries that found nothing. */
  function Silent(): seq<seq<Passage>> {
    seq(8, i requires 0 <= i < 8 => [])
  }

  function OneScored(second: real): seq<seq<Passage>> {
    [[Passage("", 0, 1.0)], [Passage("", 0, second)]] + Silent()
  }

  /** Whatever the configuration, a first score can lower the evidence score: it adds a low number to a mean that was
  high, and at most a tenth of the queries becomes sufficient. */
  lemma FirstScoreLowers(c: Config) returns (rows: seq<seq<Passage>>, lifted: seq<seq<Passage>>)
    ensures LiftedRows(rows, lifted)
    ensures |rows| > 1 && |rows[1]| == |lifted[1]| == 1 && rows[1][0].score == 0.0 && lifted[1][0].score > 0.0
    ensures forall i | 0 <= i < |rows| && i != 1 :: rows[i] == lifted[i]
    ensures ToScore(EvaluateRound(c, rows)) > ToScore(EvaluateRound(c, lifted))
  {
    hide EvaluateQuery, EvaluateRound, EvaluateQueries, ToScore, Tops, CountSufficient, Mean, Squash, Blend;
    rows, lifted := OneScored(0.0), OneScored(1.0 / 3.0);
    var a, b := EvaluateRound(c, rows), EvaluateRound(c, lifted);
    var rest := EvaluateQueries(c, Silent());
    SplitsAs(c, 0.0);
    SplitsAs(c, 1.0 / 3.0);
    TopOf(c, 1.0);
    TopOf(c, 0.0);
    TopOf(c, 1.0 / 3.0);
    SilentTops(c, Silent());
    BlendIsScore(a);
    BlendIsScore(b);
    TwoMore(a.queries, rest);
    TwoMore(b.queries, rest);
    Falls(a.queries, b.queries);
  }

  lemma Falls(a: seq<QueryEval>, b: seq<QueryEval>)
    requires |a| == |b| == 10 && CountSufficient(b) <= CountSufficient(a) + 1
    requires Tops(a) == [Squash(1.0)] && Tops(b) == [Squash(1.0), Squash(1.0 / 3.0)]
    ensures Blend(a) > Blend(b)
  {
    hide CountSufficient, Tops, Mean, Squash;
    OneOver();
  }

  lemma SplitsAs(c: Config, x: real)
    ensures var one, second := EvaluateQuery(c, [Passage("", 0, 1.0)]), EvaluateQuery(c, [Passage("", 0, x)]);
      EvaluateRound(c, OneScored(x)).queries == [one, second] + EvaluateQueries(c, Silent())
    ensures |EvaluateQueries(c, Silent())| == 8
  {
    hide EvaluateQuery, TotalCount;
  }

  lemma TopOf(c: Config, x: real)
    ensures EvaluateQuery(c, [Passage("", 0, x)]).top == if x > 0.0 then Some(x) else None
  {
    hide NonEmpty, Sum;
    var ps := [Passage("", 0, x)];
    assert ps[1..] == [] && Scored([]) == [];
    assert Scored(ps) == if x > 0.0 then [x] else [];
  }

  lemma {:induction false} SilentTops(c: Config, rows: seq<seq<Passage>>)
    requires forall i | 0 <= i < |rows| :: rows[i] == []
    ensures Tops(EvaluateQueries(c, rows)) == []
  {
    hide Max, Sum, NonEmpty;
    if rows != [] {
      SilentTops(c, rows[1..]);
      assert EvaluateQueries(c, rows)[1..] == EvaluateQueries(c, rows[1..]);
    }
  }

  lemma TwoMore(qs: seq<QueryEval>, rest: seq<QueryEval>)
    requires |qs| == 2 + |rest| && qs == [qs[0], qs[1]] + rest && Tops(rest) == []
    ensures CountSufficient(qs)
         == (if qs[0].sufficient then 1 else 0) + (if qs[1].sufficient then 1 else 0) + CountSufficient(rest)
    ensures Tops(qs) == (if qs[0].top.Some? then [Squash(qs[0].top.value)] else [])
                      + if qs[1].top.Some? then [Squash(qs[1].top.value)] else []
  {
    hide Squash;
    assert qs[1..] == [qs[1]] + rest && qs[1..][1..] == rest;
  }

  lemma OneOver()
    ensures Mean([Squash(1.0)]) == 0.5 && Mean([Squash(1.0), Squash(1.0 / 3.0)]) == 0.375
  {
    var xs := [Squash(1.0), Squash(1.0 / 3.0)];
    assert Squash(1.0) == 0.5 && Squash(1.0 / 3.0) == 0.25;
    assert xs[1..] == [0.25] && [0.25][1..] == [] && [0.5][1..] == [];
    assert Sum([0.25]) == 0.25;
  }

  /** The thresholds that a search runs with unless it sets its own. */
  const DEFAULTS := Evidence.Config(1, 2, 0.0, 0.0, 10, false)

  /** With those, for instance: two results scored one and zero give 0.75, scored one and a quarter 0.675. */
  lemma DefaultsCanFall()
    ensures var rows := x => [[Long(DEFAULTS, 1.0)], [Long(DEFAULTS, x)]];
      && ToScore(EvaluateRound(DEFAULTS, rows(0.0))) == 0.75
      && ToScore(EvaluateRound(DEFAULTS, rows(0.25))) == 0.675
  {
    hide EvaluateQuery, ToScore;
    TwoQueries(0.0);
    TwoQueries(0.25);
    var one, quarter := Squash(1.0), Squash(0.25);
    assert one == 0.5 && quarter == 0.2;
    MeanOfTwo(one, quarter);
  }

  lemma MeanOfTwo(x: real, y: real)
    ensures Mean([x]) == x && Mean([x, y]) == (x + y) / 2.0
  {
    assert [x, y][1..] == [y] && [y][1..] == [] && [x][1..] == [] && Sum([]) == 0.0;
    assert Sum([y]) == y && Sum([x]) == x && Sum([x, y]) == x + y;
  }

  lemma TwoQueries(x: real)
    requires x >= 0.0
    ensures var r := EvaluateRound(DEFAULTS, [[Long(DEFAULTS, 1.0)], [Long(DEFAULTS, x)]]);
      ToScore(r) == 0.5 + 0.5 * Mean(if x > 0.0 then [Squash(1.0), Squash(x)] else [Squash(1.0)])
  {
    hide EvaluateQuery, TotalCount, Squash, Mean;
    var r := EvaluateRound(DEFAULTS, [[Long(DEFAULTS, 1.0)], [Long(DEFAULTS, x)]]);
    LongSuffices(1.0);
    LongSuffices(x);
    assert r.queries == [r.queries[0], r.queries[1]] + [];
    TwoMore(r.queries, []);
    assert CountSufficient([]) == 0 && CountSufficient(r.queries) == 2 && Tops([]) == [];
    assert Tops(r.queries) == if x > 0.0 then [Squash(1.0), Squash(x)] else [Squash(1.0)];
    BlendIsScore(r);
  }

  lemma LongSuffices(x: real)
    requires x >= 0.0
    ensures var q := EvaluateQuery(DEFAULTS, [Long(DEFAULTS, x)]);
      q.sufficient && q.top == if x > 0.0 then Some(x) else None
  {
    var ps := [Long(DEFAULTS, x)];
    assert ps[1..] == [] && Scored([]) == [] && NonEmpty(DEFAULTS, []) == 0;
    assert Scored(ps) == if x > 0.0 then [x] else [];
    assert [x][1..] == [] && Sum([x]) == x && Max([x]) == x;
  }
}
