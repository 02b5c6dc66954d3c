/** The counters and the history of a search run, as functions of its rounds and its batches, in every run. */
module SearchRecords {
  import opened Text
  import opened Evidence
  import opened LoopControl
  import opened Citations
  import opened SearchRun
  import opened SearchInvariants
  import opened SearchTurns

  function EvalOf(c: LoopControl.Config, round: seq<SearchContext>): RoundEval {
    EvaluateRound(c.evaluation, RowsOf(round))
  }

  /** The score of the last round. */
  function ScoreAfter(c: LoopControl.Config, rounds: Rounds): real {
    if rounds == [] then 0.0 else ToScore(EvalOf(c, rounds[|rounds| - 1]))
  }

  /** All that the score ever rose, from one round to the next. */
  function Rises(c: LoopControl.Config, rounds: Rounds): real {
    if rounds == [] then 0.0
    else
      var before := rounds[..|rounds| - 1];
      Rises(c, before) + if ScoreAfter(c, rounds) >= ScoreAfter(c, before)
                         then ScoreAfter(c, rounds) - ScoreAfter(c, before) else 0.0
  }

  /** The shares of sufficient queries, summed over the rounds. */
  function Shares(c: LoopControl.Config, rounds: Rounds): real {
    if rounds == [] then 0.0
    else
      var qs := EvalOf(c, rounds[|rounds| - 1]).queries;
      Shares(c, rounds[..|rounds| - 1]) + if qs == [] then 0.0 else Fraction(qs)
  }

  function SufficientRounds(c: LoopControl.Config, rounds: Rounds): nat {
    if rounds == [] then 0
    else
      SufficientRounds(c, rounds[..|rounds| - 1]) + if EvalOf(c, rounds[|rounds| - 1]).sufficient then 1 else 0
  }

  ghost predicate Exact(c: LoopControl.Config, r: Run) {
    var m := r.metrics;
    && r.score == m.scoreFinal == ScoreAfter(c, r.rounds)
    && m.gainTotal == Rises(c, r.rounds) && m.qualitySum == Shares(c, r.rounds)
    && m.sufficientRounds == SufficientRounds(c, r.rounds)
    && m.searchQueries == |Flatten(r.executed)| && r.previous == WithQueries([], Flatten(r.executed))
    && (r.eval.Some? ==> r.rounds != [] && r.eval.value == EvalOf(c, r.rounds[|r.rounds| - 1]))
  }

  /** Nothing of this changed. */
  predicate SameRecord(r: Run, r': Run) {
    && r'.rounds == r.rounds && r'.score == r.score && r'.executed == r.executed && r'.previous == r.previous
    && r'.eval == r.eval && r'.metrics.scoreFinal == r.metrics.scoreFinal
    && r'.metrics.gainTotal == r.metrics.gainTotal && r'.metrics.qualitySum == r.metrics.qualitySum
    && r'.metrics.sufficientRounds == r.metrics.sufficientRounds && r'.metrics.searchQueries == r.metrics.searchQueries
  }

  lemma SameIsExact(c: LoopControl.Config, r: Run, r': Run)
    requires Exact(c, r) && SameRecord(r, r')
    ensures Exact(c, r')
  {
    hide ScoreAfter, Rises, Shares, SufficientRounds, EvalOf, WithQueries;
  }

  lemma {:induction false} WithQueriesConcat(previous: seq<string>, a: seq<string>, b: seq<string>)
    ensures WithQueries(previous, a + b) == WithQueries(WithQueries(previous, a), b)
    decreases |b|
  {
    if b == [] {
      assert a + b == a;
    } else {
      assert (a + b)[..|a + b| - 1] == a + b[..|b| - 1];
      WithQueriesConcat(previous, a, b[..|b| - 1]);
    }
  }

  lemma BatchAdded(batches: seq<seq<string>>, batch: seq<string>)
    ensures Flatten(batches + [batch]) == Flatten(batches) + batch
  {
    assert (batches + [batch])[..|batches|] == batches;
  }

  lemma RoundAdded(c: LoopControl.Config, rounds: Rounds, round: seq<SearchContext>)
    ensures var later, eval := rounds + [round], EvalOf(c, round);
      && ScoreAfter(c, later) == ToScore(eval)
      && Rises(c, later) == Rises(c, rounds)
           + (if ToScore(eval) >= ScoreAfter(c, rounds) then ToScore(eval) - ScoreAfter(c, rounds) else 0.0)
      && Shares(c, later) == Shares(c, rounds) + (if eval.queries == [] then 0.0 else Fraction(eval.queries))
      && SufficientRounds(c, later) == SufficientRounds(c, rounds) + if eval.sufficient then 1 else 0
  {
    hide ToScore, EvalOf, Fraction;
    assert (rounds + [round])[..|rounds|] == rounds;
  }

  lemma ExecuteExact(c: LoopControl.Config, r: Run, t: Turn, allowed: seq<Spec>)
    requires Exact(c, r)
    ensures Exact(c, ExecuteRound(c, r, t, allowed))
  {
    hide TaskVerdicts, EvaluateRound, ToScore, Reranks, Rows, NothingFound, Contexts, RowsOf, WithQueries, Flatten,
         ScoreAfter, Rises, Shares, SufficientRounds, Fraction, Clamp, Searched;
    var queries := QueriesOf(allowed);
    SpecLengths(allowed);
    BatchAdded(r.executed, queries);
    WithQueriesConcat([], Flatten(r.executed), queries);
    var rows := Rows(t, |allowed|, Reranks(c, t, |allowed|));
    if !NothingFound(rows) {
      var round := Contexts(queries, rows, TasksOf(allowed));
      ScoreClamped(EvaluateRound(c.evaluation, RowsOf(round)));
      RoundAdded(c, r.rounds, round);
    }
  }

  lemma StageExact(c: LoopControl.Config, r: Run, t: Turn, allowed: seq<Spec>)
    requires Exact(c, r)
    ensures Exact(c, SearchStage(c, r, t, allowed))
  {
    hide Exact, ExecuteRound, ShouldContinue, Sufficient, LastLabels;
    var r0 := r.(rejections := 0);
    SameIsExact(c, r, r0);
    ExecuteExact(c, r0, t, allowed);
    SameIsExact(c, ExecuteRound(c, r0, t, allowed), SearchStage(c, r, t, allowed));
  }

  lemma ActExact(c: LoopControl.Config, r: Run, t: Turn, a: Actions)
    requires Exact(c, r)
    ensures Exact(c, Act(c, r, t, a))
  {
    hide Exact, Act, Gate, SearchStage, Prepared, Requests, SameRecord;
    var r1 := Prepared(r, a);
    var p := Requests(c, r1, a.specs);
    var r2 := r1.(metrics := CountRefused(r1.metrics, p));
    ActUnfolds(c, r, t, a);
    PreparedRecord(r, a);
    SameIsExact(c, r, r1);
    GateRecord(c, r1);
    SameIsExact(c, r1, Gate(c, r1));
    RefusedRecord(r1, p);
    SameIsExact(c, r1, r2);
    StageExact(c, r2, t, p.allowed);
  }

  lemma PreparedRecord(r: Run, a: Actions)
    ensures SameRecord(r, Prepared(r, a))
  {
  }

  lemma GateRecord(c: LoopControl.Config, r: Run)
    ensures SameRecord(r, Gate(c, r))
  {
    hide Sufficient, AnswersDirectly;
  }

  lemma RefusedRecord(r: Run, p: Split)
    ensures SameRecord(r, r.(metrics := CountRefused(r.metrics, p)))
  {
  }

  lemma NoActionRecord(c: LoopControl.Config, r: Run, forced: Option<string>)
    ensures SameRecord(r, HandleNoAction(c, r, forced))
  {
    hide Sufficient;
  }

  lemma TurnExact(c: LoopControl.Config, r: Run, t: Turn)
    requires Exact(c, r)
    ensures Exact(c, TakeTurn(c, r, t))
  {
    hide Exact, Act, HandleNoAction, SameRecord;
    var r1 := r.(turns := r.turns + 1);
    var r2 := r1.(formatErrors := 0);
    CountersRecord(r);
    SameIsExact(c, r, r1);
    SameIsExact(c, r, r2);
    if t.actions.Some? { ActExact(c, r2, t, t.actions.value); }
    ActExact(c, r2, t, Actions([], {}, c.questionSpecs, false, []));
    NoActionRecord(c, r1, t.forced);
    SameIsExact(c, r1, HandleNoAction(c, r1, t.forced));
  }

  lemma CountersRecord(r: Run)
    ensures SameRecord(r, r.(turns := r.turns + 1)) && SameRecord(r, r.(turns := r.turns + 1).(formatErrors := 0))
  {
  }

  lemma {:induction false} LoopExact(c: LoopControl.Config, r: Run, turns: seq<Turn>)
    requires Exact(c, r)
    ensures Exact(c, Loop(c, r, turns))
    decreases |turns|
  {
    hide Exact, TakeTurn;
    if turns != [] && r.exit == Running {
      TurnExact(c, r, turns[0]);
      LoopExact(c, TakeTurn(c, r, turns[0]), turns[1..]);
    }
  }

  /** At the end of any run the score is that of the last round that found something, the gain is all that it ever rose,
  the quality is the mean share of sufficient queries, over all rounds; the queries are counted with repetitions, and
  remembered without. */
  lemma RecordsAreExact(c: LoopControl.Config, turns: seq<Turn>, forced: Option<string>)
    ensures var end := Finish(c, Loop(c, START, turns), forced);
      && Exact(c, end) && Quality(end) * end.searchRounds as real == Shares(c, end.rounds)
  {
    hide Exact, Loop, SameRecord, Finish, Quality, Ledger;
    NothingRecorded(c);
    LoopExact(c, START, turns);
    var r := Loop(c, START, turns);
    var end := Finish(c, r, forced);
    FinishRecord(c, r, forced);
    SameIsExact(c, r, end);
    FinishedLedger(c, turns, forced);
    QualityIs(c, end);
  }

  lemma FinishedLedger(c: LoopControl.Config, turns: seq<Turn>, forced: Option<string>)
    ensures Ledger(Finish(c, Loop(c, START, turns), forced))
  {
    hide Loop, Finish, Ledger, Budget, History, Resolves, Justified, Quality;
    FinishedRun(c, turns, forced);
  }

  lemma NothingRecorded(c: LoopControl.Config)
    ensures Exact(c, START)
  {
  }

  lemma FinishRecord(c: LoopControl.Config, r: Run, forced: Option<string>)
    ensures SameRecord(r, Finish(c, r, forced))
  {
  }

  lemma QualityIs(c: LoopControl.Config, r: Run)
    requires Exact(c, r) && Ledger(r)
    ensures Quality(r) * r.searchRounds as real == Shares(c, r.rounds)
  {
    hide Rises, SufficientRounds, EvalOf, WithQueries, Flatten, ScoreAfter;
  }

  /** The total gain is the score itself exactly when no round ever lowered it. */
  lemma {:induction false} GainIsScoreIff(c: LoopControl.Config, rounds: Rounds)
    ensures Rises(c, rounds) >= ScoreAfter(c, rounds) >= 0.0
    ensures Rises(c, rounds) == ScoreAfter(c, rounds) <==>
      forall i | 0 < i < |rounds| :: ToScore(EvalOf(c, rounds[i - 1])) <= ToScore(EvalOf(c, rounds[i]))
  {
    hide ToScore, EvalOf;
    if rounds != [] {
      var n := |rounds| - 1;
      var before := rounds[..n];
      GainIsScoreIff(c, before);
      assert forall i | 0 <= i < n :: before[i] == rounds[i];
    }
  }

  // ---------------------------------------------------------------- the forced answer

  /** Whoever is asked to answer does. */
  ghost predicate AllAnswer(turns: seq<Turn>) {
    forall t | t in turns :: t.forced.Some?
  }

  predicate ForcedAnswers(r: Run) {
    r.forceTried ==> r.answer.Some? || r.rounds == []
  }

  lemma TurnForced(c: LoopControl.Config, r: Run, t: Turn)
    requires r.exit == Running && !r.forceTried && t.forced.Some?
    ensures var r' := TakeTurn(c, r, t); ForcedAnswers(r') && (r'.exit == Running ==> !r'.forceTried)
  {
    hide TakeTurn, ForcedAnswers;
    if t.actions.Some? {
      ActionsForced(c, r, t);
    } else if c.autoSearchOnDeadend && r.searchRounds == 0 && c.questionSpecs != []
              && r.formatErrors + 1 >= c.maxFormatErrors {
      QuestionTurn(c, r, t);
      ActionsForced(c, r, t.(actions := Some(Actions([], {}, c.questionSpecs, false, []))));
    } else {
      SilentForced(c, r, t);
    }
  }

  lemma ActionsForced(c: LoopControl.Config, r: Run, t: Turn)
    requires r.exit == Running && !r.forceTried && t.actions.Some?
    ensures var r' := TakeTurn(c, r, t); ForcedAnswers(r') && !r'.forceTried
  {
    hide TakeTurn, Barred, OnlyAnswers, Passes, Searched, Shown, SearchCounted, RefusalsCounted, KnownAfter,
         LastDecision;
    if !Barred(c, r, t.actions.value) {
      SearchTurn(c, r, t);
    } else if OnlyAnswers(c, r, t) {
      AnswerTurn(c, r, t);
    } else {
      IdleTurn(c, r, t);
    }
  }

  lemma SilentForced(c: LoopControl.Config, r: Run, t: Turn)
    requires r.exit == Running && !r.forceTried && t.forced.Some? && t.actions == None
    requires !c.autoSearchOnDeadend || r.searchRounds > 0 || c.questionSpecs == []
             || r.formatErrors + 1 < c.maxFormatErrors
    ensures var r' := TakeTurn(c, r, t); ForcedAnswers(r') && (r'.exit == Running ==> !r'.forceTried)
  {
    hide TakeTurn, SilentExit;
    SilentTurn(c, r, t);
  }

  lemma {:induction false} LoopForced(c: LoopControl.Config, r: Run, turns: seq<Turn>)
    requires AllAnswer(turns) && ForcedAnswers(r) && (r.exit == Running ==> !r.forceTried)
    ensures ForcedAnswers(Loop(c, r, turns))
    decreases |turns|
  {
    hide TakeTurn, ForcedAnswers;
    if turns != [] && r.exit == Running {
      TurnForced(c, r, turns[0]);
      LoopForced(c, TakeTurn(c, r, turns[0]), turns[1..]);
    }
  }

  /** A run that is configured to force an answer, and whose forced generation gives one, ends with an answer unless it
  never found anything; and one that is not so configured keeps the answer of its loop. */
  lemma EvidenceIsAnswered(c: LoopControl.Config, turns: seq<Turn>, forced: Option<string>)
    ensures var r, end := Loop(c, START, turns), Finish(c, Loop(c, START, turns), forced);
      && (c.forceOnDeadend && AllAnswer(turns) && forced.Some? && r.rounds != [] ==> end.answer.Some?)
      && (!c.forceOnDeadend || r.answer.Some? || r.rounds == [] ==> end == r)
      && (c.forceOnDeadend && r.answer.None? && r.rounds != [] && !r.forceTried ==>
            end.answer == forced && end.turns == r.turns + 1)
  {
    hide Loop;
    if AllAnswer(turns) { LoopForced(c, START, turns); }
  }
}
