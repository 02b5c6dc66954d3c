/** What every reachable state of a search run keeps. */
module SearchInvariants {
  import opened Text
  import opened Evidence
  import opened LoopControl
  import opened Citations
  import opened SearchRun

  /** With a positive base, rounds stay within the limit for the subquestions now known. */
  predicate Budget(c: LoopControl.Config, r: Run) {
    Base(c) > 0 ==> r.searchRounds <= EffectiveLimit(c, |r.tasks|)
  }

  /** One batch of queries per round, all remembered, and no query of one round repeats one of another. */
  ghost predicate History(c: LoopControl.Config, r: Run) {
    && |r.executed| == r.searchRounds
    && (forall i, q | 0 <= i < |r.executed| && q in r.executed[i] :: q in r.previous)
    && (forall i, j, a, b | 0 <= i < j < |r.executed| && a in r.executed[i] && b in r.executed[j] ::
          c.norm(a) != c.norm(b))
  }

  /** Why an answer may end the run. */
  predicate Justified(c: LoopControl.Config, r: Run) {
    || Sufficient(r)
    || !c.requireSufficient
    || AnswersDirectly(c, r)
    || r.rejections == MaxInt(0, c.maxAnswerRejections)
  }

  predicate Gated(c: LoopControl.Config, r: Run) {
    && r.rejections <= MaxInt(0, c.maxAnswerRejections)
    && (r.exit == Running ==> r.formatErrors < MaxInt(1, c.maxFormatErrors))
    && (r.exit == Answered ==> Justified(c, r))
  }

  /** After `n` turns, one more generation than turns only if an answer was forced. */
  predicate Counted(r: Run, n: nat) {
    && r.turns <= n + (if r.forceTried then 1 else 0)
    && (r.exit == Running ==> !r.forceTried)
  }

  /** Conservation of the counters and of the evidence gain. */
  predicate Ledger(r: Run) {
    var m := r.metrics;
    && m.web + m.vdb == r.searchRounds == m.sufficientRounds + m.insufficientRounds
    && m.rerankRequested == m.rerankCalls + m.rerankSkipped
    && m.scoreFinal == r.score && 0.0 <= r.score <= 1.0
    && r.score <= m.gainTotal <= r.searchRounds as real
    && 0.0 <= m.qualitySum <= r.searchRounds as real
    && |r.rounds| <= r.searchRounds
  }

  /** Every label ever shown still names the passage it was shown at. */
  ghost predicate Resolves(r: Run) {
    forall s | s in r.shown :: InRange(r.rounds, s.0) && Resolve(r.rounds, s.0) == s.1
  }

  ghost predicate Inv(c: LoopControl.Config, r: Run, n: nat) {
    Budget(c, r) && History(c, r) && Gated(c, r) && Counted(r, n) && Ledger(r) && Resolves(r)
  }

  // ---------------------------------------------------------------- a search round

  lemma ExecuteFrame(c: LoopControl.Config, r: Run, t: Turn, allowed: seq<Spec>)
    ensures var r' := ExecuteRound(c, r, t, allowed);
      && r'.previous == WithQueries(r.previous, QueriesOf(allowed)) && r'.searchRounds == r.searchRounds + 1
      && r'.executed == r.executed + [QueriesOf(allowed)] && r'.tasks == r.tasks && r'.decision == r.decision
      && r'.rejections == r.rejections && r'.formatErrors == r.formatErrors && r'.turns == r.turns
      && r'.answer == r.answer && r'.forceTried == r.forceTried && r'.exit == r.exit && r'.shown == r.shown
      && r.rounds <= r'.rounds && |r'.rounds| <= |r.rounds| + 1
  {
    hide CountSearch, CountEvidence, TaskVerdicts, EvaluateRound, ToScore, Reranks, Rows;
  }

  lemma StageFrame(c: LoopControl.Config, r: Run, t: Turn, allowed: seq<Spec>)
    ensures var r' := SearchStage(c, r, t, allowed);
      && r'.previous == WithQueries(r.previous, QueriesOf(allowed)) && r'.searchRounds == r.searchRounds + 1
      && r'.executed == r.executed + [QueriesOf(allowed)] && r'.tasks == r.tasks
      && r'.rejections == 0 && r'.formatErrors == r.formatErrors && r'.turns == r.turns
      && r'.forceTried == r.forceTried && r'.exit == r.exit
  {
    hide ExecuteRound, ShouldContinue, Sufficient, LastLabels;
    ExecuteFrame(c, r.(rejections := 0), t, allowed);
  }

  lemma StageHistory(c: LoopControl.Config, r: Run, t: Turn, allowed: seq<Spec>)
    requires History(c, r) && forall s | s in allowed :: c.norm(s.1) !in Norms(c, r.previous)
    ensures History(c, SearchStage(c, r, t, allowed))
  {
    hide SearchStage;
    StageFrame(c, r, t, allowed);
    var queries := QueriesOf(allowed);
    WithQueriesHolds(r.previous, queries);
    forall a, b | a in r.previous && b in queries ensures c.norm(a) != c.norm(b) {
      var i :| 0 <= i < |queries| && queries[i] == b;
      assert allowed[i] in allowed;
      assert c.norm(a) in Norms(c, r.previous);
    }
  }

  /** One round moves the counters by one on each side, and the evidence sums by at most one. */
  lemma EvidenceLedger(m: Metrics, eval: RoundEval, score: real, rounds: nat)
    requires 0.0 <= score <= 1.0 && 0.0 <= m.scoreFinal <= 1.0
    requires m.scoreFinal <= m.gainTotal <= rounds as real && 0.0 <= m.qualitySum <= rounds as real
    requires m.sufficientRounds + m.insufficientRounds == rounds
    ensures var m' := CountEvidence(m, eval, score);
      && m'.web == m.web && m'.vdb == m.vdb && m'.rerankRequested == m.rerankRequested
      && m'.rerankCalls == m.rerankCalls && m'.rerankSkipped == m.rerankSkipped
      && m'.sufficientRounds + m'.insufficientRounds == rounds + 1
      && m'.scoreFinal == score <= m'.gainTotal <= (rounds + 1) as real
      && 0.0 <= m'.qualitySum <= (rounds + 1) as real
  {
    hide Fraction;
    if eval.queries != [] { BlendIsScore(eval); }
  }

  lemma ExecuteLedger(c: LoopControl.Config, r: Run, t: Turn, allowed: seq<Spec>)
    requires Ledger(r)
    ensures Ledger(ExecuteRound(c, r, t, allowed))
  {
    hide CountEvidence, TaskVerdicts, EvaluateRound, ToScore, Clamp, Rows, NothingFound, RowsOf, Contexts;
    var m := CountSearch(c, r.metrics, t, |allowed|);
    var rows := Rows(t, |allowed|, Reranks(c, t, |allowed|));
    if !NothingFound(rows) {
      var eval := EvaluateRound(c.evaluation, RowsOf(Contexts(QueriesOf(allowed), rows, TasksOf(allowed))));
      EvidenceLedger(m, eval, Clamp(ToScore(eval)), r.searchRounds);
    }
  }

  lemma LabelsResolve(rounds: Rounds)
    ensures forall s | s in LastLabels(rounds) :: InRange(rounds, s.0) && Resolve(rounds, s.0) == s.1
  {
  }

  lemma StageResolves(c: LoopControl.Config, r: Run, t: Turn, allowed: seq<Spec>)
    requires Resolves(r)
    ensures Resolves(SearchStage(c, r, t, allowed))
  {
    hide ExecuteRound, ShouldContinue, Sufficient, LastLabels, InRange, Resolve;
    ExecuteFrame(c, r.(rejections := 0), t, allowed);
    var later := ExecuteRound(c, r.(rejections := 0), t, allowed).rounds;
    forall s | s in r.shown ensures InRange(later, s.0) && Resolve(later, s.0) == s.1 {
      LabelsAreStable(r.rounds, later, s.0);
    }
    LabelsResolve(later);
  }

  lemma StageLedger(c: LoopControl.Config, r: Run, t: Turn, allowed: seq<Spec>)
    requires Ledger(r)
    ensures Ledger(SearchStage(c, r, t, allowed))
  {
    hide ExecuteRound, ShouldContinue, Sufficient, LastLabels;
    ExecuteLedger(c, r.(rejections := 0), t, allowed);
  }

  // ---------------------------------------------------------------- a turn

  lemma MoreTasks(c: LoopControl.Config, a: set<string>, b: set<string>)
    requires a <= b
    ensures EffectiveLimit(c, |a|) <= EffectiveLimit(c, |b|)
  {
    hide EffectiveLimit;
    assert b == a + (b - a);
    LimitGrows(c, |a|, |b|);
  }

  /** What the machine has after the declarations of a turn and before it acts on them. */
  function Prepared(r: Run, a: Actions): Run {
    var r := Implicit(Declare(r, a), a.specs);
    if a.answers == [] then r else r.(answer := Some(a.answers[0]))
  }

  lemma PreparedFrame(r: Run, a: Actions)
    ensures var r' := Prepared(r, a);
      && r.tasks <= r'.tasks && r'.previous == r.previous && r'.searchRounds == r.searchRounds && r'.score == r.score
      && r'.rounds == r.rounds && r'.rejections == r.rejections && r'.formatErrors == r.formatErrors
      && r'.turns == r.turns
      && r'.forceTried == r.forceTried && r'.exit == r.exit && r'.metrics == r.metrics && r'.executed == r.executed
      && r'.shown == r.shown
  {
  }

  /** The parts of the invariant that declarations do not touch. */
  lemma PreparedKeeps(c: LoopControl.Config, r: Run, a: Actions, n: nat)
    requires Inv(c, r, n) && r.exit == Running
    ensures Inv(c, Prepared(r, a), n) && Prepared(r, a).exit == Running && r.tasks <= Prepared(r, a).tasks
  {
    hide Prepared, EffectiveLimit, Justified, InRange, Resolve;
    PreparedFrame(r, a);
    MoreTasks(c, r.tasks, Prepared(r, a).tasks);
  }

  lemma GateKeeps(c: LoopControl.Config, r: Run, n: nat)
    requires Inv(c, r, n) && r.exit == Running
    ensures Inv(c, Gate(c, r), n)
  {
    hide EffectiveLimit, InRange, Resolve, History;
    assert History(c, Gate(c, r)) by { SameHistory(c, r, Gate(c, r)); }
  }

  lemma SameHistory(c: LoopControl.Config, r: Run, r': Run)
    requires History(c, r)
    requires r'.executed == r.executed && r'.searchRounds == r.searchRounds && r'.previous == r.previous
    ensures History(c, r')
  {
  }

  lemma StageKeeps(c: LoopControl.Config, r: Run, t: Turn, allowed: seq<Spec>, n: nat)
    requires Inv(c, r, n) && r.exit == Running
    requires Base(c) > 0 ==> r.searchRounds < EffectiveLimit(c, |r.tasks|)
    requires forall s | s in allowed :: c.norm(s.1) !in Norms(c, r.previous)
    ensures Inv(c, SearchStage(c, r, t, allowed), n)
  {
    hide SearchStage, History, Ledger, Resolves, EffectiveLimit, Norms;
    StageFrame(c, r, t, allowed);
    StageHistory(c, r, t, allowed);
    StageLedger(c, r, t, allowed);
    StageResolves(c, r, t, allowed);
  }

  lemma RefusedKeeps(c: LoopControl.Config, r: Run, n: nat, p: Split)
    requires Inv(c, r, n)
    ensures Inv(c, r.(metrics := CountRefused(r.metrics, p)), n)
  {
    hide EffectiveLimit, InRange, Resolve;
    SameHistory(c, r, r.(metrics := CountRefused(r.metrics, p)));
  }

  /** A request is allowed only below the limit, if the limit is positive, and only if it is new. */
  lemma AllowedMeans(c: LoopControl.Config, r: Run, specs: seq<Spec>)
    requires Requests(c, r, specs).allowed != []
    ensures Base(c) > 0 ==> r.searchRounds < EffectiveLimit(c, |r.tasks|)
    ensures forall s | s in Requests(c, r, specs).allowed :: c.norm(s.1) !in Norms(c, r.previous)
  {
    hide Partition, EffectiveLimit, Norms, Base;
    PartitionClassifies(c, specs, r.previous, AtLimit(r.searchRounds, EffectiveLimit(c, |r.tasks|)));
    LimitGrows(c, 0, |r.tasks|);
  }

  lemma ActUnfolds(c: LoopControl.Config, r: Run, t: Turn, a: Actions)
    ensures var r1 := Prepared(r, a); var p := Requests(c, r1, a.specs);
      Act(c, r, t, a) ==
        if a.answers != [] && p.allowed == [] && !a.fetches then Gate(c, r1)
        else
          var r2 := r1.(metrics := CountRefused(r1.metrics, p));
          if p.allowed == [] then r2 else SearchStage(c, r2, t, p.allowed)
  {
    hide Gate, SearchStage, Partition, Declare, Implicit;
  }

  lemma ActKeeps(c: LoopControl.Config, r: Run, t: Turn, a: Actions, n: nat)
    requires Inv(c, r, n) && r.exit == Running
    ensures Inv(c, Act(c, r, t, a), n)
  {
    hide Act, Inv, Gate, SearchStage, Prepared, Requests, Base, EffectiveLimit, Norms;
    var r1 := Prepared(r, a);
    var p := Requests(c, r1, a.specs);
    ActUnfolds(c, r, t, a);
    PreparedKeeps(c, r, a, n);
    GateKeeps(c, r1, n);
    RefusedKeeps(c, r1, n, p);
    if p.allowed != [] {
      AllowedMeans(c, r1, a.specs);
      StageKeeps(c, r1.(metrics := CountRefused(r1.metrics, p)), t, p.allowed, n);
    }
  }

  lemma NoActionKeeps(c: LoopControl.Config, r: Run, forced: Option<string>, n: nat)
    requires Inv(c, r, n) && r.exit == Running
    ensures Inv(c, HandleNoAction(c, r, forced), n)
  {
    hide EffectiveLimit, InRange, Resolve, Sufficient, History;
    SameHistory(c, r, HandleNoAction(c, r, forced));
  }

  /** Resetting or advancing the turn counters. */
  lemma CountKeeps(c: LoopControl.Config, r: Run, n: nat)
    requires Inv(c, r, n) && r.exit == Running
    ensures Inv(c, r.(turns := r.turns + 1), n + 1)
    ensures Inv(c, r.(turns := r.turns + 1, formatErrors := 0), n + 1)
  {
    hide EffectiveLimit, InRange, Resolve, Sufficient, History;
    SameHistory(c, r, r.(turns := r.turns + 1));
    SameHistory(c, r, r.(turns := r.turns + 1, formatErrors := 0));
  }

  lemma TurnKeeps(c: LoopControl.Config, r: Run, t: Turn, n: nat)
    requires Inv(c, r, n) && r.exit == Running
    ensures Inv(c, TakeTurn(c, r, t), n + 1)
  {
    hide Inv, Act, HandleNoAction;
    CountKeeps(c, r, n);
    var r1 := r.(turns := r.turns + 1);
    var r2 := r.(turns := r.turns + 1, formatErrors := 0);
    assert r1.(formatErrors := 0) == r2;
    if t.actions.Some? { ActKeeps(c, r2, t, t.actions.value, n + 1); }
    ActKeeps(c, r2, t, Actions([], {}, c.questionSpecs, false, []), n + 1);
    NoActionKeeps(c, r1, t.forced, n + 1);
  }

  // ---------------------------------------------------------------- runs

  lemma {:induction false} LoopKeeps(c: LoopControl.Config, r: Run, turns: seq<Turn>, n: nat)
    requires Inv(c, r, n)
    ensures Inv(c, Loop(c, r, turns), n + |turns|)
    decreases |turns|
  {
    hide Inv, TakeTurn;
    if turns != [] && r.exit == Running {
      TurnKeeps(c, r, turns[0], n);
      LoopKeeps(c, TakeTurn(c, r, turns[0]), turns[1..], n + 1);
    } else {
      LongerKeeps(c, r, n, n + |turns|);
    }
  }

  lemma LongerKeeps(c: LoopControl.Config, r: Run, m: nat, n: nat)
    requires Inv(c, r, m) && m <= n
    ensures Inv(c, r, n)
  {
    hide Budget, History, Gated, Ledger, Resolves;
  }

  lemma StartHolds(c: LoopControl.Config)
    ensures Inv(c, START, 0)
  {
    hide EffectiveLimit;
    LimitGrows(c, 0, 0);
  }

  /** Every reachable state keeps the invariant: after any number of turns of any run, whatever the model and the
  backends do. */
  lemma EveryReachableState(c: LoopControl.Config, turns: seq<Turn>)
    ensures Inv(c, Loop(c, START, turns), |turns|)
  {
    hide Inv, Loop;
    StartHolds(c);
    LoopKeeps(c, START, turns, 0);
  }

  /** A finished run has made at most one generation more than it took turns, and its quality score is a share. */
  lemma FinishedRun(c: LoopControl.Config, turns: seq<Turn>, forced: Option<string>)
    ensures var end := Finish(c, Loop(c, START, turns), forced);
      && end.turns <= |turns| + 1
      && 0.0 <= Quality(end) <= 1.0
      && Budget(c, end) && History(c, end) && Ledger(end) && Resolves(end)
      && (end.exit == Answered ==> Justified(c, end))
  {
    hide Loop, History, EffectiveLimit, InRange, Resolve;
    EveryReachableState(c, turns);
    var r := Loop(c, START, turns);
    var end := Finish(c, r, forced);
    SameHistory(c, r, end);
    if end.searchRounds > 0 {
      DivideBelow(0.0, end.metrics.qualitySum, end.searchRounds as real);
      DivideBelow(end.metrics.qualitySum, end.searchRounds as real, end.searchRounds as real);
    }
  }

  /** A later state of a run knows no fewer subquestions, so its limit is no lower. */
  lemma LimitNeverShrinks(c: LoopControl.Config, r: Run, t: Turn)
    ensures r.tasks <= TakeTurn(c, r, t).tasks
    ensures EffectiveLimit(c, |r.tasks|) <= EffectiveLimit(c, |TakeTurn(c, r, t).tasks|)
  {
    hide Act, HandleNoAction, EffectiveLimit;
    var r2 := r.(turns := r.turns + 1, formatErrors := 0);
    if t.actions.Some? { ActTasks(c, r2, t, t.actions.value); }
    ActTasks(c, r2, t, Actions([], {}, c.questionSpecs, false, []));
    NoActionTasks(c, r.(turns := r.turns + 1), t.forced);
    assert r.(turns := r.turns + 1).(formatErrors := 0) == r2;
    MoreTasks(c, r.tasks, TakeTurn(c, r, t).tasks);
  }

  lemma {:induction false} LoopConcat(c: LoopControl.Config, r: Run, a: seq<Turn>, b: seq<Turn>)
    ensures Loop(c, r, a + b) == Loop(c, Loop(c, r, a), b)
    decreases |a|
  {
    hide TakeTurn;
    if a == [] {
      assert a + b == b;
    } else if r.exit == Running {
      assert (a + b)[1..] == a[1..] + b;
      LoopConcat(c, TakeTurn(c, r, a[0]), a[1..], b);
    }
  }

  lemma {:induction false} LoopTasks(c: LoopControl.Config, r: Run, turns: seq<Turn>)
    ensures r.tasks <= Loop(c, r, turns).tasks
    decreases |turns|
  {
    hide TakeTurn, EffectiveLimit;
    if turns != [] && r.exit == Running {
      LimitNeverShrinks(c, r, turns[0]);
      LoopTasks(c, TakeTurn(c, r, turns[0]), turns[1..]);
    }
  }

  /** So over a run the limit never falls: no state has a lower one than an earlier state. */
  lemma LimitNeverFalls(c: LoopControl.Config, a: seq<Turn>, b: seq<Turn>)
    ensures Loop(c, START, a).tasks <= Loop(c, START, a + b).tasks
    ensures EffectiveLimit(c, |Loop(c, START, a).tasks|) <= EffectiveLimit(c, |Loop(c, START, a + b).tasks|)
  {
    hide Loop, EffectiveLimit;
    LoopConcat(c, START, a, b);
    LoopTasks(c, Loop(c, START, a), b);
    MoreTasks(c, Loop(c, START, a).tasks, Loop(c, START, a + b).tasks);
  }

  lemma ActTasks(c: LoopControl.Config, r: Run, t: Turn, a: Actions)
    ensures r.tasks <= Act(c, r, t, a).tasks
  {
    hide Act, SearchStage, Prepared, Requests, Sufficient;
    ActUnfolds(c, r, t, a);
    PreparedFrame(r, a);
    var r1 := Prepared(r, a);
    var p := Requests(c, r1, a.specs);
    StageFrame(c, r1.(metrics := CountRefused(r1.metrics, p)), t, p.allowed);
  }

  lemma NoActionTasks(c: LoopControl.Config, r: Run, forced: Option<string>)
    ensures HandleNoAction(c, r, forced).tasks == r.tasks
  {
    hide Sufficient;
  }

  /** The round budget holds in every run exactly when the base is positive or there are no turns at all. */
  lemma BudgetIff(c: LoopControl.Config)
    ensures (forall turns: seq<Turn> | |turns| <= MaxInt(0, c.maxTurns) ::
               var r := Loop(c, START, turns); r.searchRounds <= MaxInt(0, EffectiveLimit(c, |r.tasks|)))
            <==> Base(c) > 0 || c.maxTurns <= 0
  {
    hide Loop, EffectiveLimit;
    if Base(c) > 0 {
      forall turns: seq<Turn>
        ensures var r := Loop(c, START, turns); r.searchRounds <= MaxInt(0, EffectiveLimit(c, |r.tasks|))
      {
        EveryReachableState(c, turns);
      }
    } else if c.maxTurns <= 0 {
      forall turns: seq<Turn> | |turns| <= 0 ensures Loop(c, START, turns) == START { NoTurns(c, turns); }
    } else {
      var turn := OneSearch();
      LoopOnce(c, turn);
      UnlimitedSearch(c, turn);
      assert |[turn]| <= MaxInt(0, c.maxTurns);
    }
  }

  lemma NoTurns(c: LoopControl.Config, turns: seq<Turn>)
    requires turns == []
    ensures Loop(c, START, turns) == START
  {
  }

  function OneSearch(): Turn {
    Turn(Some(Actions([], {}, [(None, "q")], false, [])), false, false, _ => [], _ => [], None)
  }

  lemma LoopOnce(c: LoopControl.Config, t: Turn)
    ensures Loop(c, START, [t]) == TakeTurn(c, START, t)
  {
    hide TakeTurn;
    assert [t][1..] == [];
  }

  /** A limit that is not positive limits nothing. */
  lemma UnlimitedSearch(c: LoopControl.Config, t: Turn)
    requires t == OneSearch() && Base(c) <= 0
    ensures var r := TakeTurn(c, START, t); r.searchRounds == 1 && EffectiveLimit(c, |r.tasks|) <= 0
  {
    hide Act, SearchStage, Prepared, Requests, Base, EffectiveLimit;
    var a, r := t.actions.value, START.(turns := 1, formatErrors := 0);
    var r1 := Prepared(r, a);
    FirstRequest(c, r, a);
    ActUnfolds(c, r, t, a);
    StageFrame(c, r1.(metrics := CountRefused(r1.metrics, Split(a.specs, [], []))), t, a.specs);
  }

  lemma FirstRequest(c: LoopControl.Config, r: Run, a: Actions)
    requires a == OneSearch().actions.value && r == START.(turns := 1, formatErrors := 0) && Base(c) <= 0
    ensures Prepared(r, a).tasks == {} && Prepared(r, a).metrics == r.metrics && EffectiveLimit(c, 0) <= 0
    ensures Requests(c, Prepared(r, a), a.specs) == Split(a.specs, [], []) && a.answers == []
    ensures Prepared(r, a).searchRounds == 0
  {
    var specs := a.specs;
    PreparedFrame(r, a);
    assert Prepared(r, a).tasks == {};
    assert specs[..0] == [] && Norms(c, []) == {};
    assert [] + [specs[0]] == specs;
    assert Partition(c, specs[..0], [], false) == Split([], [], []);
  }
}
