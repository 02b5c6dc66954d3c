/** What a turn of a search run does, said by the situation it meets and what comes of it, and what that means for
runs. */
module SearchTurns {
  import opened Text
  import opened Evidence
  import opened LoopControl
  import opened Citations
  import opened SearchRun
  import opened SearchInvariants

  // ---------------------------------------------------------------- what a turn brings

  /** The subquestions that requests name. */
  function Named(specs: seq<Spec>): set<string> {
    set s | s in specs && s.0.Some? :: s.0.value
  }

  /** The subquestions that are known once a turn has declared and named its own. */
  function KnownAfter(r: Run, a: Actions): set<string> {
    r.tasks + a.declared + Named(a.specs)
  }

  function LastDecision(r: Run, a: Actions): Option<Decision> {
    if a.decisions == [] then r.decision else a.decisions[|a.decisions| - 1]
  }

  /** No request of the turn may be searched: each was searched before, or the limit is reached. */
  predicate Barred(c: LoopControl.Config, r: Run, a: Actions) {
    var limit := EffectiveLimit(c, |KnownAfter(r, a)|);
    (0 < limit <= r.searchRounds) || forall s | s in a.specs :: exists q | q in r.previous :: c.norm(q) == c.norm(s.1)
  }

  lemma PreparedMeans(r: Run, a: Actions)
    ensures var r' := Prepared(r, a);
      && r'.tasks == KnownAfter(r, a) && r'.decision == LastDecision(r, a) && r'.eval == r.eval
      && r'.answer == (if a.answers == [] then r.answer else Some(a.answers[0]))
      && (forall id | id in a.declared || id in Named(a.specs) - r.tasks :: id in r'.statuses && !r'.statuses[id])
      && (forall id | id !in a.declared && (id in r.tasks || id !in Named(a.specs)) ::
            (id in r'.statuses <==> id in r.statuses) && (id in r.statuses ==> r'.statuses[id] == r.statuses[id]))
  {
  }

  lemma BarredIff(c: LoopControl.Config, r: Run, a: Actions)
    ensures Barred(c, r, a) <==> Requests(c, Prepared(r, a), a.specs).allowed == []
  {
    hide EffectiveLimit, Prepared, Partition;
    PreparedMeans(r, a);
    PreparedFrame(r, a);
    var limit := EffectiveLimit(c, |KnownAfter(r, a)|);
    AllowedIff(c, a.specs, r.previous, AtLimit(r.searchRounds, limit));
    assert Requests(c, Prepared(r, a), a.specs) == Partition(c, a.specs, r.previous, AtLimit(r.searchRounds, limit));
  }

  lemma AllowedIff(c: LoopControl.Config, specs: seq<Spec>, previous: seq<string>, atLimit: bool)
    ensures Partition(c, specs, previous, atLimit).allowed == []
      <==> atLimit || forall s | s in specs :: exists q | q in previous :: c.norm(q) == c.norm(s.1)
  {
    hide Partition;
    PartitionSplits(c, specs, previous, atLimit);
    var p := Partition(c, specs, previous, atLimit);
    if p.allowed != [] {
      var s := p.allowed[0];
      assert s in p.allowed;
      assert forall q | q in previous :: c.norm(q) in Norms(c, previous);
    }
    if p.allowed == [] && !atLimit {
      forall s | s in specs ensures exists q | q in previous :: c.norm(q) == c.norm(s.1) {
        InQueries(specs, s);
        assert QueriesOf(p.allowed) == [];
        assert s.1 in multiset(QueriesOf(specs));
        assert s.1 in p.repeated;
      }
    }
  }

  lemma InQueries(specs: seq<Spec>, s: Spec)
    requires s in specs
    ensures s.1 in QueriesOf(specs)
  {
    var i :| 0 <= i < |specs| && specs[i] == s;
    assert QueriesOf(specs)[i] == s.1;
  }

  // ---------------------------------------------------------------- the answer gate

  /** The gate lets an answer through exactly when it is a direct answer, the evidence is sufficient, sufficiency is not
  required, or answers were rejected as often as they may be. Otherwise the answer is gone and counted as rejected. */
  lemma GateIff(c: LoopControl.Config, r: Run)
    requires r.exit == Running
    ensures var r' := Gate(c, r);
      && (r'.exit == Answered <==>
            || AnswersDirectly(c, r) || Sufficient(r) || !c.requireSufficient || r.rejections >= c.maxAnswerRejections)
      && r' == (if r'.exit == Answered then r.(exit := Answered, metrics := r'.metrics)
                else r.(answer := None, rejections := r.rejections + 1, metrics := r'.metrics))
      && r'.metrics == (if AnswersDirectly(c, r) then r.metrics.(directAnswers := r.metrics.directAnswers + 1)
                        else if r'.exit != Answered then
                          r.metrics.(answerRejections := r.metrics.answerRejections + 1)
                        else if Sufficient(r) || !c.requireSufficient then r.metrics
                        else r.metrics.(forcedFinal := true))
  {
    hide Sufficient, AnswersDirectly;
  }

  // ---------------------------------------------------------------- turns that only answer

  predicate OnlyAnswers(c: LoopControl.Config, r: Run, t: Turn) {
    t.actions.Some? && t.actions.value.answers != [] && !t.actions.value.fetches && Barred(c, r, t.actions.value)
  }

  /** The answer of the turn is let through. A subquestion that the turn declares, or that it is the first to name, is
  not covered yet. */
  predicate Passes(c: LoopControl.Config, r: Run, a: Actions) {
    || (c.allowInternalAnswer && r.searchRounds == 0
        && LastDecision(r, a) == Some(DecideAnswer) && KnownAfter(r, a) == {})
    || (Sufficient(r) && a.declared == {} && Named(a.specs) <= r.tasks)
    || !c.requireSufficient
    || r.rejections >= c.maxAnswerRejections
  }

  lemma PassesIff(c: LoopControl.Config, r: Run, a: Actions)
    ensures var r' := Prepared(r, a); Passes(c, r, a) <==>
      || AnswersDirectly(c, r') || Sufficient(r') || !c.requireSufficient || r'.rejections >= c.maxAnswerRejections
  {
    hide Prepared;
    PreparedMeans(r, a);
    PreparedFrame(r, a);
    SufficientAfter(r, a);
  }

  lemma SufficientAfter(r: Run, a: Actions)
    ensures Sufficient(Prepared(r, a)) <==> Sufficient(r) && a.declared == {} && Named(a.specs) <= r.tasks
  {
    hide Prepared, Named;
    PreparedMeans(r, a);
    var r' := Prepared(r, a);
    if Sufficient(r') {
      forall id | id in r'.tasks ensures id !in a.declared && id !in Named(a.specs) - r.tasks {}
      assert forall id | id in a.declared :: id in r'.tasks;
      forall id | id in Named(a.specs) ensures id in r.tasks { assert id in r'.tasks; }
      forall id | id in r.tasks ensures id in r.statuses && r.statuses[id] { assert id in r'.tasks; }
    }
  }

  predicate Unsearched(r: Run, r': Run) {
    && r'.previous == r.previous && r'.searchRounds == r.searchRounds && r'.rounds == r.rounds && r'.eval == r.eval
    && r'.score == r.score && r'.executed == r.executed && r'.shown == r.shown && r'.forceTried == r.forceTried
  }

  /** A turn with only an answer ends the run with that answer when it passes, and otherwise costs a rejection. */
  lemma AnswerTurn(c: LoopControl.Config, r: Run, t: Turn)
    requires r.exit == Running && OnlyAnswers(c, r, t)
    ensures var r', a := TakeTurn(c, r, t), t.actions.value;
      && Unsearched(r, r') && r'.turns == r.turns + 1 && r'.formatErrors == 0
      && r'.tasks == KnownAfter(r, a) && r'.decision == LastDecision(r, a)
      && (if Passes(c, r, a)
          then r'.exit == Answered && r'.answer == Some(a.answers[0]) && r'.rejections == r.rejections
          else r'.exit == Running && r'.answer == None && r'.rejections == r.rejections + 1)
  {
    hide Act, Gate, Prepared, Requests, Sufficient, AnswersDirectly, Passes, KnownAfter, LastDecision, Named, Barred;
    var a := t.actions.value;
    var r1 := r.(turns := r.turns + 1, formatErrors := 0);
    assert r.(turns := r.turns + 1).(formatErrors := 0) == r1;
    CountersApart(c, r, r1, a);
    BarredIff(c, r1, a);
    ActUnfolds(c, r1, t, a);
    PreparedMeans(r1, a);
    PreparedFrame(r1, a);
    PassesIff(c, r1, a);
    GateIff(c, Prepared(r1, a));
  }

  lemma CountersApart(c: LoopControl.Config, r: Run, r1: Run, a: Actions)
    requires r1 == r.(turns := r1.turns, formatErrors := r1.formatErrors)
    ensures KnownAfter(r1, a) == KnownAfter(r, a) && LastDecision(r1, a) == LastDecision(r, a)
    ensures (Passes(c, r1, a) <==> Passes(c, r, a)) && (Barred(c, r1, a) <==> Barred(c, r, a))
  {
    hide EffectiveLimit, Named;
  }

  /** So in any run, the first such turn whose answer passes is the last turn, and its answer is the answer. */
  lemma PassingAnswerEnds(c: LoopControl.Config, before: seq<Turn>, t: Turn, after: seq<Turn>)
    requires var r := Loop(c, START, before);
      r.exit == Running && OnlyAnswers(c, r, t) && Passes(c, r, t.actions.value)
    ensures var r, end := Loop(c, START, before), Loop(c, START, before + ([t] + after));
      && end.exit == Answered && end.answer == Some(t.actions.value.answers[0])
      && end.turns == r.turns + 1 && Unsearched(r, end)
  {
    hide Loop, TakeTurn, OnlyAnswers, Passes, Unsearched;
    var r := Loop(c, START, before);
    LoopConcat(c, START, before, [t] + after);
    AnswerTurn(c, r, t);
    LoopStep(c, r, t, after);
    LoopStops(c, TakeTurn(c, r, t), after);
  }

  lemma LoopStep(c: LoopControl.Config, r: Run, t: Turn, after: seq<Turn>)
    requires r.exit == Running
    ensures Loop(c, r, [t] + after) == Loop(c, TakeTurn(c, r, t), after)
  {
    hide TakeTurn;
    assert ([t] + after)[1..] == after;
  }

  lemma LoopStops(c: LoopControl.Config, r: Run, turns: seq<Turn>)
    requires r.exit != Running || turns == []
    ensures Loop(c, r, turns) == r
  {
  }

  /** An answer and nothing else. */
  predicate PlainAnswer(t: Turn) {
    && t.actions.Some? && t.actions.value.answers != [] && !t.actions.value.fetches
    && t.actions.value.decisions == [] && t.actions.value.declared == {} && t.actions.value.specs == []
  }

  /** `left` answers are rejected, and the next one is taken. */
  predicate RejectedFirst(r: Run, end: Run, turns: seq<Turn>, left: nat) {
    && Unsearched(r, end)
    && (|turns| <= left ==>
          && end.exit == Running && end.rejections == r.rejections + |turns| && end.turns == r.turns + |turns|
          && end.answer == if turns == [] then r.answer else None)
    && (|turns| > left ==>
          && end.exit == Answered && end.rejections == r.rejections + left && end.turns == r.turns + left + 1
          && turns[left].actions.Some? && turns[left].actions.value.answers != []
          && end.answer == Some(turns[left].actions.value.answers[0]))
  }

  /** With insufficient evidence, answers are rejected as long as that is allowed, and then the next one ends the
  run. */
  lemma {:induction false} RejectedThenTaken(c: LoopControl.Config, r: Run, turns: seq<Turn>)
    requires r.exit == Running && c.requireSufficient && !Sufficient(r) && !AnswersDirectly(c, r)
    requires r.rejections <= c.maxAnswerRejections && forall t | t in turns :: PlainAnswer(t)
    ensures RejectedFirst(r, Loop(c, r, turns), turns, c.maxAnswerRejections - r.rejections)
    decreases |turns|
  {
    hide TakeTurn, Loop;
    if turns == [] {
      LoopStops(c, r, turns);
    } else {
      var t, rest := turns[0], turns[1..];
      var r' := TakeTurn(c, r, t);
      assert turns == [t] + rest;
      LoopStep(c, r, t, rest);
      PlainAnswerTurn(c, r, t);
      if r.rejections < c.maxAnswerRejections {
        RejectedThenTaken(c, r', rest);
      } else {
        LoopStops(c, r', rest);
      }
    }
  }

  lemma PlainAnswerTurn(c: LoopControl.Config, r: Run, t: Turn)
    requires r.exit == Running && c.requireSufficient && !Sufficient(r) && !AnswersDirectly(c, r) && PlainAnswer(t)
    ensures var r' := TakeTurn(c, r, t);
      && Unsearched(r, r') && r'.turns == r.turns + 1
      && (if r.rejections < c.maxAnswerRejections
          then r'.exit == Running && r'.answer == None && r'.rejections == r.rejections + 1
          else r'.exit == Answered && r'.answer == Some(t.actions.value.answers[0]) && r'.rejections == r.rejections)
      && !Sufficient(r') && !AnswersDirectly(c, r')
  {
    hide TakeTurn, EffectiveLimit;
    AnswerTurn(c, r, t);
    assert r.tasks == KnownAfter(r, t.actions.value);
    PlainStatuses(c, r, t);
  }

  lemma PlainStatuses(c: LoopControl.Config, r: Run, t: Turn)
    requires PlainAnswer(t)
    ensures TakeTurn(c, r, t).statuses == r.statuses
  {
    hide Partition, EffectiveLimit, Sufficient, Gate, SearchStage, Requests, Act, Prepared;
    var a, r1 := t.actions.value, r.(turns := r.turns + 1, formatErrors := 0);
    assert r.(turns := r.turns + 1).(formatErrors := 0) == r1;
    ActUnfolds(c, r1, t, a);
    BarredIff(c, r1, a);
    PreparedMeans(r1, a);
    assert Prepared(r1, a).statuses == r.statuses;
    GateStatuses(c, Prepared(r1, a));
  }

  lemma GateStatuses(c: LoopControl.Config, r: Run)
    ensures Gate(c, r).statuses == r.statuses
  {
    hide Sufficient, AnswersDirectly;
  }

  // ---------------------------------------------------------------- turns that search

  /** What the query at `i` of `n` brings: reranked if that was asked for, there is a reranker, and some query brought
  two results to order. */
  function Row(c: LoopControl.Config, t: Turn, n: nat, i: nat): seq<Passage> {
    if t.rerank && c.hasReranker && exists j | 0 <= j < n :: |t.found(j)| > 1 then t.reranked(i) else t.found(i)
  }

  predicate Empty(c: LoopControl.Config, t: Turn, n: nat) {
    forall i | 0 <= i < n :: Row(c, t, n, i) == []
  }

  /** The round keeps each request with its subquestion and what it brought. */
  predicate RoundIs(c: LoopControl.Config, t: Turn, allowed: seq<Spec>, round: seq<SearchContext>) {
    && |round| == |allowed|
    && forall i | 0 <= i < |allowed| ::
      round[i] == SearchContext(allowed[i].1, Row(c, t, |allowed|, i), allowed[i].0)
  }

  /** Of a subquestion that the round searched for, the evidence is sufficient by itself. */
  predicate TaskCovered(c: LoopControl.Config, round: seq<SearchContext>, id: string) {
    && (forall i | 0 <= i < |round| && round[i].taskId == Some(id) ::
          EvaluateQuery(c.evaluation, round[i].results).sufficient)
    && ResultsFor(round, id) >= MaxInt(1, c.evaluation.minResultsPerQuery)
  }

  function ResultsFor(round: seq<SearchContext>, id: string): nat {
    if round == [] then 0
    else (if round[0].taskId == Some(id) then |round[0].results| else 0) + ResultsFor(round[1..], id)
  }

  ghost predicate Judges(c: LoopControl.Config, round: seq<SearchContext>,
                         before: map<string, bool>, after: map<string, bool>)
  {
    && (forall x | x in round && x.taskId.Some? ::
          x.taskId.value in after && (after[x.taskId.value] <==> TaskCovered(c, round, x.taskId.value)))
    && (forall id | forall x | x in round :: x.taskId != Some(id) ::
          (id in after <==> id in before) && (id in before ==> after[id] == before[id]))
  }

  /** What a round of requests leaves in the state. */
  ghost predicate Searched(c: LoopControl.Config, r: Run, r': Run, t: Turn, allowed: seq<Spec>) {
    && r'.executed == r.executed + [QueriesOf(allowed)] && r'.searchRounds == r.searchRounds + 1
    && (if Empty(c, t, |allowed|)
        then r'.rounds == r.rounds && r'.score == r.score && r'.eval == None && r'.statuses == r.statuses
        else
          && |r'.rounds| == |r.rounds| + 1 && r.rounds <= r'.rounds
          && var round := r'.rounds[|r.rounds|];
          && RoundIs(c, t, allowed, round)
          && r'.eval == Some(EvaluateRound(c.evaluation, RowsOf(round)))
          && r'.score == ToScore(r'.eval.value) && Judges(c, round, r.statuses, r'.statuses))
  }

  lemma RowsAre(c: LoopControl.Config, t: Turn, n: nat)
    ensures forall i | 0 <= i < n :: Rows(t, n, Reranks(c, t, n))[i] == Row(c, t, n, i)
    ensures NothingFound(Rows(t, n, Reranks(c, t, n))) <==> Empty(c, t, n)
  {
    var rows := Rows(t, n, Reranks(c, t, n));
    assert forall i | 0 <= i < n :: rows[i] == Row(c, t, n, i);
    if NothingFound(rows) {
      forall i | 0 <= i < n ensures Row(c, t, n, i) == [] { assert rows[i] in rows; }
    }
  }

  lemma {:induction false} OfTaskHolds(round: seq<SearchContext>, id: string)
    ensures forall x :: x in OfTask(round, id) <==> x in round && x.taskId == Some(id)
  {
    if round != [] {
      OfTaskHolds(round[1..], id);
      assert round == [round[0]] + round[1..];
    }
  }

  lemma {:induction false} OfTaskCounts(e: Evidence.Config, round: seq<SearchContext>, id: string)
    ensures TotalCount(EvaluateQueries(e, RowsOf(OfTask(round, id)))) == ResultsFor(round, id)
  {
    hide EvaluateQueries, TotalCount, RowsOf;
    if round == [] {
      NoneOfTask(e, round, id);
    } else {
      OfTaskCounts(e, round[1..], id);
      var rest := OfTask(round[1..], id);
      if round[0].taskId == Some(id) {
        RowsCons(round[0], rest);
        CountCons(e, round[0].results, RowsOf(rest));
      } else {
        assert [] + rest == rest;
      }
    }
  }

  lemma NoneOfTask(e: Evidence.Config, round: seq<SearchContext>, id: string)
    requires round == []
    ensures TotalCount(EvaluateQueries(e, RowsOf(OfTask(round, id)))) == 0
  {
  }

  lemma RowsCons(x: SearchContext, rest: seq<SearchContext>)
    ensures RowsOf([x] + rest) == [x.results] + RowsOf(rest)
  {
  }

  lemma CountCons(e: Evidence.Config, row: seq<Passage>, rows: seq<seq<Passage>>)
    ensures TotalCount(EvaluateQueries(e, [row] + rows)) == |row| + TotalCount(EvaluateQueries(e, rows))
  {
    assert EvaluateQueries(e, [row] + rows)[1..] == EvaluateQueries(e, rows);
  }

  lemma AllSufficient(e: Evidence.Config, rows: seq<seq<Passage>>)
    ensures (forall q | q in EvaluateQueries(e, rows) :: q.sufficient)
      <==> forall row | row in rows :: EvaluateQuery(e, row).sufficient
  {
    hide EvaluateQuery;
    var qs := EvaluateQueries(e, rows);
    forall row | row in rows ensures EvaluateQuery(e, row) in qs {
      var i :| 0 <= i < |rows| && rows[i] == row;
      assert qs[i] == EvaluateQuery(e, row);
    }
  }

  lemma AnyTotal(e: Evidence.Config, total: int, row: seq<Passage>)
    ensures EvaluateQuery(e.(minTotalResults := total), row) == EvaluateQuery(e, row)
  {
    hide Scored, Max, Sum;
    NonEmptyAnyTotal(e, total, row);
  }

  lemma {:induction false} NonEmptyAnyTotal(e: Evidence.Config, total: int, row: seq<Passage>)
    ensures NonEmpty(e.(minTotalResults := total), row) == NonEmpty(e, row)
  {
    if row != [] { NonEmptyAnyTotal(e, total, row[1..]); }
  }

  lemma CoveredIff(c: LoopControl.Config, round: seq<SearchContext>, id: string)
    requires exists x :: x in round && x.taskId == Some(id)
    ensures id in TaskVerdicts(c, round) && (TaskVerdicts(c, round)[id] <==> TaskCovered(c, round, id))
  {
    hide EvaluateQuery, EvaluateQueries, OfTask, TotalCount, ResultsFor, MaxInt;
    var total := MaxInt(1, c.evaluation.minResultsPerQuery);
    var relaxed := c.evaluation.(minTotalResults := total);
    var own := OfTask(round, id);
    OfTaskHolds(round, id);
    OfTaskCounts(relaxed, round, id);
    AllSufficient(relaxed, RowsOf(own));
    assert |EvaluateQueries(relaxed, RowsOf(own))| == |own| by { QueriesCounted(relaxed, own); }
    assert own != [];
    assert (forall row | row in RowsOf(own) :: EvaluateQuery(relaxed, row).sufficient)
      <==> forall i | 0 <= i < |round| && round[i].taskId == Some(id) ::
        EvaluateQuery(c.evaluation, round[i].results).sufficient by
    {
      OwnRows(c.evaluation, total, round, own, id);
    }
  }

  lemma QueriesCounted(e: Evidence.Config, own: seq<SearchContext>)
    ensures |EvaluateQueries(e, RowsOf(own))| == |own|
  {
  }

  lemma OwnRows(e: Evidence.Config, total: int, round: seq<SearchContext>, own: seq<SearchContext>, id: string)
    requires forall x :: x in own <==> x in round && x.taskId == Some(id)
    ensures (forall row | row in RowsOf(own) :: EvaluateQuery(e.(minTotalResults := total), row).sufficient)
      <==> forall i | 0 <= i < |round| && round[i].taskId == Some(id) ::
        EvaluateQuery(e, round[i].results).sufficient
  {
    hide EvaluateQuery;
    forall row ensures EvaluateQuery(e.(minTotalResults := total), row) == EvaluateQuery(e, row) {
      AnyTotal(e, total, row);
    }
    forall i | 0 <= i < |round| && round[i].taskId == Some(id) ensures round[i].results in RowsOf(own) {
      assert round[i] in own;
      var j :| 0 <= j < |own| && own[j] == round[i];
      assert RowsOf(own)[j] == round[i].results;
    }
    forall row | row in RowsOf(own)
      ensures exists i :: 0 <= i < |round| && round[i].taskId == Some(id) && round[i].results == row
    {
      var j :| 0 <= j < |own| && RowsOf(own)[j] == row;
      assert own[j] in own;
      var i :| 0 <= i < |round| && round[i] == own[j];
    }
  }

  lemma VerdictsJudge(c: LoopControl.Config, round: seq<SearchContext>, before: map<string, bool>)
    ensures Judges(c, round, before, before + TaskVerdicts(c, round))
  {
    hide TaskVerdicts, TaskCovered;
    forall x | x in round && x.taskId.Some? { CoveredIff(c, round, x.taskId.value); }
    VerdictKeys(c, round);
  }

  lemma VerdictKeys(c: LoopControl.Config, round: seq<SearchContext>)
    ensures forall id | id in TaskVerdicts(c, round) :: exists x :: x in round && x.taskId == Some(id)
  {
    hide EvaluateRound, OfTask, RowsOf;
  }

  lemma RoundSearches(c: LoopControl.Config, r: Run, t: Turn, allowed: seq<Spec>)
    ensures Searched(c, r, ExecuteRound(c, r, t, allowed), t, allowed)
  {
    hide CountSearch, CountEvidence, TaskVerdicts, EvaluateRound, ToScore, Reranks, Rows, Judges, Row, Empty,
         NothingFound, WithQueries, RowsOf;
    ExecuteFrame(c, r, t, allowed);
    var n := |allowed|;
    RowsAre(c, t, n);
    var rows := Rows(t, n, Reranks(c, t, n));
    if !NothingFound(rows) {
      var round := Contexts(QueriesOf(allowed), rows, TasksOf(allowed));
      VerdictsJudge(c, round, r.statuses);
      ScoreClamped(EvaluateRound(c.evaluation, RowsOf(round)));
    }
  }

  lemma ScoreClamped(e: RoundEval)
    ensures Clamp(ToScore(e)) == ToScore(e)
  {
    hide ToScore;
  }

  /** The run has rounds left, but this round raised the evidence score by less than it should, and the evidence is
  sufficient if that matters. */
  predicate Flattens(c: LoopControl.Config, before: real, r: Run) {
    && r.searchRounds < EffectiveLimit(c, |r.tasks|)
    && c.plateauMinGain.Some? && r.score < before + c.plateauMinGain.value
    && (c.plateauRequiresSufficient ==> Sufficient(r))
  }

  /** What is shown of a round: nothing on a plateau, otherwise each of its results under its label. */
  ghost predicate Shown(c: LoopControl.Config, r: Run, r': Run) {
    forall n: nat, q: nat, d: nat, p :: (Label(n, q, d), p) in r'.shown <==>
      || (Label(n, q, d), p) in r.shown
      || (&& n == |r'.rounds| > |r.rounds| && !Flattens(c, r.score, r')
          && 1 <= q <= |r'.rounds[n - 1]| && 1 <= d <= |r'.rounds[n - 1][q - 1].results|
          && p == r'.rounds[n - 1][q - 1].results[d - 1])
  }

  lemma PlateauIff(c: LoopControl.Config, before: real, r: Run)
    ensures Flattens(c, before, r) <==>
      ShouldContinue(c, r.searchRounds, |r.tasks|, Sufficient(r), before, r.score) == Plateau
  {
    hide EffectiveLimit, Sufficient;
  }

  predicate SameButTold(r: Run, r': Run) {
    r' == r.(shown := r'.shown, metrics := r'.metrics)
  }

  lemma StageTells(c: LoopControl.Config, r: Run, t: Turn, allowed: seq<Spec>)
    ensures var mid, r' := ExecuteRound(c, r.(rejections := 0), t, allowed), SearchStage(c, r, t, allowed);
      && SameButTold(mid, r') && Shown(c, r, r')
      && r'.metrics == mid.metrics.(plateauStop := mid.metrics.plateauStop || Flattens(c, r.score, r'))
  {
    hide ExecuteRound, ShouldContinue, Sufficient, Flattens, LastLabels;
    var mid := ExecuteRound(c, r.(rejections := 0), t, allowed);
    ExecuteFrame(c, r.(rejections := 0), t, allowed);
    PlateauIff(c, r.score, mid);
    FlattensSame(c, r.score, mid, SearchStage(c, r, t, allowed));
    LabelsAre(mid.rounds);
  }

  lemma FlattensSame(c: LoopControl.Config, before: real, r: Run, r': Run)
    requires SameButTold(r, r')
    ensures Flattens(c, before, r) <==> Flattens(c, before, r')
  {
    hide EffectiveLimit;
  }

  lemma LabelsAre(rounds: Rounds)
    ensures forall n: nat, q: nat, d: nat, p :: (Label(n, q, d), p) in LastLabels(rounds) <==>
      && n == |rounds| > 0
      && 1 <= q <= |rounds[n - 1]| && 1 <= d <= |rounds[n - 1][q - 1].results|
      && p == rounds[n - 1][q - 1].results[d - 1]
  {
  }

  /** The requests that repeat no searched query, in the order in which they stand. */
  function Novel(c: LoopControl.Config, previous: seq<string>, specs: seq<Spec>): seq<Spec> {
    if specs == [] then []
    else
      (if exists q | q in previous :: c.norm(q) == c.norm(specs[0].1) then [] else [specs[0]])
      + Novel(c, previous, specs[1..])
  }

  lemma {:induction false} NovelGrows(c: LoopControl.Config, previous: seq<string>, specs: seq<Spec>, s: Spec)
    ensures Novel(c, previous, specs + [s]) ==
      Novel(c, previous, specs) + if exists q | q in previous :: c.norm(q) == c.norm(s.1) then [] else [s]
  {
    if specs == [] {
      assert [s][1..] == [] && [] + [s] == [s];
    } else {
      assert (specs + [s])[1..] == specs[1..] + [s];
      NovelGrows(c, previous, specs[1..], s);
    }
  }

  lemma NothingNovel(c: LoopControl.Config, previous: seq<string>, specs: seq<Spec>)
    requires specs == []
    ensures Novel(c, previous, specs) == []
  {
  }

  /** Below the limit the novel requests are searched and the others are repeated; at the limit the novel ones are
  refused. */
  lemma {:induction false} PartitionIsNovel(
      c: LoopControl.Config, specs: seq<Spec>, previous: seq<string>, atLimit: bool)
    ensures var p, novel := Partition(c, specs, previous, atLimit), Novel(c, previous, specs);
      && p.allowed == (if atLimit then [] else novel)
      && p.overflow == (if atLimit then QueriesOf(novel) else [])
      && |p.repeated| == |specs| - |novel|
  {
    hide Novel;
    if specs == [] {
      NothingNovel(c, previous, specs);
    } else {
      var n := |specs| - 1;
      PartitionIsNovel(c, specs[..n], previous, atLimit);
      assert specs == specs[..n] + [specs[n]];
      NovelGrows(c, previous, specs[..n], specs[n]);
      QueriesGrow(Novel(c, previous, specs[..n]), specs[n]);
      assert c.norm(specs[n].1) in Norms(c, previous)
        <==> exists q | q in previous :: c.norm(q) == c.norm(specs[n].1);
    }
  }

  /** What a turn with actions changes, whatever it does. */
  predicate Turned(r: Run, r': Run, a: Actions) {
    && r'.turns == r.turns + 1 && r'.formatErrors == 0 && r'.forceTried == r.forceTried
    && r'.tasks == KnownAfter(r, a) && r'.decision == LastDecision(r, a)
  }

  /** The counters of the requests, and of how they were searched. */
  predicate SearchCounted(c: LoopControl.Config, r: Run, r': Run, t: Turn, asked: nat, n: nat) {
    var m, m' := r.metrics, r'.metrics;
    var reranks := t.rerank && c.hasReranker && exists i | 0 <= i < n :: |t.found(i)| > 1;
    && m'.searchQueries == m.searchQueries + n && m'.repeatedQueries == m.repeatedQueries + asked - n
    && (if t.web then m'.web == m.web + 1 && m'.vdb == m.vdb else m'.web == m.web && m'.vdb == m.vdb + 1)
    && (m'.rerankRequested == m.rerankRequested + if t.rerank then 1 else 0)
    && (m'.rerankCalls == m.rerankCalls + if reranks then 1 else 0)
    && m'.rerankRequested - m.rerankRequested == (m'.rerankCalls - m.rerankCalls) + (m'.rerankSkipped - m.rerankSkipped)
    && m'.limitHits == m.limitHits && m'.directAnswers == m.directAnswers && m'.forcedFinal == m.forcedFinal
    && m'.answerRejections == m.answerRejections && m'.formatErrorTurns == m.formatErrorTurns
    && m'.plateauStop == (m.plateauStop || Flattens(c, r.score, r'))
  }

  lemma ExecuteCounts(c: LoopControl.Config, r: Run, t: Turn, allowed: seq<Spec>)
    ensures var m, m' := CountSearch(c, r.metrics, t, |allowed|), ExecuteRound(c, r, t, allowed).metrics;
      m' == m.(qualitySum := m'.qualitySum, sufficientRounds := m'.sufficientRounds,
               insufficientRounds := m'.insufficientRounds, gainTotal := m'.gainTotal, scoreFinal := m'.scoreFinal)
  {
    hide CountSearch, TaskVerdicts, EvaluateRound, ToScore, Reranks, Rows, NothingFound, WithQueries, RowsOf, Fraction,
         QueriesOf, TasksOf, Clamp;
    SpecLengths(allowed);
  }

  lemma StageCounts(c: LoopControl.Config, r: Run, t: Turn, allowed: seq<Spec>, p: Split, asked: nat)
    requires p.allowed == allowed && p.overflow == [] && |p.repeated| == asked - |allowed|
    ensures var r' := SearchStage(c, r.(metrics := CountRefused(r.metrics, p)), t, allowed);
      SearchCounted(c, r, r', t, asked, |allowed|)
  {
    hide ExecuteRound, SearchStage, Flattens;
    var r1 := r.(metrics := CountRefused(r.metrics, p));
    ExecuteCounts(c, r1.(rejections := 0), t, allowed);
    StageTells(c, r1, t, allowed);
  }

  lemma PreparedApart(r: Run, r1: Run, a: Actions)
    requires r1 == r.(turns := r1.turns, formatErrors := r1.formatErrors)
    ensures Prepared(r1, a).statuses == Prepared(r, a).statuses
  {
    hide Named;
  }

  /** What a search leaves depends on the rounds, the score, the counters and the statuses before it. */
  lemma Regarded(c: LoopControl.Config, r2: Run, r3: Run, r: Run, r': Run, t: Turn, allowed: seq<Spec>, asked: nat)
    requires Searched(c, r3, r', t, allowed) && Shown(c, r3, r') && SearchCounted(c, r2, r', t, asked, |allowed|)
    requires r3.executed == r.executed && r3.searchRounds == r.searchRounds && r3.rounds == r.rounds
    requires r3.score == r2.score == r.score && r3.shown == r.shown && r2.metrics == r.metrics
    ensures Searched(c, r.(statuses := r3.statuses), r', t, allowed) && Shown(c, r, r')
    ensures SearchCounted(c, r, r', t, asked, |allowed|)
  {
    hide RoundIs, Judges, Empty, Flattens, EvaluateRound, ToScore, RowsOf, QueriesOf;
  }

  lemma NovelAllowed(c: LoopControl.Config, r: Run, specs: seq<Spec>)
    requires Requests(c, r, specs).allowed != []
    ensures var p, novel := Requests(c, r, specs), Novel(c, r.previous, specs);
      p.allowed == novel && p.overflow == [] && |p.repeated| == |specs| - |novel|
  {
    hide Partition, Novel, EffectiveLimit;
    PartitionIsNovel(c, specs, r.previous, AtLimit(r.searchRounds, EffectiveLimit(c, |r.tasks|)));
  }

  lemma StageSearches(c: LoopControl.Config, r: Run, t: Turn, allowed: seq<Spec>)
    ensures var r' := SearchStage(c, r, t, allowed);
      Searched(c, r, r', t, allowed) && Shown(c, r, r') && r'.decision == r.decision && r'.answer == r.answer
  {
    hide ExecuteRound, SearchStage, Flattens, Row, Empty, Judges, EvaluateRound, ToScore, Shown;
    var r0 := r.(rejections := 0);
    var mid := ExecuteRound(c, r0, t, allowed);
    ExecuteFrame(c, r0, t, allowed);
    RoundSearches(c, r0, t, allowed);
    StageTells(c, r, t, allowed);
  }

  /** A turn with something new to search below the limit searches all of that, in one round. An answer in the same turn
  is kept, and does not end the run. */
  lemma SearchTurn(c: LoopControl.Config, r: Run, t: Turn)
    requires r.exit == Running && t.actions.Some? && !Barred(c, r, t.actions.value)
    ensures var r', a := TakeTurn(c, r, t), t.actions.value; var novel := Novel(c, r.previous, a.specs);
      && Turned(r, r', a) && r'.exit == Running && r'.rejections == 0
      && r'.answer == (if a.answers == [] then r.answer else Some(a.answers[0]))
      && Searched(c, r.(statuses := Prepared(r, a).statuses), r', t, novel) && Shown(c, r, r')
      && (forall q :: q in r'.previous <==> q in r.previous || q in QueriesOf(novel))
      && SearchCounted(c, r, r', t, |a.specs|, |novel|)
  {
    hide Act, SearchStage, Prepared, Requests, Barred, KnownAfter, LastDecision, Passes, Searched, Shown, Novel,
         WithQueries, SearchCounted;
    var a := t.actions.value;
    var r1 := r.(turns := r.turns + 1, formatErrors := 0);
    assert r.(turns := r.turns + 1).(formatErrors := 0) == r1;
    CountersApart(c, r, r1, a);
    BarredIff(c, r1, a);
    ActUnfolds(c, r1, t, a);
    PreparedMeans(r1, a);
    PreparedFrame(r1, a);
    var r2 := Prepared(r1, a);
    var p := Requests(c, r2, a.specs);
    NovelAllowed(c, r2, a.specs);
    PreparedApart(r, r1, a);
    var r3 := r2.(metrics := CountRefused(r2.metrics, p));
    StageFrame(c, r3, t, p.allowed);
    StageSearches(c, r3, t, p.allowed);
    StageCounts(c, r2, t, p.allowed, p, |a.specs|);
    Regarded(c, r2, r3, r, TakeTurn(c, r, t), t, p.allowed, |a.specs|);
    WithQueriesHolds(r.previous, QueriesOf(p.allowed));
  }

  /** The last round that the limit allows is shown whole, even if it raised the score by too little. */
  lemma FinalRoundIsShown(c: LoopControl.Config, r: Run, t: Turn, q: nat, d: nat)
    requires r.exit == Running && t.actions.Some? && !Barred(c, r, t.actions.value)
    requires r.searchRounds + 1 >= EffectiveLimit(c, |KnownAfter(r, t.actions.value)|)
    requires var novel := Novel(c, r.previous, t.actions.value.specs);
      1 <= q <= |novel| && 1 <= d <= |Row(c, t, |novel|, q - 1)|
    ensures var r' := TakeTurn(c, r, t); var novel := Novel(c, r.previous, t.actions.value.specs);
      (Label(|r.rounds| + 1, q, d), Row(c, t, |novel|, q - 1)[d - 1]) in r'.shown
  {
    hide TakeTurn, Novel, Row, Barred, EffectiveLimit, KnownAfter, Judges, SearchCounted;
    SearchTurn(c, r, t);
  }

  predicate RefusalsCounted(m: Metrics, m': Metrics, asked: nat, unseen: nat) {
    && m'.repeatedQueries + unseen == m.repeatedQueries + asked
    && m' == m.(repeatedQueries := m'.repeatedQueries, limitHits := m.limitHits + if unseen > 0 then 1 else 0)
  }

  /** A turn that has nothing to search, and no answer or pages to fetch first, changes the counters and the
  subquestions. Requests that are new are refused because of the limit, and that is counted once. */
  lemma IdleTurn(c: LoopControl.Config, r: Run, t: Turn)
    requires r.exit == Running && t.actions.Some? && Barred(c, r, t.actions.value) && !OnlyAnswers(c, r, t)
    ensures var r', a := TakeTurn(c, r, t), t.actions.value; var unseen := |Novel(c, r.previous, a.specs)|;
      && Turned(r, r', a) && Unsearched(r, r') && r'.exit == Running && r'.rejections == r.rejections
      && r'.answer == (if a.answers == [] then r.answer else Some(a.answers[0]))
      && RefusalsCounted(r.metrics, r'.metrics, |a.specs|, unseen)
  {
    hide Act, SearchStage, Prepared, Requests, Barred, KnownAfter, LastDecision, Passes, Novel;
    var a := t.actions.value;
    var r1 := r.(turns := r.turns + 1, formatErrors := 0);
    assert r.(turns := r.turns + 1).(formatErrors := 0) == r1;
    CountersApart(c, r, r1, a);
    BarredIff(c, r1, a);
    ActUnfolds(c, r1, t, a);
    PreparedMeans(r1, a);
    PreparedFrame(r1, a);
    RefusedAre(c, Prepared(r1, a), a.specs);
  }

  lemma RefusedAre(c: LoopControl.Config, r: Run, specs: seq<Spec>)
    requires Requests(c, r, specs).allowed == []
    ensures var p, novel := Requests(c, r, specs), Novel(c, r.previous, specs);
      |p.repeated| == |specs| - |novel| && (p.overflow == [] <==> |novel| == 0)
  {
    hide Partition, Novel, EffectiveLimit;
    PartitionIsNovel(c, specs, r.previous, AtLimit(r.searchRounds, EffectiveLimit(c, |r.tasks|)));
  }

  // ---------------------------------------------------------------- turns without actions

  /** A turn without actions, when the run has not searched and would end here, is taken as one that asks the user's
  question. */
  lemma QuestionTurn(c: LoopControl.Config, r: Run, t: Turn)
    requires t.actions == None && c.autoSearchOnDeadend && r.searchRounds == 0 && c.questionSpecs != []
    requires r.formatErrors + 1 >= c.maxFormatErrors
    ensures TakeTurn(c, r, t)
         == TakeTurn(c, r, t.(actions := Some(Actions([], {}, c.questionSpecs, false, []))))
  {
    hide Act, HandleNoAction;
    var r2 := r.(turns := r.turns + 1).(formatErrors := 0);
    var a := Actions([], {}, c.questionSpecs, false, []);
    ActsAlike(c, r2, t, t.(actions := Some(a)), a);
  }

  /** What a turn does with its actions depends on its searches alone. */
  lemma ActsAlike(c: LoopControl.Config, r: Run, t: Turn, t': Turn, a: Actions)
    requires t' == t.(actions := t'.actions)
    ensures Act(c, r, t, a) == Act(c, r, t', a)
  {
    hide Act, SearchStage, Prepared, Requests, Gate;
    ActUnfolds(c, r, t, a);
    ActUnfolds(c, r, t', a);
    var r1 := Prepared(r, a);
    var p := Requests(c, r1, a.specs);
    StagesAlike(c, r1.(metrics := CountRefused(r1.metrics, p)), t, t', p.allowed);
  }

  lemma StagesAlike(c: LoopControl.Config, r: Run, t: Turn, t': Turn, allowed: seq<Spec>)
    requires t' == t.(actions := t'.actions)
    ensures SearchStage(c, r, t, allowed) == SearchStage(c, r, t', allowed)
  {
    hide ExecuteRound, ShouldContinue, Sufficient, LastLabels;
    RoundsAlike(c, r.(rejections := 0), t, t', allowed);
  }

  lemma RoundsAlike(c: LoopControl.Config, r: Run, t: Turn, t': Turn, allowed: seq<Spec>)
    requires t' == t.(actions := t'.actions)
    ensures ExecuteRound(c, r, t, allowed) == ExecuteRound(c, r, t', allowed)
  {
    hide TaskVerdicts, EvaluateRound, ToScore, CountEvidence, Rows, CountSearch, Reranks, Contexts, WithQueries, Clamp,
         NothingFound;
    RowsAlike(t, t', |allowed|);
    CountedAlike(c, r.metrics, t, t', |allowed|);
  }

  lemma RowsAlike(t: Turn, t': Turn, n: nat)
    requires t' == t.(actions := t'.actions)
    ensures forall b :: Rows(t, n, b) == Rows(t', n, b)
  {
  }

  lemma CountedAlike(c: LoopControl.Config, m: Metrics, t: Turn, t': Turn, n: nat)
    requires t' == t.(actions := t'.actions)
    ensures Reranks(c, t, n) == Reranks(c, t', n) && CountSearch(c, m, t, n) == CountSearch(c, m, t', n)
  {
    assert Reranks(c, t, n) == Reranks(c, t', n);
  }

  /** The exit of a turn without actions: at the limit of format errors, or when an answer could not be rejected; below
  the limit with insufficient evidence it counts as a rejected answer. */
  function SilentExit(c: LoopControl.Config, r: Run): Exit {
    if r.formatErrors + 1 >= c.maxFormatErrors then FormatErrorLimit
    else if Sufficient(r) || !c.requireSufficient || r.rejections >= c.maxAnswerRejections then NoAction
    else Running
  }

  /** What such a turn changes. */
  predicate Recovers(c: LoopControl.Config, r: Run, r': Run, forced: Option<string>) {
    var goesOn := r'.exit == Running;
    var forces := !goesOn && c.forceOnDeadend && r.answer == None;
    && r'.rejections == (if goesOn then r.rejections + 1 else r.rejections)
    && r'.forceTried == (r.forceTried || forces)
    && r'.turns == (if forces && r.rounds != [] then r.turns + 2 else r.turns + 1)
    && r'.answer == (if forces && r.rounds != [] then forced else r.answer)
    && r'.metrics == r.metrics.(
         formatErrorTurns := r.metrics.formatErrorTurns + 1,
         answerRejections := if goesOn then r.metrics.answerRejections + 1 else r.metrics.answerRejections,
         forcedFinal := r.metrics.forcedFinal || (forces && r.rounds != [] && forced.Some?))
  }

  /** Any other turn without actions leaves the evidence alone. If it ends the run, the answer that there is stays; if
  there is none, and there is evidence, and a forced answer is configured, that is asked for once. */
  lemma SilentTurn(c: LoopControl.Config, r: Run, t: Turn)
    requires r.exit == Running && t.actions == None
    requires !c.autoSearchOnDeadend || r.searchRounds > 0 || c.questionSpecs == []
             || r.formatErrors + 1 < c.maxFormatErrors
    ensures var r' := TakeTurn(c, r, t);
      && r'.exit == SilentExit(c, r) && r'.formatErrors == r.formatErrors + 1 && Recovers(c, r, r', t.forced)
      && Unsearched(r, r'.(forceTried := r.forceTried)) && r'.tasks == r.tasks && r'.statuses == r.statuses
      && r'.decision == r.decision
  {
    hide HandleNoAction, Sufficient, Act, SilentExit, Recovers;
    SilentSteps(c, r, t.forced);
  }

  lemma SilentSteps(c: LoopControl.Config, r: Run, forced: Option<string>)
    requires r.exit == Running
    ensures var r' := HandleNoAction(c, r.(turns := r.turns + 1), forced);
      && r'.exit == SilentExit(c, r) && r'.formatErrors == r.formatErrors + 1 && Recovers(c, r, r', forced)
      && Unsearched(r, r'.(forceTried := r.forceTried)) && r'.tasks == r.tasks && r'.statuses == r.statuses
      && r'.decision == r.decision
  {
    hide Sufficient, DeadEnd;
    var m := r.metrics.(formatErrorTurns := r.metrics.formatErrorTurns + 1);
    var r1 := r.(turns := r.turns + 1, formatErrors := r.formatErrors + 1, metrics := m);
    SufficientAlike(r, r1);
    DeadEndIs(c, r, r1, FormatErrorLimit, forced);
    DeadEndIs(c, r, r1, NoAction, forced);
  }

  lemma DeadEndIs(c: LoopControl.Config, r: Run, r1: Run, exit: Exit, forced: Option<string>)
    requires exit != Running
    requires r1 == r.(turns := r.turns + 1, formatErrors := r1.formatErrors,
      metrics := r.metrics.(formatErrorTurns := r.metrics.formatErrorTurns + 1))
    ensures var r' := DeadEnd(c, r1, exit, forced);
      && r'.exit == exit && r'.formatErrors == r1.formatErrors && Recovers(c, r, r', forced)
      && Unsearched(r, r'.(forceTried := r.forceTried)) && r'.tasks == r.tasks && r'.statuses == r.statuses
      && r'.decision == r.decision
  {
  }

  lemma SufficientAlike(r: Run, r': Run)
    requires r'.eval == r.eval && r'.tasks == r.tasks && r'.statuses == r.statuses
    ensures Sufficient(r') == Sufficient(r)
  {
  }
}
