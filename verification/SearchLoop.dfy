/** The search agent loop as it runs: the handlers of `SearchAgentLoop` over the objects they update. */
module SearchLoop {
  import opened Text
  import opened Evidence
  import opened LoopControl
  import opened Citations
  import opened SearchRun
  import SearchInvariants

  class SearchAgentLoop {
    const c: LoopControl.Config
    const state: AgentState
    const ctx: AgentContext

    var activeTasks: set<string>
    var taskStatuses: map<string, bool>
    var latestDecision: Option<Decision>
    var latestEvaluation: Option<RoundEval>
    var consecutiveRejections: nat
    var consecutiveFormatErrors: nat
    var numTurns: nat
    var finalAnswer: Option<string>
    var forcedAnswerAttempted: bool
    var exit: Exit
    var metrics: Metrics
    /** History for the specification. */
    ghost var executed: seq<seq<string>>
    ghost var shown: set<(Label, Passage)>

    ghost function Model(): Run
      reads this, state, ctx
    {
      Run(state.previousQueries, state.searchRounds, state.evidenceScore, ctx.rounds,
          activeTasks, taskStatuses, latestDecision, latestEvaluation,
          consecutiveRejections, consecutiveFormatErrors, numTurns, finalAnswer, forcedAnswerAttempted, exit,
          metrics, executed, shown)
    }

    constructor (c: LoopControl.Config)
      ensures Model() == START && this.c == c && fresh(state) && fresh(ctx)
    {
      this.c := c;
      state := new AgentState();
      ctx := new AgentContext();
      activeTasks, taskStatuses, latestDecision, latestEvaluation := {}, map[], None, None;
      consecutiveRejections, consecutiveFormatErrors, numTurns := 0, 0, 0;
      finalAnswer, forcedAnswerAttempted, exit, metrics := None, false, Running, NO_METRICS;
      executed, shown := [], {};
    }

    /** The retrieval part of a round: search, rerank, remember. */
    method Retrieve(t: Turn, queries: seq<string>) returns (rows: seq<seq<Passage>>)
      modifies this`metrics, this`executed, state
      ensures rows == Rows(t, |queries|, Reranks(c, t, |queries|))
      ensures state.previousQueries == WithQueries(old(state.previousQueries), queries)
      ensures state.searchRounds == old(state.searchRounds) + 1 && state.evidenceScore == old(state.evidenceScore)
      ensures executed == old(executed) + [queries] && metrics == CountSearch(c, old(metrics), t, |queries|)
    {
      hide WithQueries, Rows;
      var n := |queries|;
      metrics := metrics.(searchQueries := metrics.searchQueries + n);
      rows := Rows(t, n, false);
      if t.rerank { rows := Rerank(t, n, rows); }
      state.RecordSearchRound(queries, Flatten(rows));
      executed := executed + [queries];
      if t.web {
        metrics := metrics.(web := metrics.web + 1);
      } else {
        metrics := metrics.(vdb := metrics.vdb + 1);
      }
    }

    method Rerank(t: Turn, n: nat, found: seq<seq<Passage>>) returns (rows: seq<seq<Passage>>)
      requires t.rerank && found == Rows(t, n, false)
      modifies this`metrics
      ensures rows == Rows(t, n, Reranks(c, t, n))
      ensures var m := old(metrics); var ran := Reranks(c, t, n);
        metrics == m.(rerankRequested := m.rerankRequested + 1,
                      rerankCalls := m.rerankCalls + if ran then 1 else 0,
                      rerankSkipped := m.rerankSkipped + if ran then 0 else 1)
    {
      hide Rows;
      rows := found;
      metrics := metrics.(rerankRequested := metrics.rerankRequested + 1);
      if c.hasReranker && exists i | 0 <= i < n :: |t.found(i)| >= 2 {
        rows := Rows(t, n, true);
        metrics := metrics.(rerankCalls := metrics.rerankCalls + 1);
      } else {
        metrics := metrics.(rerankSkipped := metrics.rerankSkipped + 1);
      }
    }

    method ExecuteSearchRound(t: Turn, allowed: seq<Spec>)
      modifies this, state, ctx
      ensures Model() == ExecuteRound(c, old(Model()), t, allowed)
    {
      hide TaskVerdicts, EvaluateRound, ToScore, Clamp, RowsOf, Contexts, WithQueries, Rows, Reranks, CountSearch,
           CountEvidence, QueriesOf, TasksOf;
      SpecLengths(allowed);
      var queries := QueriesOf(allowed);
      var rows := Retrieve(t, queries);
      if NothingFound(rows) {
        metrics := metrics.(insufficientRounds := metrics.insufficientRounds + 1);
        latestEvaluation := None;
      } else {
        Judge(queries, rows, TasksOf(allowed));
      }
    }

    /** The evidence part of a round that found something. */
    method Judge(queries: seq<string>, rows: seq<seq<Passage>>, taskIds: seq<Option<string>>)
      requires |queries| == |rows| == |taskIds|
      modifies this`latestEvaluation, this`metrics, this`taskStatuses, state`evidenceScore, ctx`rounds
      ensures var contexts := Contexts(queries, rows, taskIds);
        var eval := EvaluateRound(c.evaluation, RowsOf(contexts)); var score := Clamp(ToScore(eval));
        && ctx.rounds == old(ctx.rounds) + [contexts] && state.evidenceScore == score
        && latestEvaluation == Some(eval) && metrics == CountEvidence(old(metrics), eval, score)
        && taskStatuses == old(taskStatuses) + TaskVerdicts(c, contexts)
    {
      hide TaskVerdicts, EvaluateRound, ToScore, Clamp, RowsOf, Contexts, Fraction;
      var contexts := ctx.AddRound(queries, rows, taskIds);
      var eval := EvaluateRound(c.evaluation, RowsOf(contexts));
      state.SetEvidence(ToScore(eval));
      if eval.queries != [] {
        metrics := metrics.(qualitySum := metrics.qualitySum + Fraction(eval.queries));
      }
      if eval.sufficient {
        metrics := metrics.(sufficientRounds := metrics.sufficientRounds + 1);
      } else {
        metrics := metrics.(insufficientRounds := metrics.insufficientRounds + 1);
      }
      var gain := state.evidenceScore - metrics.scoreFinal;
      metrics := metrics.(gainTotal := metrics.gainTotal + if gain > 0.0 then gain else 0.0);
      metrics := metrics.(scoreFinal := state.evidenceScore);
      taskStatuses := taskStatuses + TaskVerdicts(c, contexts);
      latestEvaluation := Some(eval);
    }

    /** `_has_sufficient_evidence`. */
    method HasSufficientEvidence() returns (b: bool)
      ensures b == Sufficient(Model())
    {
      b := latestEvaluation.Some? && latestEvaluation.value.sufficient
        && forall id | id in activeTasks :: id in taskStatuses && taskStatuses[id];
    }

    method RunSearchStage(t: Turn, allowed: seq<Spec>) returns (plateau: bool)
      modifies this, state, ctx
      ensures Model() == SearchStage(c, old(Model()), t, allowed)
    {
      hide ExecuteRound, ShouldContinue, Sufficient, LastLabels;
      consecutiveRejections := 0;
      var prev := state.evidenceScore;
      ghost var rounds := ctx.rounds;
      ghost var before := Model();
      ExecuteSearchRound(t, allowed);
      SearchInvariants.ExecuteFrame(c, before, t, allowed);
      var sufficient := HasSufficientEvidence();
      var reason := ShouldContinue(c, state.searchRounds, |activeTasks|, sufficient, prev, state.evidenceScore);
      if reason == Plateau {
        metrics := metrics.(plateauStop := true);
        return true;
      }
      if |ctx.rounds| > |rounds| { shown := shown + LastLabels(ctx.rounds); }
      return false;
    }

    method ForceFinalAnswer(forced: Option<string>)
      modifies this
      ensures Model() == SearchRun.Forced(old(Model()), forced)
    {
      if ctx.rounds == [] { return; }
      numTurns := numTurns + 1;
      finalAnswer := forced;
      if forced.Some? { metrics := metrics.(forcedFinal := true); }
    }

    method LeaveAtDeadEnd(reason: Exit, forced: Option<string>)
      modifies this
      ensures Model() == DeadEnd(c, old(Model()), reason, forced)
    {
      exit := reason;
      if c.forceOnDeadend && finalAnswer.None? {
        forcedAnswerAttempted := true;
        ForceFinalAnswer(forced);
      }
    }

    method HandleNoAction(forced: Option<string>)
      modifies this
      ensures Model() == SearchRun.HandleNoAction(c, old(Model()), forced)
    {
      hide DeadEnd, Sufficient;
      consecutiveFormatErrors := consecutiveFormatErrors + 1;
      metrics := metrics.(formatErrorTurns := metrics.formatErrorTurns + 1);
      if consecutiveFormatErrors >= c.maxFormatErrors {
        LeaveAtDeadEnd(FormatErrorLimit, forced);
        return;
      }
      var sufficient := HasSufficientEvidence();
      if c.requireSufficient && !sufficient && consecutiveRejections < c.maxAnswerRejections {
        consecutiveRejections := consecutiveRejections + 1;
        metrics := metrics.(answerRejections := metrics.answerRejections + 1);
        return;
      }
      LeaveAtDeadEnd(NoAction, forced);
    }

    method ApplyAnswerGate()
      modifies this
      ensures Model() == Gate(c, old(Model()))
    {
      hide Sufficient;
      if c.allowInternalAnswer && state.searchRounds == 0 && latestDecision == Some(DecideAnswer) && activeTasks == {} {
        metrics := metrics.(directAnswers := metrics.directAnswers + 1);
        exit := Answered;
        return;
      }
      var sufficient := HasSufficientEvidence();
      match FinalAnswer(c, sufficient, consecutiveRejections) {
        case Accept =>
          exit := Answered;
        case Force =>
          metrics := metrics.(forcedFinal := true);
          exit := Answered;
        case Reject =>
          metrics := metrics.(answerRejections := metrics.answerRejections + 1);
          finalAnswer := None;
          consecutiveRejections := consecutiveRejections + 1;
      }
    }

    /** The decisions and the subquestions of a turn. */
    method Register(a: Actions)
      modifies this`latestDecision, this`activeTasks, this`taskStatuses, ctx`tasks
      ensures Model() == Declare(old(Model()), a)
    {
      for i := 0 to |a.decisions|
        invariant latestDecision == if i == 0 then old(latestDecision) else a.decisions[i - 1]
        modifies this`latestDecision
      {
        latestDecision := a.decisions[i];
      }
      if a.declared != {} {
        activeTasks := activeTasks + a.declared;
        taskStatuses := taskStatuses + map id | id in a.declared :: false;
        ctx.RegisterTasks(a.declared);
      }
    }

    /** `_register_implicit_tasks`. */
    method RegisterImplicitTasks(specs: seq<Spec>)
      modifies this`activeTasks, this`taskStatuses, ctx`tasks
      ensures Model() == Implicit(old(Model()), specs)
    {
      var implicit := set s | s in specs && s.0.Some? && s.0.value !in activeTasks :: s.0.value;
      if implicit != {} {
        activeTasks := activeTasks + implicit;
        taskStatuses := taskStatuses + map id | id in implicit :: false;
        ctx.RegisterTasks(implicit);
      }
    }

    method ActOn(t: Turn, a: Actions)
      modifies this, state, ctx
      ensures Model() == Act(c, old(Model()), t, a)
    {
      hide Declare, Implicit, Partition, Gate, SearchStage, EffectiveLimit, AtLimit, QueriesOf;
      Register(a);
      RegisterImplicitTasks(a.specs);
      var split := PartitionSearchRequests(c, a.specs, state, EffectiveLimit(c, |activeTasks|));
      if a.answers != [] { finalAnswer := Some(a.answers[0]); }
      if a.answers != [] && split.allowed == [] && !a.fetches {
        ApplyAnswerGate();
        return;
      }
      CountRefused(split);
      if split.allowed != [] { var _ := RunSearchStage(t, split.allowed); }
    }

    method CountRefused(split: Split)
      modifies this`metrics
      ensures metrics == SearchRun.CountRefused(old(metrics), split)
    {
      if split.repeated != [] {
        metrics := metrics.(repeatedQueries := metrics.repeatedQueries + |split.repeated|);
      }
      if split.overflow != [] {
        metrics := metrics.(limitHits := metrics.limitHits + 1);
      }
    }

    /** One pass of the loop: a turn without actions goes to recovery, unless the loop searches the question. */
    method TakeTurn(t: Turn)
      modifies this, state, ctx
      ensures Model() == SearchRun.TakeTurn(c, old(Model()), t)
    {
      hide Act, SearchRun.HandleNoAction;
      numTurns := numTurns + 1;
      var actions := t.actions;
      if actions.None? {
        if c.autoSearchOnDeadend && state.searchRounds == 0 && c.questionSpecs != []
           && consecutiveFormatErrors + 1 >= c.maxFormatErrors {
          actions := Some(Actions([], {}, c.questionSpecs, false, []));
        } else {
          HandleNoAction(t.forced);
          return;
        }
      }
      consecutiveFormatErrors := 0;
      ActOn(t, actions.value);
    }

    /** A whole run over the generations that the model would make. */
    method RunTurns(turns: seq<Turn>, forced: Option<string>)
      requires Model() == START && c.maxTurns <= |turns|
      modifies this, state, ctx
      ensures Model() == Finish(c, Loop(c, START, Taken(c, turns)), forced)
      ensures c.maxTurns >= 0 ==> numTurns <= c.maxTurns + 1
    {
      hide SearchRun.TakeTurn, Quality, SearchInvariants.Ledger, SearchInvariants.History, SearchInvariants.Budget,
           SearchInvariants.Resolves, SearchInvariants.Justified;
      ghost var all := Taken(c, turns);
      SearchInvariants.FinishedRun(c, all, forced);
      var i := 0;
      while i < c.maxTurns && exit == Running
        invariant 0 <= i <= |all|
        invariant Loop(c, Model(), all[i..]) == Loop(c, START, all)
        decreases c.maxTurns - i
      {
        assert all[i..][0] == turns[i] && all[i..][1..] == all[i + 1..];
        TakeTurn(turns[i]);
        i := i + 1;
      }
      if c.forceOnDeadend && finalAnswer.None? && !forcedAnswerAttempted { ForceFinalAnswer(forced); }
    }
  }

  function Taken(c: LoopControl.Config, turns: seq<Turn>): seq<Turn>
    requires c.maxTurns <= |turns|
  {
    turns[..MaxInt(0, c.maxTurns)]
  }
}
