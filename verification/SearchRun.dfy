/** The turn-by-turn machine of the search agent (`SearchAgentLoop.run`), on values.

What the model said in a turn and what the backends returned are inputs. Rows of
results come after the cache and the removal of repeated sources; pages, prompts and
tracing are left out. */
module SearchRun {
  import opened Text
  import opened Evidence
  import opened LoopControl
  import opened Citations

  datatype Decision = DecideAnswer | DecideSearch

  datatype Exit = Running | Answered | FormatErrorLimit | NoAction

  /** The tags of one turn, parsed: decisions in order, declared subquestions, search requests, whether pages are
  fetched, and the contents of the answer tags. */
  datatype Actions = Actions(
    decisions: seq<Option<Decision>>, declared: set<string>, specs: seq<Spec>, fetches: bool, answers: seq<string>)

  /** One generation: its actions, unless it had no recognised tag; the attributes of its search; the rows the
  backend finds and the reranker makes of them; and the answer a forced generation would give. */
  datatype Turn = Turn(
    actions: Option<Actions>, web: bool, rerank: bool,
    found: nat -> seq<Passage>, reranked: nat -> seq<Passage>, forced: Option<string>)

  datatype Metrics = Metrics(
    searchQueries: nat, web: nat, vdb: nat, rerankRequested: nat, rerankCalls: nat, rerankSkipped: nat,
    sufficientRounds: nat, insufficientRounds: nat, repeatedQueries: nat, limitHits: nat,
    directAnswers: nat, answerRejections: nat, formatErrorTurns: nat, forcedFinal: bool, plateauStop: bool,
    qualitySum: real, gainTotal: real, scoreFinal: real)

  const NO_METRICS := Metrics(0, 0, 0, 0, 0, 0, 0, 0, 0, 0, 0, 0, 0, false, false, 0.0, 0.0, 0.0)

  /** The state between turns. `executed` and `shown` are history: the batches of queries that were run, and the
  labels that were shown to the model with the passages they stood at. */
  datatype Run = Run(
    previous: seq<string>, searchRounds: nat, score: real, rounds: Rounds,
    tasks: set<string>, statuses: map<string, bool>, decision: Option<Decision>, eval: Option<RoundEval>,
    rejections: nat, formatErrors: nat, turns: nat, answer: Option<string>, forceTried: bool, exit: Exit,
    metrics: Metrics, executed: seq<seq<string>>, shown: set<(Label, Passage)>)

  const START := Run([], 0, 0.0, [], {}, map[], None, None, 0, 0, 0, None, false, Running, NO_METRICS, [], {})

  // ---------------------------------------------------------------- evidence

  function RowsOf(contexts: seq<SearchContext>): seq<seq<Passage>> {
    seq(|contexts|, i requires 0 <= i < |contexts| => contexts[i].results)
  }

  function TaskIds(contexts: seq<SearchContext>): set<string> {
    set x | x in contexts && x.taskId.Some? :: x.taskId.value
  }

  function OfTask(contexts: seq<SearchContext>, id: string): seq<SearchContext> {
    if contexts == [] then []
    else (if contexts[0].taskId == Some(id) then [contexts[0]] else []) + OfTask(contexts[1..], id)
  }

  /** `_evaluate_tasks`: each task by its own contexts, with the total relaxed to that of one query. */
  function TaskVerdicts(c: LoopControl.Config, contexts: seq<SearchContext>): map<string, bool> {
    var relaxed := c.evaluation.(minTotalResults := MaxInt(1, c.evaluation.minResultsPerQuery));
    map id | id in TaskIds(contexts) :: EvaluateRound(relaxed, RowsOf(OfTask(contexts, id))).sufficient
  }

  /** `_has_sufficient_evidence`. */
  predicate Sufficient(r: Run) {
    r.eval.Some? && r.eval.value.sufficient && forall id | id in r.tasks :: id in r.statuses && r.statuses[id]
  }

  // ---------------------------------------------------------------- one search round

  function Rows(t: Turn, n: nat, useReranked: bool): (rows: seq<seq<Passage>>)
    ensures |rows| == n
  {
    seq(n, i requires 0 <= i < n => if useReranked then t.reranked(i) else t.found(i))
  }

  predicate NothingFound(rows: seq<seq<Passage>>) {
    forall row | row in rows :: row == []
  }

  /** The reranker runs when asked for, configured, and some row has two results. */
  predicate Reranks(c: LoopControl.Config, t: Turn, n: nat) {
    t.rerank && c.hasReranker && exists i | 0 <= i < n :: |t.found(i)| >= 2
  }

  function CountSearch(c: LoopControl.Config, m: Metrics, t: Turn, n: nat): Metrics {
    m.(searchQueries := m.searchQueries + n,
       rerankRequested := m.rerankRequested + if t.rerank then 1 else 0,
       rerankCalls := m.rerankCalls + if Reranks(c, t, n) then 1 else 0,
       rerankSkipped := m.rerankSkipped + if t.rerank && !Reranks(c, t, n) then 1 else 0,
       web := m.web + if t.web then 1 else 0,
       vdb := m.vdb + if t.web then 0 else 1)
  }

  function CountEvidence(m: Metrics, eval: RoundEval, score: real): Metrics {
    m.(qualitySum := m.qualitySum + if eval.queries == [] then 0.0 else Fraction(eval.queries),
       sufficientRounds := m.sufficientRounds + if eval.sufficient then 1 else 0,
       insufficientRounds := m.insufficientRounds + if eval.sufficient then 0 else 1,
       gainTotal := m.gainTotal + if score > m.scoreFinal then score - m.scoreFinal else 0.0,
       scoreFinal := score)
  }

  function TasksOf(specs: seq<Spec>): seq<Option<string>> {
    seq(|specs|, i requires 0 <= i < |specs| => specs[i].0)
  }

  lemma SpecLengths(specs: seq<Spec>)
    ensures |QueriesOf(specs)| == |TasksOf(specs)| == |specs|
  {
  }

  /** `_execute_search_round`. */
  function ExecuteRound(c: LoopControl.Config, r: Run, t: Turn, allowed: seq<Spec>): Run {
    var queries, n := QueriesOf(allowed), |allowed|;
    var rows := Rows(t, n, Reranks(c, t, n));
    var r := r.(previous := WithQueries(r.previous, queries), searchRounds := r.searchRounds + 1,
                executed := r.executed + [queries], metrics := CountSearch(c, r.metrics, t, n));
    if NothingFound(rows) then
      r.(eval := None, metrics := r.metrics.(insufficientRounds := r.metrics.insufficientRounds + 1))
    else
      var contexts := Contexts(queries, rows, TasksOf(allowed));
      var eval := EvaluateRound(c.evaluation, RowsOf(contexts));
      var score := Clamp(ToScore(eval));
      r.(rounds := r.rounds + [contexts], score := score, eval := Some(eval),
         metrics := CountEvidence(r.metrics, eval, score), statuses := r.statuses + TaskVerdicts(c, contexts))
  }

  /** The labels of the last round with their passages, as the observation shows them. */
  function LastLabels(rounds: Rounds): set<(Label, Passage)> {
    if rounds == [] then {}
    else
      var n := |rounds|;
      set q, d | 1 <= q <= |rounds[n - 1]| && 1 <= d <= |rounds[n - 1][q - 1].results| ::
        (Label(n, q, d), rounds[n - 1][q - 1].results[d - 1])
  }

  /** `_run_search_stage`. After a plateau the round is kept but its observation is not shown. */
  function SearchStage(c: LoopControl.Config, r: Run, t: Turn, allowed: seq<Spec>): Run {
    var r' := ExecuteRound(c, r.(rejections := 0), t, allowed);
    if ShouldContinue(c, r'.searchRounds, |r'.tasks|, Sufficient(r'), r.score, r'.score) == Plateau
    then r'.(metrics := r'.metrics.(plateauStop := true))
    else if |r'.rounds| > |r.rounds| then r'.(shown := r'.shown + LastLabels(r'.rounds))
    else r'
  }

  // ---------------------------------------------------------------- answers and dead ends

  /** `_force_final_answer`: nothing without evidence. */
  function Forced(r: Run, forced: Option<string>): Run {
    if r.rounds == [] then r
    else
      var r := r.(turns := r.turns + 1, answer := forced);
      if forced.Some? then r.(metrics := r.metrics.(forcedFinal := true)) else r
  }

  function DeadEnd(c: LoopControl.Config, r: Run, exit: Exit, forced: Option<string>): Run {
    var r := r.(exit := exit);
    if c.forceOnDeadend && r.answer.None? then Forced(r.(forceTried := true), forced) else r
  }

  /** `_handle_no_action`. */
  function HandleNoAction(c: LoopControl.Config, r: Run, forced: Option<string>): Run {
    var r := r.(formatErrors := r.formatErrors + 1,
                metrics := r.metrics.(formatErrorTurns := r.metrics.formatErrorTurns + 1));
    if r.formatErrors >= c.maxFormatErrors then DeadEnd(c, r, FormatErrorLimit, forced)
    else if c.requireSufficient && !Sufficient(r) && r.rejections < c.maxAnswerRejections then
      r.(rejections := r.rejections + 1, metrics := r.metrics.(answerRejections := r.metrics.answerRejections + 1))
    else DeadEnd(c, r, NoAction, forced)
  }

  predicate AnswersDirectly(c: LoopControl.Config, r: Run) {
    c.allowInternalAnswer && r.searchRounds == 0 && r.decision == Some(DecideAnswer) && r.tasks == {}
  }

  /** `_apply_answer_gate`. */
  function Gate(c: LoopControl.Config, r: Run): Run {
    if AnswersDirectly(c, r) then
      r.(exit := Answered, metrics := r.metrics.(directAnswers := r.metrics.directAnswers + 1))
    else match FinalAnswer(c, Sufficient(r), r.rejections)
      case Accept => r.(exit := Answered)
      case Force => r.(exit := Answered, metrics := r.metrics.(forcedFinal := true))
      case Reject => r.(answer := None, rejections := r.rejections + 1,
                        metrics := r.metrics.(answerRejections := r.metrics.answerRejections + 1))
  }

  // ---------------------------------------------------------------- one turn

  /** Declared subquestions start uncovered, even if they were covered before. */
  function Declare(r: Run, a: Actions): Run {
    r.(decision := if a.decisions == [] then r.decision else a.decisions[|a.decisions| - 1],
       tasks := r.tasks + a.declared,
       statuses := r.statuses + map id | id in a.declared :: false)
  }

  /** `_register_implicit_tasks`. */
  function Implicit(r: Run, specs: seq<Spec>): Run {
    var ids := set s | s in specs && s.0.Some? && s.0.value !in r.tasks :: s.0.value;
    r.(tasks := r.tasks + ids, statuses := r.statuses + map id | id in ids :: false)
  }

  /** The requests of the turn, sorted against what was searched and the limit for the subquestions now known. */
  function Requests(c: LoopControl.Config, r: Run, specs: seq<Spec>): Split {
    Partition(c, specs, r.previous, AtLimit(r.searchRounds, EffectiveLimit(c, |r.tasks|)))
  }

  function CountRefused(m: Metrics, p: Split): Metrics {
    m.(repeatedQueries := m.repeatedQueries + |p.repeated|,
       limitHits := m.limitHits + if p.overflow == [] then 0 else 1)
  }

  /** A turn with actions. */
  function Act(c: LoopControl.Config, r: Run, t: Turn, a: Actions): Run {
    var r := Implicit(Declare(r, a), a.specs);
    var p := Requests(c, r, a.specs);
    var r := if a.answers == [] then r else r.(answer := Some(a.answers[0]));
    if a.answers != [] && p.allowed == [] && !a.fetches then Gate(c, r)
    else
      var r := r.(metrics := CountRefused(r.metrics, p));
      if p.allowed == [] then r else SearchStage(c, r, t, p.allowed)
  }

  /** At the format-error dead end of a run that has not searched, the loop searches the question itself. */
  predicate SearchesQuestion(c: LoopControl.Config, r: Run) {
    c.autoSearchOnDeadend && r.searchRounds == 0 && c.questionSpecs != [] && r.formatErrors + 1 >= c.maxFormatErrors
  }

  function TakeTurn(c: LoopControl.Config, r: Run, t: Turn): Run {
    var r := r.(turns := r.turns + 1);
    if t.actions.Some? then Act(c, r.(formatErrors := 0), t, t.actions.value)
    else if SearchesQuestion(c, r) then
      Act(c, r.(formatErrors := 0), t, Actions([], {}, c.questionSpecs, false, []))
    else HandleNoAction(c, r, t.forced)
  }

  /** The loop over the turns, until one breaks out of it. */
  function Loop(c: LoopControl.Config, r: Run, turns: seq<Turn>): Run
    decreases |turns|
  {
    if turns == [] || r.exit != Running then r else Loop(c, TakeTurn(c, r, turns[0]), turns[1..])
  }

  /** The forced answer after the loop. */
  function Finish(c: LoopControl.Config, r: Run, forced: Option<string>): Run {
    if c.forceOnDeadend && r.answer.None? && !r.forceTried then Forced(r, forced) else r
  }

  /** `search_quality_score`. */
  function Quality(r: Run): real {
    if r.searchRounds == 0 then 0.0 else r.metrics.qualitySum / r.searchRounds as real
  }
}
