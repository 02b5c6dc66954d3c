/** The two control decisions of the search loop, the partition of its requests, and its retrieval state
(`loop_controller.py`, `planner.py`, `state.py`). */
module LoopControl {
  import opened Text
  import Evidence

  datatype Config = Config(
    maxTurns: int, maxSearchLimit: Option<int>, budgetPerSubquestion: int, searchLimitCap: int,
    plateauMinGain: Option<real>, plateauRequiresSufficient: bool,
    requireSufficient: bool, maxAnswerRejections: int, maxFormatErrors: int,
    allowInternalAnswer: bool, forceOnDeadend: bool, autoSearchOnDeadend: bool, hasReranker: bool,
    evaluation: Evidence.Config,
    /** The search that the user's question makes when the loop issues it; empty without a question. */
    questionSpecs: seq<Spec>,
    /** `_normalize_query`: any function. */
    norm: string -> string)

  function MaxInt(a: int, b: int): int {
    if a >= b then a else b
  }

  function MinInt(a: int, b: int): int {
    if a <= b then a else b
  }

  /** An absent or zero limit stands for the number of turns. */
  function Base(c: Config): int {
    if c.maxSearchLimit.None? || c.maxSearchLimit.value == 0 then c.maxTurns else c.maxSearchLimit.value
  }

  function EffectiveLimit(c: Config, subquestions: nat): int {
    var bonus := c.budgetPerSubquestion * MaxInt(0, subquestions - 1);
    MaxInt(Base(c), MinInt(Base(c) + bonus, c.searchLimitCap))
  }

  /** The limit stays between the base and the cap, and more subquestions never lower it. */
  lemma LimitGrows(c: Config, m: nat, n: nat)
    requires m <= n
    ensures Base(c) <= EffectiveLimit(c, m) <= EffectiveLimit(c, n) <= MaxInt(Base(c), c.searchLimitCap)
  {
    var a, b := MaxInt(0, m - 1), MaxInt(0, n - 1);
    if c.budgetPerSubquestion >= 0 {
      MulGrows(c.budgetPerSubquestion, a, b);
    } else {
      MulGrows(-c.budgetPerSubquestion, 0, a);
      MulGrows(-c.budgetPerSubquestion, 0, b);
    }
  }

  /** One subquestion has the base, which is the configured limit or the number of turns; each further one adds its
  budget, up to the cap, and never takes any away. */
  lemma LimitExact(c: Config, n: nat)
    ensures Base(c) == match c.maxSearchLimit
      case Some(l) => if l == 0 then c.maxTurns else l
      case None => c.maxTurns
    ensures n <= 1 ==> EffectiveLimit(c, n) == Base(c)
    ensures n >= 1 ==> var all := Base(c) + c.budgetPerSubquestion * (n - 1);
      && (Base(c) <= all <= c.searchLimitCap ==> EffectiveLimit(c, n) == all)
      && (Base(c) <= c.searchLimitCap <= all ==> EffectiveLimit(c, n) == c.searchLimitCap)
      && (all <= Base(c) || c.searchLimitCap <= Base(c) ==> EffectiveLimit(c, n) == Base(c))
  {
    if n >= 1 { assert MaxInt(0, n - 1) == n - 1; }
  }

  lemma MulGrows(k: int, a: nat, b: nat)
    requires k >= 0 && a <= b
    ensures 0 <= k * a <= k * b && -k * a <= 0 && -k * b <= 0
  {
    assert k * b - k * a == k * (b - a);
  }

  datatype StopReason = Continue | BudgetExhausted | Plateau

  function ShouldContinue(c: Config, roundsUsed: nat, subquestions: nat, sufficient: bool,
                          prev: real, curr: real): StopReason
  {
    if roundsUsed >= EffectiveLimit(c, subquestions) then BudgetExhausted
    else if c.plateauMinGain.Some? && curr - prev < c.plateauMinGain.value
            && (sufficient || !c.plateauRequiresSufficient)
    then Plateau
    else Continue
  }

  datatype Verb = Accept | Reject | Force

  function FinalAnswer(c: Config, sufficient: bool, rejections: nat): Verb {
    if sufficient || !c.requireSufficient then Accept
    else if rejections >= c.maxAnswerRejections then Force
    else Reject
  }

  // ---------------------------------------------------------------- Planner.partition_search_requests

  /** A request: the subquestion it belongs to, if any, and the query. */
  type Spec = (Option<string>, string)

  function Norms(c: Config, queries: seq<string>): set<string> {
    set q | q in queries :: c.norm(q)
  }

  function QueriesOf(specs: seq<Spec>): seq<string> {
    seq(|specs|, i requires 0 <= i < |specs| => specs[i].1)
  }

  function AtLimit(rounds: nat, limit: int): bool {
    limit > 0 && rounds >= limit
  }

  datatype Split = Split(allowed: seq<Spec>, repeated: seq<string>, overflow: seq<string>)

  function Partition(c: Config, specs: seq<Spec>, previous: seq<string>, atLimit: bool): Split {
    if specs == [] then Split([], [], [])
    else
      var p, s := Partition(c, specs[..|specs| - 1], previous, atLimit), specs[|specs| - 1];
      if c.norm(s.1) in Norms(c, previous) then p.(repeated := p.repeated + [s.1])
      else if atLimit then p.(overflow := p.overflow + [s.1])
      else p.(allowed := p.allowed + [s])
  }

  method PartitionSearchRequests(c: Config, specs: seq<Spec>, state: AgentState, limit: int) returns (split: Split)
    ensures split == Partition(c, specs, state.previousQueries, AtLimit(state.searchRounds, limit))
  {
    var seen := Norms(c, state.previousQueries);
    var atLimit := AtLimit(state.searchRounds, limit);
    var allowed: seq<Spec>, repeated: seq<string>, overflow: seq<string> := [], [], [];
    for i := 0 to |specs|
      invariant Split(allowed, repeated, overflow) == Partition(c, specs[..i], state.previousQueries, atLimit)
    {
      assert specs[..i + 1][..i] == specs[..i];
      if c.norm(specs[i].1) in seen {
        repeated := repeated + [specs[i].1];
      } else if atLimit {
        overflow := overflow + [specs[i].1];
      } else {
        allowed := allowed + [specs[i]];
      }
    }
    assert specs[..|specs|] == specs;
    split := Split(allowed, repeated, overflow);
  }

  lemma {:induction false} PartitionConserves(c: Config, specs: seq<Spec>, previous: seq<string>, atLimit: bool)
    ensures var p := Partition(c, specs, previous, atLimit);
      multiset(QueriesOf(specs)) == multiset(QueriesOf(p.allowed)) + multiset(p.repeated) + multiset(p.overflow)
  {
    hide Norms, QueriesOf;
    if specs == [] {
      NoQueries();
    } else {
      var init, s := specs[..|specs| - 1], specs[|specs| - 1];
      PartitionConserves(c, init, previous, atLimit);
      assert specs == init + [s];
      QueriesGrow(init, s);
      QueriesGrow(Partition(c, init, previous, atLimit).allowed, s);
    }
  }

  lemma NoQueries()
    ensures QueriesOf([]) == []
  {
  }

  ghost predicate Classified(c: Config, specs: seq<Spec>, previous: seq<string>, atLimit: bool, p: Split) {
    && (forall s | s in p.allowed :: s in specs && c.norm(s.1) !in Norms(c, previous))
    && (forall q | q in p.repeated :: c.norm(q) in Norms(c, previous))
    && (forall q | q in p.overflow :: c.norm(q) !in Norms(c, previous))
    && (if atLimit then p.allowed == [] else p.overflow == [])
  }

  lemma {:induction false} PartitionClassifies(c: Config, specs: seq<Spec>, previous: seq<string>, atLimit: bool)
    ensures Classified(c, specs, previous, atLimit, Partition(c, specs, previous, atLimit))
  {
    hide Norms;
    if specs != [] {
      PartitionClassifies(c, specs[..|specs| - 1], previous, atLimit);
      assert specs == specs[..|specs| - 1] + [specs[|specs| - 1]];
    }
  }

  /** Every request goes to exactly one of the three lists: repeated when its normal form has been searched,
  otherwise overflow at the limit and allowed below it. */
  lemma PartitionSplits(c: Config, specs: seq<Spec>, previous: seq<string>, atLimit: bool)
    ensures var p := Partition(c, specs, previous, atLimit);
      && multiset(QueriesOf(specs)) == multiset(QueriesOf(p.allowed)) + multiset(p.repeated) + multiset(p.overflow)
      && Classified(c, specs, previous, atLimit, p)
  {
    hide Partition, Classified;
    PartitionConserves(c, specs, previous, atLimit);
    PartitionClassifies(c, specs, previous, atLimit);
  }

  lemma QueriesGrow(specs: seq<Spec>, s: Spec)
    ensures QueriesOf(specs + [s]) == QueriesOf(specs) + [s.1]
  {
  }

  // ---------------------------------------------------------------- AgentState

  /** The list with each query added that it does not hold yet. */
  function WithQueries(previous: seq<string>, queries: seq<string>): seq<string> {
    if queries == [] then previous
    else
      var p, q := WithQueries(previous, queries[..|queries| - 1]), queries[|queries| - 1];
      if q in p then p else p + [q]
  }

  lemma {:induction false} WithQueriesHolds(previous: seq<string>, queries: seq<string>)
    ensures forall q :: q in WithQueries(previous, queries) <==> q in previous || q in queries
  {
    if queries != [] {
      WithQueriesHolds(previous, queries[..|queries| - 1]);
      assert queries == queries[..|queries| - 1] + [queries[|queries| - 1]];
    }
  }

  /** Read from the front: a query is added if it is not there. */
  lemma {:induction false} WithQueriesReads(previous: seq<string>, q: string, rest: seq<string>)
    ensures WithQueries(previous, []) == previous
    ensures WithQueries(previous, [q] + rest) == WithQueries(if q in previous then previous else previous + [q], rest)
    decreases |rest|
  {
    var all := [q] + rest;
    if rest == [] {
      assert all[..0] == [] && all == [q];
    } else {
      assert all[..|rest|] == [q] + rest[..|rest| - 1] && all[|rest|] == rest[|rest| - 1];
      WithQueriesReads(previous, q, rest[..|rest| - 1]);
    }
  }

  class AgentState {
    var previousQueries: seq<string>
    var retrievedDocs: seq<Evidence.Passage>
    var evidenceScore: real
    var searchRounds: nat

    constructor ()
      ensures previousQueries == [] && retrievedDocs == [] && evidenceScore == 0.0 && searchRounds == 0
    {
      previousQueries, retrievedDocs, evidenceScore, searchRounds := [], [], 0.0, 0;
    }

    method RecordSearchRound(queries: seq<string>, docs: seq<Evidence.Passage>)
      modifies this
      ensures previousQueries == WithQueries(old(previousQueries), queries)
      ensures retrievedDocs == old(retrievedDocs) + docs
      ensures searchRounds == old(searchRounds) + 1 && evidenceScore == old(evidenceScore)
    {
      for i := 0 to |queries|
        invariant previousQueries == WithQueries(old(previousQueries), queries[..i])
        invariant retrievedDocs == old(retrievedDocs) && searchRounds == old(searchRounds)
        invariant evidenceScore == old(evidenceScore)
      {
        assert queries[..i + 1][..i] == queries[..i];
        if queries[i] !in previousQueries { previousQueries := previousQueries + [queries[i]]; }
      }
      assert queries[..|queries|] == queries;
      retrievedDocs := retrievedDocs + docs;
      searchRounds := searchRounds + 1;
    }

    method SetEvidence(score: real)
      modifies this`evidenceScore
      ensures evidenceScore == Evidence.Clamp(score)
    {
      evidenceScore := if score < 0.0 then 0.0 else if score > 1.0 then 1.0 else score;
    }
  }
}
