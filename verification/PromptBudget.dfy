/** Fitting a conversation into a token budget (`_fit_messages_to_budget` and its callers).

The tokenizer is three arbitrary functions; counts are all that is known of tokens. */
module PromptBudget {
  datatype Role = System | User | Assistant

  datatype Message = Message(role: Role, content: string)

  datatype Tokenizer = Tokenizer(render: seq<Message> -> seq<int>, encode: string -> seq<int>)

  /** `_estimate_message_tokens`: the content, and the render of an empty message as overhead. */
  function Estimate(tk: Tokenizer, m: Message): nat {
    |tk.encode(m.content)| + |tk.render([Message(User, "")])|
  }

  function Total(tk: Tokenizer, ms: seq<Message>): nat {
    if ms == [] then 0 else Estimate(tk, ms[0]) + Total(tk, ms[1..])
  }

  /** The leading system message, if there is one. */
  function Lead(ms: seq<Message>): (lead: seq<Message>)
    ensures |lead| <= 1 && lead <= ms
  {
    if ms != [] && ms[0].role == System then ms[..1] else []
  }

  function Rest(ms: seq<Message>): seq<Message> {
    ms[|Lead(ms)|..]
  }

  /** The system message and the newest `keep` of the others. */
  function Newest(ms: seq<Message>, keep: nat): seq<Message>
    requires keep <= |Rest(ms)|
  {
    Lead(ms) + Rest(ms)[|Rest(ms)| - keep..]
  }

  predicate Fits(tk: Tokenizer, budget: int, ms: seq<Message>) {
    budget <= 0 || |tk.render(ms)| <= budget
  }

  /** How many messages the backward walk over the estimates keeps, having kept `keep` at the cost `used`. */
  function KeepFrom(tk: Tokenizer, rest: seq<Message>, budget: int, keep: nat, used: nat): (k: nat)
    requires keep <= |rest|
    ensures keep <= k <= |rest|
    decreases |rest| - keep
  {
    if keep == |rest| then keep
    else
      var cost := Estimate(tk, rest[|rest| - keep - 1]);
      if used + cost > budget then keep else KeepFrom(tk, rest, budget, keep + 1, used + cost)
  }

  function Keep(tk: Tokenizer, ms: seq<Message>, budget: int): (k: nat)
    requires Rest(ms) != []
    ensures 1 <= k <= |Rest(ms)|
  {
    var rest := Rest(ms);
    KeepFrom(tk, rest, budget, 1, Total(tk, Lead(ms)) + Estimate(tk, rest[|rest| - 1]))
  }

  /** The correction: drop the oldest kept message while the render is too long and two are left. */
  function Corrected(tk: Tokenizer, ms: seq<Message>, budget: int, keep: nat): (k: nat)
    requires 1 <= keep <= |Rest(ms)|
    ensures 1 <= k <= keep
    ensures Fits(tk, budget, Newest(ms, k)) || k == 1
    ensures forall j | k < j <= keep :: !Fits(tk, budget, Newest(ms, j))
  {
    if Fits(tk, budget, Newest(ms, keep)) || keep == 1 then keep else Corrected(tk, ms, budget, keep - 1)
  }

  /** The messages that are kept. */
  function Kept(tk: Tokenizer, ms: seq<Message>, budget: int): seq<Message> {
    if Fits(tk, budget, ms) || |Rest(ms)| <= 1 then ms
    else Newest(ms, Corrected(tk, ms, budget, Keep(tk, ms, budget)))
  }

  /** `full_ids[-n:]`. */
  function Tail(ids: seq<int>, n: nat): seq<int> {
    if n == 0 || n >= |ids| then ids else ids[|ids| - n..]
  }

  /** `_crop_prompt_ids`. */
  function Crop(ids: seq<int>, system: seq<int>, budget: int): (r: seq<int>)
    ensures |r| == if budget <= 0 || |ids| <= budget then |ids| else budget
    ensures budget > 0 && |system| < budget < |ids| ==>
      r[..|system|] == system && r[|system|..] == ids[|ids| - (budget - |system|)..]
    ensures 0 < budget < |ids| && budget <= |system| ==> r == system[|system| - budget..]
  {
    if budget <= 0 || |ids| <= budget then ids
    else if |system| >= budget then Tail(system, budget)
    else system + Tail(ids, budget - |system|)
  }

  class AgentLoop {
    const tokenizer: Tokenizer
    const promptLength: int
    var promptMessagesDropped: nat
    var promptHardTruncated: bool

    constructor (tokenizer: Tokenizer, promptLength: int)
      ensures this.tokenizer == tokenizer && this.promptLength == promptLength
      ensures promptMessagesDropped == 0 && !promptHardTruncated
    {
      this.tokenizer, this.promptLength := tokenizer, promptLength;
      promptMessagesDropped, promptHardTruncated := 0, false;
    }

    /** The backward walk from the newest message. */
    method ChooseKeep(ms: seq<Message>) returns (keep: nat)
      requires Rest(ms) != []
      ensures keep == Keep(tokenizer, ms, promptLength)
    {
      hide Estimate, Total, Lead;
      var lead, rest := Lead(ms), Rest(ms);
      var used: nat := Total(tokenizer, lead) + Estimate(tokenizer, rest[|rest| - 1]);
      keep := 1;
      while keep < |rest|
        invariant 1 <= keep <= |rest|
        invariant KeepFrom(tokenizer, rest, promptLength, keep, used) == Keep(tokenizer, ms, promptLength)
      {
        var cost := Estimate(tokenizer, rest[|rest| - keep - 1]);
        if used + cost > promptLength { return; }
        used := used + cost;
        keep := keep + 1;
      }
    }

    method FitMessages(ms: seq<Message>) returns (kept: seq<Message>, ids: seq<int>)
      modifies this`promptMessagesDropped
      ensures kept == Kept(tokenizer, ms, promptLength) && ids == tokenizer.render(kept)
      ensures |kept| <= |ms| && promptMessagesDropped == old(promptMessagesDropped) + |ms| - |kept|
    {
      hide Keep, Lead;
      ids := tokenizer.render(ms);
      var budget := promptLength;
      if budget <= 0 || |ids| <= budget { return ms, ids; }
      var lead, rest := Lead(ms), Rest(ms);
      if |rest| <= 1 { return ms, ids; }
      var keep := ChooseKeep(ms);
      kept := lead + rest[|rest| - keep..];
      ids := tokenizer.render(kept);
      while |ids| > budget && |kept| > |lead| + 1
        invariant 1 <= keep <= |rest| && kept == Newest(ms, keep) && ids == tokenizer.render(kept)
        invariant Corrected(tokenizer, ms, budget, keep)
               == Corrected(tokenizer, ms, budget, Keep(tokenizer, ms, budget))
        invariant promptMessagesDropped == old(promptMessagesDropped)
        decreases keep
      {
        DropOldest(ms, keep);
        keep := keep - 1;
        kept := lead + kept[|lead| + 1..];
        ids := tokenizer.render(kept);
      }
      promptMessagesDropped := promptMessagesDropped + |ms| - |kept|;
    }

    method BuildPromptIds(ms: seq<Message>) returns (ids: seq<int>)
      modifies this`promptMessagesDropped, this`promptHardTruncated
      ensures promptLength > 0 ==> |ids| <= promptLength
      ensures var kept := Kept(tokenizer, ms, promptLength);
        && promptMessagesDropped == old(promptMessagesDropped) + |ms| - |kept|
        && promptHardTruncated == (old(promptHardTruncated) || !Fits(tokenizer, promptLength, kept))
        && (Fits(tokenizer, promptLength, kept) ==> ids == tokenizer.render(kept))
        && (!Fits(tokenizer, promptLength, kept) ==>
              var full := tokenizer.render(kept);
              var system := if ms != [] && ms[0].role == System then tokenizer.encode(ms[0].content) else [];
              if |system| < promptLength then ids == system + full[|full| - (promptLength - |system|)..]
              else ids == system[|system| - promptLength..])
    {
      var kept;
      kept, ids := FitMessages(ms);
      if promptLength > 0 && |ids| > promptLength {
        promptHardTruncated := true;
        var system := SystemIds(tokenizer, ms);
        ids := Crop(ids, system, promptLength);
        assert |system| < promptLength ==> ids == ids[..|system|] + ids[|system|..];
      }
    }
  }

  lemma DropOldest(ms: seq<Message>, keep: nat)
    requires 1 <= keep <= |Rest(ms)|
    ensures Newest(ms, keep - 1) == Lead(ms) + Newest(ms, keep)[|Lead(ms)| + 1..]
  {
    hide Lead;
  }

  /** `_encode_system_prefix`. */
  function SystemIds(tk: Tokenizer, ms: seq<Message>): seq<int> {
    if Lead(ms) == [] then [] else tk.encode(ms[0].content)
  }

  // ---------------------------------------------------------------- what is kept

  /** The kept messages are the system message and an unbroken newest part with the last message in it.
  They fit, unless only that last message is left; and no longer part that the estimates allow would fit. */
  lemma KeptIsNewest(tk: Tokenizer, ms: seq<Message>, budget: int) returns (k: nat)
    requires Rest(ms) != []
    ensures 1 <= k <= |Rest(ms)| && Kept(tk, ms, budget) == Newest(ms, k)
    ensures Lead(ms) <= Kept(tk, ms, budget) && Kept(tk, ms, budget)[|Kept(tk, ms, budget)| - 1] == ms[|ms| - 1]
    ensures var kept, lead := Kept(tk, ms, budget), if ms[0].role == System then 1 else 0;
      && |kept| == lead + k && kept[lead..] == ms[|ms| - k..] && (lead == 1 ==> kept[0] == ms[0])
    ensures Fits(tk, budget, Kept(tk, ms, budget)) || k == 1
    ensures !Fits(tk, budget, ms) && |Rest(ms)| > 1 ==>
      k <= Keep(tk, ms, budget) && forall j | k < j <= Keep(tk, ms, budget) :: !Fits(tk, budget, Newest(ms, j))
  {
    hide Keep, Corrected, Fits, Lead, Rest, Newest;
    if Fits(tk, budget, ms) || |Rest(ms)| <= 1 {
      k := |Rest(ms)|;
      NewestOfAll(ms);
    } else {
      k := Corrected(tk, ms, budget, Keep(tk, ms, budget));
    }
    NewestHolds(ms, k);
  }

  lemma NewestOfAll(ms: seq<Message>)
    ensures Newest(ms, |Rest(ms)|) == ms
  {
    hide Lead;
    assert ms == Lead(ms) + Rest(ms);
    assert Rest(ms)[0..] == Rest(ms);
  }

  lemma NewestHolds(ms: seq<Message>, k: nat)
    requires 1 <= k <= |Rest(ms)|
    ensures Lead(ms) <= Newest(ms, k) && Newest(ms, k) != [] && Newest(ms, k)[|Newest(ms, k)| - 1] == ms[|ms| - 1]
    ensures var kept, lead := Newest(ms, k), if ms[0].role == System then 1 else 0;
      && |kept| == lead + k && kept[lead..] == ms[|ms| - k..] && (lead == 1 ==> kept[0] == ms[0])
  {
    assert ms != [] && |Lead(ms)| == if ms[0].role == System then 1 else 0;
    hide Lead;
    var rest := Rest(ms);
    assert ms == Lead(ms) + rest;
    assert rest[|rest| - k..][k - 1] == rest[|rest| - 1];
  }

  /** What the walk keeps costs no more than the budget by the estimates, and one message more would, unless
  nothing is left to keep or the last message alone is too much already. */
  lemma {:induction false} KeepIsGreedy(tk: Tokenizer, rest: seq<Message>, budget: int, base: nat, keep: nat)
    requires 1 <= keep <= |rest|
    ensures var k := KeepFrom(tk, rest, budget, keep, base + Total(tk, rest[|rest| - keep..]));
      && (k > keep ==> base + Total(tk, rest[|rest| - k..]) <= budget)
      && (k < |rest| ==> base + Total(tk, rest[|rest| - k - 1..]) > budget)
    decreases |rest| - keep
  {
    hide Estimate, Total;
    if keep < |rest| {
      TotalStep(tk, rest, keep);
      if base + Total(tk, rest[|rest| - keep - 1..]) <= budget { KeepIsGreedy(tk, rest, budget, base, keep + 1); }
    }
  }

  /** So of the conversation: what the walk chose fits by the estimates, unless it is the last message alone, and with
  one message more it would not. */
  lemma ChoiceIsGreedy(tk: Tokenizer, ms: seq<Message>, budget: int)
    requires Rest(ms) != []
    ensures var k := Keep(tk, ms, budget);
      && (k > 1 ==> Total(tk, Newest(ms, k)) <= budget)
      && (k < |Rest(ms)| ==> Total(tk, Newest(ms, k + 1)) > budget)
  {
    hide Estimate, Total, Lead, Rest;
    var rest := Rest(ms);
    var k := Keep(tk, ms, budget);
    OneMessage(tk, rest);
    KeepIsGreedy(tk, rest, budget, Total(tk, Lead(ms)), 1);
    TotalSplits(tk, Lead(ms), rest[|rest| - k..]);
    if k < |rest| { TotalSplits(tk, Lead(ms), rest[|rest| - k - 1..]); }
  }

  lemma TotalStep(tk: Tokenizer, rest: seq<Message>, keep: nat)
    requires keep < |rest|
    ensures Total(tk, rest[|rest| - keep - 1..])
         == Estimate(tk, rest[|rest| - keep - 1]) + Total(tk, rest[|rest| - keep..])
  {
    hide Estimate;
    assert rest[|rest| - keep - 1..][1..] == rest[|rest| - keep..];
  }

  lemma {:induction false} TotalSplits(tk: Tokenizer, a: seq<Message>, b: seq<Message>)
    ensures Total(tk, a + b) == Total(tk, a) + Total(tk, b)
  {
    hide Estimate;
    if a == [] {
      assert a + b == b;
    } else {
      assert (a + b)[1..] == a[1..] + b;
      TotalSplits(tk, a[1..], b);
    }
  }

  /** If the summed estimates bound the render of what the walk chose, the correction drops nothing: the estimates
  decide. The last message alone needs no bound. */
  lemma EstimatesDecide(tk: Tokenizer, ms: seq<Message>, budget: int)
    requires Rest(ms) != []
    requires var kept := Newest(ms, Keep(tk, ms, budget));
      Keep(tk, ms, budget) == 1 || |tk.render(kept)| <= Total(tk, kept)
    ensures Corrected(tk, ms, budget, Keep(tk, ms, budget)) == Keep(tk, ms, budget)
    ensures !Fits(tk, budget, ms) && |Rest(ms)| > 1 ==> Kept(tk, ms, budget) == Newest(ms, Keep(tk, ms, budget))
  {
    hide Estimate, Total, Lead, Rest;
    var rest := Rest(ms);
    var last := rest[|rest| - 1..];
    var k := Keep(tk, ms, budget);
    OneMessage(tk, rest);
    KeepIsGreedy(tk, rest, budget, Total(tk, Lead(ms)), 1);
    TotalSplits(tk, Lead(ms), rest[|rest| - k..]);
  }

  lemma OneMessage(tk: Tokenizer, rest: seq<Message>)
    requires rest != []
    ensures Total(tk, rest[|rest| - 1..]) == Estimate(tk, rest[|rest| - 1])
  {
    hide Estimate;
    assert rest[|rest| - 1..][1..] == [];
  }

  // ---------------------------------------------------------------- templates that wrap each message

  /** The messages' contents with `wrap` tokens around each. */
  function Wrapped(tk: Tokenizer, wrap: nat, ms: seq<Message>): nat {
    if ms == [] then 0 else wrap + |tk.encode(ms[0].content)| + Wrapped(tk, wrap, ms[1..])
  }

  /** A template that wraps each message in tokens of its own and ends with a cue. */
  ghost predicate Wraps(tk: Tokenizer, wrap: nat, cue: nat) {
    tk.encode("") == [] && forall ms :: |tk.render(ms)| == Wrapped(tk, wrap, ms) + cue
  }

  /** Under such a template the estimate of one message is exact, and the estimates of more count the cue more than
  once. */
  lemma EstimatesBound(tk: Tokenizer, wrap: nat, cue: nat, ms: seq<Message>)
    requires Wraps(tk, wrap, cue) && ms != []
    ensures |tk.render(ms)| <= Total(tk, ms)
    ensures |ms| == 1 ==> |tk.render(ms)| == Total(tk, ms)
  {
    hide Estimate;
    EstimatesCount(tk, wrap, cue, ms);
    assert cue <= cue * |ms|;
  }

  lemma {:induction false} EstimatesCount(tk: Tokenizer, wrap: nat, cue: nat, ms: seq<Message>)
    requires Wraps(tk, wrap, cue)
    ensures Total(tk, ms) == Wrapped(tk, wrap, ms) + cue * |ms|
  {
    if ms != [] {
      EstimatesCount(tk, wrap, cue, ms[1..]);
      EmptyMessage(tk, wrap, cue);
      assert cue * |ms| == cue + cue * |ms[1..]|;
    }
  }

  lemma EmptyMessage(tk: Tokenizer, wrap: nat, cue: nat)
    requires Wraps(tk, wrap, cue)
    ensures |tk.render([Message(User, "")])| == wrap + cue
  {
    var empty := [Message(User, "")];
    assert Wrapped(tk, wrap, empty) == wrap + 0 + Wrapped(tk, wrap, empty[1..]);
  }

  /** So what the walk chose is kept, and it fits unless it is the last message alone. */
  lemma WrappingDecides(tk: Tokenizer, wrap: nat, cue: nat, ms: seq<Message>, budget: int)
    requires Wraps(tk, wrap, cue) && |Rest(ms)| > 1 && !Fits(tk, budget, ms)
    ensures Kept(tk, ms, budget) == Newest(ms, Keep(tk, ms, budget))
  {
    hide Wraps, Fits, Keep, Total, Kept, Corrected;
    var kept := Newest(ms, Keep(tk, ms, budget));
    EstimatesBound(tk, wrap, cue, kept);
    EstimatesDecide(tk, ms, budget);
  }
}
