/** The idempotency_total counters against what actually happened, in every run and for each RPC. */
module IdempotencyAccounting {
  import opened Wrappers
  import opened Grpc
  import opened RequestFingerprint
  import opened IdempotencyRecord
  import opened IdempotencyProtocol
  import opened IdempotencyRuns

  predicate IsRpc(s: State, r: Id, rpc: Rpc) {
    r in s.sessions && s.sessions[r].req.input.Method() == rpc
  }

  /** The requests that reached the claim. */
  function Keyed(s: State, rpc: Rpc): set<Id> {
    set r | r in s.sessions && IsRpc(s, r, rpc)
  }

  /** The requests that ended with an outcome counted under l. */
  function Tagged(s: State, rpc: Rpc, l: Label): set<Id> {
    set r | r in s.sessions && IsRpc(s, r, rpc)
            && s.sessions[r].phase.Done? && LabelOf(s.sessions[r].phase.outcome) == Some(l)
  }

  /** The requests answered Aborted by the interceptor itself. */
  function TurnedAway(s: State, rpc: Rpc): set<Id> {
    set r | r in s.sessions && IsRpc(s, r, rpc) && s.sessions[r].phase == Done(InProgress)
  }

  /** The requests whose handler was started. */
  function Started(s: State, rpc: Rpc): set<Id> {
    set r | r in s.sessions && IsRpc(s, r, rpc) && HasRun(s, r)
  }

  /** The step starts a handler for rpc. */
  predicate StartsHandler(s: State, step: Step, t: State, rpc: Rpc) {
    && (step.Claim? || step.ClaimError?)
    && step.r in t.sessions && t.sessions[step.r].phase.Running? && IsRpc(t, step.r, rpc)
  }

  /** How many of the first n steps start a handler for rpc. */
  function HandlerCalls(trace: seq<State>, steps: seq<Step>, n: nat, rpc: Rpc): nat
    requires n <= |steps| && |trace| == |steps| + 1
  {
    if n == 0 then 0
    else HandlerCalls(trace, steps, n - 1, rpc)
         + if StartsHandler(trace[n - 1], steps[n - 1], trace[n], rpc) then 1 else 0
  }

  // ----- the counters -----

  ghost predicate Counted(s: State) {
    forall rpc, l :: CountOf(s.counters, rpc, l) == |Tagged(s, rpc, l)|
  }

  /** The outcome a step gives its request, if it ends it. */
  ghost predicate EndsWith(s: State, step: Step, t: State, r: Id, o: Outcome) {
    Actor(step) == Some(r) && Ends(s, t, r) && t.sessions[r].phase.outcome == o
    && t.sessions[r].req == s.sessions[r].req
  }

  /** r ends with an outcome labelled l, and that label's counter goes up by one. */
  ghost predicate CountsEnd(s: State, step: Step, t: State, r: Id, o: Outcome, l: Label) {
    && EndsWith(s, step, t, r, o) && LabelOf(o) == Some(l)
    && var rpc := s.sessions[r].req.input.Method();
       t.counters == s.counters[(rpc, l) := CountOf(s.counters, rpc, l) + 1]
  }

  ghost predicate CountsNothing(s: State, t: State) {
    t.counters == s.counters && forall r :: Ends(s, t, r) ==> t.sessions[r].phase.outcome.InProgress?
  }

  lemma CounterStep(c: Config, s: State, step: Step)
    requires ValidConfig(c) && Enabled(s, step)
    ensures var t := Apply(c, s, step);
            CountsNothing(s, t) || exists r, o, l :: CountsEnd(s, step, t, r, o, l)
  {
    hide Key, CompletedValue, Judge;
    var t := Apply(c, s, step);
    if step.Inspect? || (step.Finish? && step.result.Failure?) || step.Promote? {
      var o := t.sessions[step.r].phase.outcome;
      if LabelOf(o).Some? {
        assert CountsEnd(s, step, t, step.r, o, LabelOf(o).value);
      }
    }
  }

  lemma SessionsStep(c: Config, s: State, step: Step, r: Id)
    requires ValidConfig(c) && Enabled(s, step) && r in Apply(c, s, step).sessions
    ensures var t := Apply(c, s, step);
            || (r in s.sessions && t.sessions[r] == s.sessions[r])
            || (Actor(step) == Some(r) && !t.sessions[r].phase.Done? && (r in s.sessions ==> !s.sessions[r].phase.Done?))
            || (Actor(step) == Some(r) && Ends(s, t, r))
  {
    hide Key, CompletedValue, Judge;
  }

  /** Ending r with an outcome labelled l adds r to that label's requests and changes no other label's. */
  lemma TaggedEnd(c: Config, s: State, step: Step, r: Id, o: Outcome, l: Label, rpc: Rpc, m: Label)
    requires ValidConfig(c) && Enabled(s, step)
    requires EndsWith(s, step, Apply(c, s, step), r, o) && LabelOf(o) == Some(l)
    ensures Tagged(Apply(c, s, step), rpc, m)
         == Tagged(s, rpc, m) + if s.sessions[r].req.input.Method() == rpc && l == m then {r} else {}
    ensures r !in Tagged(s, rpc, m)
  {
    hide Apply;
    var t := Apply(c, s, step);
    StepFrame(c, s, step);
    forall q | q in t.sessions { SessionsStep(c, s, step, q); }
  }

  lemma TaggedSame(c: Config, s: State, step: Step, rpc: Rpc, m: Label)
    requires ValidConfig(c) && Enabled(s, step)
    requires forall r :: Ends(s, Apply(c, s, step), r) ==> Apply(c, s, step).sessions[r].phase.outcome.InProgress?
    ensures Tagged(Apply(c, s, step), rpc, m) == Tagged(s, rpc, m)
  {
    hide Apply;
    var t := Apply(c, s, step);
    StepFrame(c, s, step);
    forall q | q in t.sessions { SessionsStep(c, s, step, q); }
  }

  lemma CountedEnd(c: Config, s: State, step: Step, r: Id, o: Outcome, l: Label, rpc: Rpc, m: Label)
    requires ValidConfig(c) && Enabled(s, step) && CountsEnd(s, step, Apply(c, s, step), r, o, l)
    requires CountOf(s.counters, rpc, m) == |Tagged(s, rpc, m)|
    ensures CountOf(Apply(c, s, step).counters, rpc, m) == |Tagged(Apply(c, s, step), rpc, m)|
  {
    hide Apply, Tagged;
    TaggedEnd(c, s, step, r, o, l, rpc, m);
  }

  lemma CountedStep(c: Config, s: State, step: Step)
    requires ValidConfig(c) && Enabled(s, step) && Counted(s)
    ensures Counted(Apply(c, s, step))
  {
    hide Apply, Tagged, CountsEnd;
    var t := Apply(c, s, step);
    CounterStep(c, s, step);
    forall rpc, m ensures CountOf(t.counters, rpc, m) == |Tagged(t, rpc, m)| {
      if CountsNothing(s, t) {
        TaggedSame(c, s, step, rpc, m);
      } else {
        var r, o, l :| CountsEnd(s, step, t, r, o, l);
        CountedEnd(c, s, step, r, o, l, rpc, m);
      }
    }
  }

  lemma {:induction false} CountedRun(c: Config, trace: seq<State>, steps: seq<Step>, i: nat)
    requires IsRun(c, trace, steps) && i < |trace|
    ensures Counted(trace[i])
  {
    hide Apply;
    if i == 0 {
      assert forall rpc, l :: Tagged(trace[0], rpc, l) == {};
    } else {
      CountedRun(c, trace, steps, i - 1);
      CountedStep(c, trace[i - 1], steps[i - 1]);
    }
  }

  // ----- handler calls -----

  lemma HasRunStep(c: Config, s: State, step: Step, r: Id)
    requires ValidConfig(c) && Enabled(s, step)
    ensures var t := Apply(c, s, step);
            HasRun(t, r) <==> HasRun(s, r) || ((step.Claim? || step.ClaimError?) && step.r == r && t.sessions[r].phase.Running?)
    ensures (step.Claim? || step.ClaimError?) && step.r == r ==> !HasRun(s, r) && r in s.sessions
  {
    hide Key, CompletedValue, Resolve, Digest;
  }

  lemma StartedStep(c: Config, s: State, step: Step, rpc: Rpc)
    requires ValidConfig(c) && Enabled(s, step)
    ensures var t := Apply(c, s, step);
            if StartsHandler(s, step, t, rpc)
            then Started(t, rpc) == Started(s, rpc) + {step.r} && step.r !in Started(s, rpc)
            else Started(t, rpc) == Started(s, rpc)
  {
    hide Apply;
    var t := Apply(c, s, step);
    StepFrame(c, s, step);
    forall r ensures r in Started(t, rpc) <==> r in Started(s, rpc) || (StartsHandler(s, step, t, rpc) && r == step.r) {
      HasRunStep(c, s, step, r);
    }
    if step.Claim? || step.ClaimError? {
      HasRunStep(c, s, step, step.r);
    }
  }

  lemma {:induction false} StartedRun(c: Config, trace: seq<State>, steps: seq<Step>, n: nat, rpc: Rpc)
    requires IsRun(c, trace, steps) && n <= |steps|
    ensures |Started(trace[n], rpc)| == HandlerCalls(trace, steps, n, rpc)
  {
    hide Apply, Started, StartsHandler;
    if n == 0 {
      NothingStarted(trace[0], rpc);
    } else {
      StartedRun(c, trace, steps, n - 1, rpc);
      StartedStep(c, trace[n - 1], steps[n - 1], rpc);
    }
  }

  lemma NothingStarted(s: State, rpc: Rpc)
    requires s.sessions == map[]
    ensures Started(s, rpc) == {}
  {
  }

  // ----- the books -----

  lemma FourParts<T>(a: set<T>, p: set<T>, q: set<T>, r: set<T>, s: set<T>)
    requires a == p + q + r + s
    requires p !! q !! r !! s
    ensures |a| == |p| + |q| + |r| + |s|
  {
    assert |p + q| == |p| + |q|;
    assert |p + q + r| == |p + q| + |r|;
    assert |p + q + r + s| == |p + q + r| + |s|;
  }

  lemma FinishedOne(s: State, rpc: Rpc, r: Id)
    requires r in s.sessions && s.sessions[r].phase.Done?
    ensures var o := s.sessions[r].phase.outcome;
            && (r in Keyed(s, rpc) <==> IsRpc(s, r, rpc))
            && (r in Tagged(s, rpc, HitLabel) <==> IsRpc(s, r, rpc) && o.Hit?)
            && (r in Tagged(s, rpc, MissLabel) <==> IsRpc(s, r, rpc) && o.Ran?)
            && (r in Tagged(s, rpc, MismatchLabel) <==> IsRpc(s, r, rpc) && o.Mismatch?)
            && (r in TurnedAway(s, rpc) <==> IsRpc(s, r, rpc) && o.InProgress?)
            && (r in Started(s, rpc) <==> IsRpc(s, r, rpc) && o.Ran?)
  {
    hide IsRpc;
  }

  lemma OnlySessions(s: State, rpc: Rpc)
    ensures Keyed(s, rpc) <= s.sessions.Keys && TurnedAway(s, rpc) <= s.sessions.Keys && Started(s, rpc) <= s.sessions.Keys
    ensures forall l :: Tagged(s, rpc, l) <= s.sessions.Keys
  {
  }

  lemma FinishedSplit(s: State, rpc: Rpc)
    requires forall r :: r in s.sessions ==> s.sessions[r].phase.Done?
    ensures |Keyed(s, rpc)| == |Tagged(s, rpc, HitLabel)| + |Tagged(s, rpc, MissLabel)|
                             + |Tagged(s, rpc, MismatchLabel)| + |TurnedAway(s, rpc)|
    ensures Tagged(s, rpc, MissLabel) == Started(s, rpc)
  {
    hide Keyed, Tagged, TurnedAway, Started, IsRpc;
    var h, m, x, a := Tagged(s, rpc, HitLabel), Tagged(s, rpc, MissLabel), Tagged(s, rpc, MismatchLabel), TurnedAway(s, rpc);
    var all, st := Keyed(s, rpc), Started(s, rpc);
    OnlySessions(s, rpc);
    forall r | r in s.sessions { FinishedOne(s, rpc, r); }
    assert all == h + m + x + a;
    assert m == st;
    FourParts(all, h, m, x, a);
  }

  /**
    In a finished run, for each RPC: requests that reached the claim = hits + misses + mismatches +
    Aborted replies, misses = handler calls made, and each counter is the number of requests that
    ended that way.
   */
  lemma OutcomeAccounting(c: Config, trace: seq<State>, steps: seq<Step>, rpc: Rpc)
    requires IsRun(c, trace, steps)
    requires forall r :: r in trace[|steps|].sessions ==> trace[|steps|].sessions[r].phase.Done?
    ensures var s := trace[|steps|];
            && |Keyed(s, rpc)| == CountOf(s.counters, rpc, HitLabel) + CountOf(s.counters, rpc, MissLabel)
                                + CountOf(s.counters, rpc, MismatchLabel) + |TurnedAway(s, rpc)|
            && CountOf(s.counters, rpc, MissLabel) == HandlerCalls(trace, steps, |steps|, rpc)
            && CountOf(s.counters, rpc, HitLabel)
               == |set r | r in s.sessions && IsRpc(s, r, rpc) && s.sessions[r].phase.outcome.Hit?|
            && CountOf(s.counters, rpc, MismatchLabel)
               == |set r | r in s.sessions && IsRpc(s, r, rpc)
                           && ReplyOf(s.sessions[r].phase.outcome) == Failure(FailedPrecondition)
                           && !s.sessions[r].phase.outcome.Ran?|
  {
    hide Apply, Started;
    var s := trace[|steps|];
    CountedRun(c, trace, steps, |steps|);
    StartedRun(c, trace, steps, |steps|, rpc);
    FinishedSplit(s, rpc);
    assert Tagged(s, rpc, HitLabel) == set r | r in s.sessions && IsRpc(s, r, rpc) && s.sessions[r].phase.outcome.Hit?;
    assert Tagged(s, rpc, MismatchLabel)
        == set r | r in s.sessions && IsRpc(s, r, rpc)
                   && ReplyOf(s.sessions[r].phase.outcome) == Failure(FailedPrecondition)
                   && !s.sessions[r].phase.outcome.Ran?;
  }
}
