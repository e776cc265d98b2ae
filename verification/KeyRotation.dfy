/**
  The key rotation guard (cmd/token-engine/main.go): on every tick each replica reads a tenant's
  stamp, and unless it lies within the guard window acquires the tenant's rotation lock, rotates,
  writes the stamp and releases. The stamp is read before the lock is taken.
 */
module KeyRotation {
  import opened Wrappers
  import opened RedisStore
  import L = TtlLock

  datatype Config = Config(window: int, lockTTL: int, key: string)

  predicate ValidConfig(c: Config) {
    c.window > 0 && c.lockTTL > 0
  }

  /** Where one replica's loop is. */
  datatype Guard =
    | Idle                                           // waiting for a tick
    | Checked                                        // the stamp did not forbid a rotation
    | Holding(token: string)                         // got the lock
    | Rotated(token: string, at: int)                // RotateKeys succeeded
    | Stamping(token: string, at: int, value: int)   // time.Now() was read; Set comes next
    | Closing(token: string)                         // only the release is left
  {
    predicate HasToken() { !Idle? && !Checked? }
  }

  /** A rotation recorded by the guard loop: by whom, when it rotated and when its stamp says it did. */
  datatype Rotation = Rotation(replica: nat, at: int, stamp: int)

  /** One tenant: its rotation lock, its stamp, its guards, and the rotations recorded so far. */
  datatype State = State(lk: L.LockState, stamp: Option<int>, guards: map<nat, Guard>, log: seq<Rotation>)

  datatype Step =
    | Tick(d: nat)
    | Read(r: nat)                                       // Get answers
    | ReadError(r: nat)                                  // Get fails, which the loop takes for "no stamp"
    | Acquire(r: nat, token: string)
    | AcquireError(r: nat, token: string, written: bool)
    | Rotate(r: nat, ok: bool)
    | TakeTime(r: nat)
    | Stamp(r: nat, written: bool)                       // Set, whose error is ignored
    | Release(r: nat, executed: bool)

  function GuardOf(s: State, r: nat): Guard {
    if r in s.guards then s.guards[r] else Idle
  }

  predicate Enabled(c: Config, s: State, step: Step) {
    match step
    case Tick(_) => true
    case Read(r) => r in s.guards && s.guards[r].Idle?
    case ReadError(r) => r in s.guards && s.guards[r].Idle?
    case Acquire(r, token) => r in s.guards && s.guards[r].Checked? && L.Enabled(s.lk, L.Acquire(token, c.key, c.lockTTL))
    case AcquireError(r, token, written) =>
      r in s.guards && s.guards[r].Checked? && L.Enabled(s.lk, L.AcquireError(token, c.key, c.lockTTL, written))
    case Rotate(r, _) => r in s.guards && s.guards[r].Holding?
    case TakeTime(r) => r in s.guards && s.guards[r].Rotated?
    case Stamp(r, _) => r in s.guards && s.guards[r].Stamping?
    case Release(r, _) => r in s.guards && s.guards[r].Closing? && L.Enabled(s.lk, L.EndWork(s.guards[r].token))
  }

  /** The guard window check: no stamp, or one at least a window old. */
  predicate MayRotate(c: Config, stamp: Option<int>, now: int) {
    stamp.None? || now - stamp.value >= c.window
  }

  function Enter(s: State, r: nat, g: Guard): State {
    s.(guards := s.guards[r := g])
  }

  function Apply(c: Config, s: State, step: Step): State
    requires Enabled(c, s, step)
  {
    match step
    case Tick(d) => s.(lk := L.Apply(s.lk, L.Tick(d)))
    case Read(r) => Enter(s, r, if MayRotate(c, s.stamp, s.lk.now) then Checked else Idle)
    case ReadError(r) => Enter(s, r, Checked)
    case Acquire(r, token) =>
      var lk := L.Apply(s.lk, L.Acquire(token, c.key, c.lockTTL));
      Enter(s, r, if Live(s.lk.db, c.key, s.lk.now) then Idle else Holding(token)).(lk := lk)
    case AcquireError(r, token, written) =>
      Enter(s, r, Idle).(lk := L.Apply(s.lk, L.AcquireError(token, c.key, c.lockTTL, written)))
    case Rotate(r, ok) =>
      var token := s.guards[r].token;
      Enter(s, r, if ok then Rotated(token, s.lk.now) else Closing(token))
    case TakeTime(r) => Enter(s, r, Stamping(s.guards[r].token, s.guards[r].at, s.lk.now))
    case Stamp(r, written) =>
      var g := s.guards[r];
      var t := Enter(s, r, Closing(g.token));
      if written then t.(stamp := Some(g.value), log := s.log + [Rotation(r, g.at, g.value)]) else t
    case Release(r, executed) =>
      var token := s.guards[r].token;
      Enter(s, r, Idle).(lk := L.Apply(L.Apply(s.lk, L.EndWork(token)), L.Release(token, executed)))
  }

  /** A read lets the replica go on exactly if there is no stamp or the stamp is at least a window old; a failed one always does. */
  lemma ReadDecides(c: Config, s: State, r: nat)
    requires Enabled(c, s, Read(r))
    ensures Enabled(c, s, ReadError(r)) && GuardOf(Apply(c, s, ReadError(r)), r) == Checked
    ensures GuardOf(Apply(c, s, Read(r)), r) == Checked <==> s.stamp.None? || s.stamp.value + c.window <= s.lk.now
    ensures GuardOf(Apply(c, s, Read(r)), r) == Idle <==> s.stamp.Some? && s.lk.now < s.stamp.value + c.window
  {
  }

  /** All guards idle, nothing recorded, and a stamp, if there is one, from the past. */
  ghost predicate Init(s: State) {
    && L.Init(s.lk) && s.log == [] && (s.stamp.Some? ==> s.stamp.value <= s.lk.now)
    && forall r :: r in s.guards ==> s.guards[r].Idle?
  }

  ghost predicate IsRun(c: Config, trace: seq<State>, steps: seq<Step>) {
    && ValidConfig(c) && |trace| == |steps| + 1 && Init(trace[0])
    && forall i :: 0 <= i < |steps| ==> Enabled(c, trace[i], steps[i]) && trace[i + 1] == Apply(c, trace[i], steps[i])
  }

  /** The premise on the lock, for the first n states: rotation and stamp end inside its time to live. */
  ghost predicate OnTime(c: Config, trace: seq<State>, n: nat)
    requires n <= |trace|
  {
    forall m :: 0 <= m < n ==> L.TimelyOn(trace[m].lk, c.key)
  }

  /** p fails to read the stamp at a moment when a rotation it recorded still lies inside the window. */
  ghost predicate Blind(c: Config, s: State, step: Step, p: nat) {
    step == ReadError(p) && exists i :: 0 <= i < |s.log| && s.log[i].replica == p && s.lk.now < s.log[i].stamp + c.window
  }

  /** The premise on reads, for p alone and the first n steps. Others' reads and lost stamp writes are no concern of p's. */
  ghost predicate Sighted(c: Config, trace: seq<State>, steps: seq<Step>, p: nat, n: nat)
    requires n <= |steps| < |trace|
  {
    forall m :: 0 <= m < n ==> !Blind(c, trace[m], steps[m], p)
  }

  // ----- the lock part of the invariant -----

  /** Every guard past the lock is at work under its own token for the rotation lock. */
  ghost predicate Owned(c: Config, s: State) {
    && L.TokensPlaced(s.lk)
    && (forall r :: r in s.guards && s.guards[r].HasToken() ==>
          L.Working(s.lk, s.guards[r].token) && s.lk.handles[s.guards[r].token].key == c.key)
    && (forall q, r :: (q in s.guards && r in s.guards && s.guards[q].HasToken() && s.guards[r].HasToken()
                          && s.guards[q].token == s.guards[r].token) ==> q == r)
  }

  /** And holds the key. */
  ghost predicate Locked(c: Config, s: State) {
    Owned(c, s) && L.HeldOn(s.lk, c.key)
  }

  /** At most one guard is past the lock. */
  lemma OneHolder(c: Config, s: State, q: nat, r: nat)
    requires Locked(c, s) && q in s.guards && r in s.guards && s.guards[q].HasToken() && s.guards[r].HasToken()
    ensures q == r
  {
  }

  lemma OwnedStep(c: Config, s: State, step: Step)
    requires ValidConfig(c) && Enabled(c, s, step) && Owned(c, s)
    ensures Owned(c, Apply(c, s, step))
  {
    hide CompareAndDelete, PutIfAbsent;
    assert L.TokensPlaced(Apply(c, s, step).lk) by {
      hide L.TokensPlaced;
      match step {
        case Tick(d) => L.TokensPlacedStep(s.lk, L.Tick(d));
        case Acquire(r, token) => L.TokensPlacedStep(s.lk, L.Acquire(token, c.key, c.lockTTL));
        case AcquireError(r, token, written) => L.TokensPlacedStep(s.lk, L.AcquireError(token, c.key, c.lockTTL, written));
        case Release(r, executed) =>
          var token := s.guards[r].token;
          L.TokensPlacedStep(s.lk, L.EndWork(token));
          L.TokensPlacedStep(L.Apply(s.lk, L.EndWork(token)), L.Release(token, executed));
        case _ =>
      }
    }
  }

  lemma {:induction false} OwnedRun(c: Config, trace: seq<State>, steps: seq<Step>, i: nat)
    requires IsRun(c, trace, steps) && i < |trace|
    ensures Owned(c, trace[i])
  {
    if i > 0 {
      hide Apply, Enabled;
      OwnedRun(c, trace, steps, i - 1);
      OwnedStep(c, trace[i - 1], steps[i - 1]);
    }
  }

  lemma HeldStep(c: Config, s: State, step: Step)
    requires ValidConfig(c) && Enabled(c, s, step) && Locked(c, s) && L.TimelyOn(s.lk, c.key)
    ensures L.HeldOn(Apply(c, s, step).lk, c.key)
  {
    hide L.TokensPlaced, L.HeldOn;
    match step {
      case Tick(d) => L.HeldStep(s.lk, L.Tick(d), c.key);
      case Acquire(r, token) => L.HeldStep(s.lk, L.Acquire(token, c.key, c.lockTTL), c.key);
      case AcquireError(r, token, written) => L.HeldStep(s.lk, L.AcquireError(token, c.key, c.lockTTL, written), c.key);
      case Release(r, executed) =>
        var token := s.guards[r].token;
        L.HeldStep(s.lk, L.EndWork(token), c.key);
        L.TokensPlacedStep(s.lk, L.EndWork(token));
        L.TimelyEnd(s.lk, token, c.key);
        L.HeldStep(L.Apply(s.lk, L.EndWork(token)), L.Release(token, executed), c.key);
      case _ =>
    }
  }

  lemma LockedStep(c: Config, s: State, step: Step)
    requires ValidConfig(c) && Enabled(c, s, step) && Locked(c, s) && L.TimelyOn(s.lk, c.key)
    ensures Locked(c, Apply(c, s, step))
  {
    hide Apply, Enabled, Owned, L.HeldOn;
    OwnedStep(c, s, step);
    HeldStep(c, s, step);
  }

  // ----- the stamp part of the invariant -----

  /** e is at least a window before the rotation r is about to make, or may make next. */
  predicate Apart(c: Config, s: State, g: Guard, e: Rotation) {
    match g
    case Idle => true
    case Closing(_) => true
    case Checked => e.stamp + c.window <= s.lk.now
    case Holding(_) => e.stamp + c.window <= s.lk.now
    case Rotated(_, at) => e.stamp + c.window <= at
    case Stamping(_, at, _) => e.stamp + c.window <= at
  }

  predicate InOrder(g: Guard, s: State) {
    match g
    case Rotated(_, at) => at <= s.lk.now
    case Stamping(_, at, value) => at <= value <= s.lk.now && (s.stamp.Some? ==> s.stamp.value <= value)
    case _ => true
  }

  /** Stamps never run ahead of the clock or backwards. */
  ghost predicate Ordered(s: State) {
    && (s.stamp.Some? ==> s.stamp.value <= s.lk.now)
    && (s.log != [] ==> s.stamp.Some?)
    && (forall i :: 0 <= i < |s.log| ==> s.log[i].replica in s.guards && s.log[i].at <= s.log[i].stamp <= s.stamp.value)
    && (forall i, j :: 0 <= i < j < |s.log| ==> s.log[i].stamp <= s.log[j].stamp)
    && (forall r :: r in s.guards ==> InOrder(s.guards[r], s))
  }

  /** p's recorded rotations are a window apart, and so is the one it may be making. */
  ghost predicate Spaced(c: Config, s: State, p: nat) {
    && (forall i, j :: 0 <= i < j < |s.log| && s.log[i].replica == s.log[j].replica == p ==>
          s.log[i].stamp + c.window <= s.log[j].at)
    && (forall i :: 0 <= i < |s.log| && s.log[i].replica == p ==> Apart(c, s, GuardOf(s, p), s.log[i]))
  }

  lemma NowAdvances(c: Config, s: State, step: Step)
    requires Enabled(c, s, step)
    ensures s.lk.now <= Apply(c, s, step).lk.now
    ensures !step.Tick? ==> s.lk.now == Apply(c, s, step).lk.now
  {
  }

  lemma OrderedFrame(s: State, t: State)
    requires Ordered(s) && t.log == s.log && t.stamp == s.stamp && t.guards.Keys == s.guards.Keys && s.lk.now <= t.lk.now
    requires forall r :: r in t.guards ==> InOrder(t.guards[r], t)
    ensures Ordered(t)
  {
    hide InOrder;
  }

  lemma OrderedAppend(s: State, t: State, e: Rotation)
    requires Ordered(s) && t.log == s.log + [e] && t.stamp == Some(e.stamp) && t.guards.Keys == s.guards.Keys
    requires e.replica in t.guards && e.at <= e.stamp <= t.lk.now && (s.stamp.Some? ==> s.stamp.value <= e.stamp)
    requires forall r :: r in t.guards ==> InOrder(t.guards[r], t)
    ensures Ordered(t)
  {
    hide InOrder;
    assert forall i :: 0 <= i < |s.log| ==> t.log[i] == s.log[i] && s.log[i].replica in s.guards;
    assert forall i, j :: 0 <= i < j < |t.log| ==> t.log[i].stamp <= t.log[j].stamp;
  }

  /** Under the lock nobody else has a stamp in hand, so the one that is written is the latest. */
  lemma StampedOrdered(c: Config, s: State, step: Step)
    requires Enabled(c, s, step) && Locked(c, s) && Ordered(s) && step.Stamp?
    ensures Ordered(Apply(c, s, step))
  {
    hide L.HeldOn, L.TokensPlaced;
    var t, g := Apply(c, s, step), s.guards[step.r];
    assert InOrder(g, s);
    forall q | q in t.guards ensures InOrder(t.guards[q], t) {
      if q != step.r {
        assert t.guards[q] == s.guards[q] && InOrder(s.guards[q], s);
        if s.guards[q].HasToken() { OneHolder(c, s, q, step.r); }
      }
    }
    LogStep(c, s, step);
    hide Ordered, Apply;
    if step.written {
      OrderedAppend(s, t, Rotation(step.r, g.at, g.value));
    } else {
      OrderedFrame(s, t);
    }
  }

  lemma OrderedStep(c: Config, s: State, step: Step)
    requires Enabled(c, s, step) && Locked(c, s) && Ordered(s)
    ensures Ordered(Apply(c, s, step))
  {
    hide L.Apply, L.Enabled, Owned, L.HeldOn;
    if step.Stamp? {
      StampedOrdered(c, s, step);
    } else {
      NowAdvances(c, s, step);
      LogStep(c, s, step);
      var t := Apply(c, s, step);
      forall q | q in t.guards ensures InOrder(t.guards[q], t) {
        assert InOrder(s.guards[q], s);
      }
      OrderedFrame(s, t);
    }
  }

  /** Where p's guard goes, the rotations it recorded stay a window behind. */
  lemma ApartStep(c: Config, s: State, step: Step, p: nat, e: Rotation)
    requires ValidConfig(c) && Enabled(c, s, step) && p in s.guards && Apart(c, s, s.guards[p], e)
    requires s.stamp.Some? && e.stamp <= s.stamp.value <= s.lk.now
    requires step == ReadError(p) ==> e.stamp + c.window <= s.lk.now
    ensures Apart(c, Apply(c, s, step), GuardOf(Apply(c, s, step), p), e)
  {
    hide L.Apply, L.Enabled;
    NowAdvances(c, s, step);
  }

  /** Only a stamp that is written adds to the log, and what it adds is the rotation it stamps. */
  lemma LogStep(c: Config, s: State, step: Step)
    requires Enabled(c, s, step)
    ensures var t := Apply(c, s, step);
            && t.guards.Keys == s.guards.Keys
            && if step.Stamp? && step.written
               then t.log == s.log + [Rotation(step.r, s.guards[step.r].at, s.guards[step.r].value)] && t.guards[step.r].Closing?
               else t.log == s.log
  {
    hide L.Apply, L.Enabled;
  }

  lemma SpacedStep(c: Config, s: State, step: Step, p: nat)
    requires ValidConfig(c) && Enabled(c, s, step) && Ordered(s) && Spaced(c, s, p) && !Blind(c, s, step, p)
    ensures Spaced(c, Apply(c, s, step), p)
  {
    hide Apply;
    LogStep(c, s, step);
    var t := Apply(c, s, step);
    forall i | 0 <= i < |s.log| && s.log[i].replica == p
      ensures Apart(c, t, GuardOf(t, p), s.log[i])
    {
      ApartStep(c, s, step, p, s.log[i]);
    }
    if step.Stamp? && step.written && step.r == p {
      forall i | 0 <= i < |s.log| && s.log[i].replica == p ensures s.log[i].stamp + c.window <= t.log[|s.log|].at {
        assert Apart(c, s, GuardOf(s, p), s.log[i]);
      }
    }
  }

  lemma {:induction false} InvariantRun(c: Config, trace: seq<State>, steps: seq<Step>, n: nat)
    requires IsRun(c, trace, steps) && n < |trace| && OnTime(c, trace, n)
    ensures Locked(c, trace[n]) && Ordered(trace[n])
  {
    hide Apply;
    if n > 0 {
      InvariantRun(c, trace, steps, n - 1);
      LockedStep(c, trace[n - 1], steps[n - 1]);
      OrderedStep(c, trace[n - 1], steps[n - 1]);
    }
  }

  lemma {:induction false} SpacedRun(c: Config, trace: seq<State>, steps: seq<Step>, p: nat, n: nat)
    requires IsRun(c, trace, steps) && n < |trace| && OnTime(c, trace, n) && Sighted(c, trace, steps, p, n)
    ensures Spaced(c, trace[n], p)
  {
    hide Apply, Blind, Enabled;
    if n > 0 {
      SpacedRun(c, trace, steps, p, n - 1);
      InvariantRun(c, trace, steps, n - 1);
      SpacedStep(c, trace[n - 1], steps[n - 1], p);
    }
  }

  // ----- what the guard achieves -----

  /** The stamp never runs backwards and is never lost, whatever reads and writes fail. */
  lemma {:induction false} StampMonotone(c: Config, trace: seq<State>, steps: seq<Step>, i: nat, j: nat)
    requires IsRun(c, trace, steps) && i <= j < |trace| && OnTime(c, trace, j) && trace[i].stamp.Some?
    ensures trace[j].stamp.Some? && trace[i].stamp.value <= trace[j].stamp.value
    decreases j - i
  {
    hide Apply;
    if i < j {
      StampMonotone(c, trace, steps, i, j - 1);
      InvariantRun(c, trace, steps, j - 1);
      StampStep(c, trace[j - 1], steps[j - 1]);
    }
  }

  lemma StampStep(c: Config, s: State, step: Step)
    requires Enabled(c, s, step) && Ordered(s) && s.stamp.Some?
    ensures Apply(c, s, step).stamp.Some? && s.stamp.value <= Apply(c, s, step).stamp.value
  {
    hide L.Apply, L.Enabled;
    if step.Stamp? {
      assert InOrder(s.guards[step.r], s);
    }
  }

  /**
    One replica's recorded rotations are at least a window apart, from the stamp of one to the next
    rotation, if all rotations are on time and this replica never reads the stamp blindly.
   */
  lemma RotationsApart(c: Config, trace: seq<State>, steps: seq<Step>, n: nat, p: nat, i: nat, j: nat)
    requires IsRun(c, trace, steps) && n < |trace| && OnTime(c, trace, n) && Sighted(c, trace, steps, p, n)
    requires i < j < |trace[n].log| && trace[n].log[i].replica == trace[n].log[j].replica == p
    ensures trace[n].log[i].at <= trace[n].log[i].stamp
    ensures trace[n].log[i].stamp + c.window <= trace[n].log[j].at <= trace[n].log[j].stamp
  {
    hide Apply, Blind, Enabled;
    InvariantRun(c, trace, steps, n);
    SpacedRun(c, trace, steps, p, n);
  }

  /** These replicas' recorded rotations of the half-open window that starts at a, as indices into the log. */
  function Within(s: State, some: set<nat>, a: int, window: int): set<nat> {
    set i: nat | i < |s.log| && s.log[i].replica in some && a <= s.log[i].at < a + window
  }

  /** Those of these replicas that have rotated in that window and not yet stamped it. */
  function InFlight(s: State, some: set<nat>, a: int, window: int): set<nat> {
    set r | r in some && Rotating(s, r, a, window)
  }

  predicate Rotating(s: State, r: nat, a: int, window: int) {
    match GuardOf(s, r)
    case Rotated(_, at) => a <= at < a + window
    case Stamping(_, at, _) => a <= at < a + window
    case _ => false
  }

  lemma {:induction false} Pigeonhole(log: seq<Rotation>, some: set<nat>, replicas: set<nat>)
    requires forall i :: i in some ==> i < |log| && log[i].replica in replicas
    requires forall i, j :: i in some && j in some && log[i].replica == log[j].replica ==> i == j
    ensures |some| <= |replicas|
  {
    if some != {} {
      var i :| i in some;
      Pigeonhole(log, some - {i}, replicas - {log[i].replica});
    }
  }

  /**
    Any replicas that never read the stamp blindly make at most one rotation each in any half-open
    window of the guard's length, counting those they recorded and those still to be stamped. A
    rotation whose stamp write was lost leaves nothing that could be counted.
   */
  lemma AtMostOnePerReplica(c: Config, trace: seq<State>, steps: seq<Step>, n: nat, some: set<nat>, a: int)
    requires IsRun(c, trace, steps) && n < |trace| && OnTime(c, trace, n)
    requires forall p :: p in some ==> Sighted(c, trace, steps, p, n)
    ensures |Within(trace[n], some, a, c.window)| + |InFlight(trace[n], some, a, c.window)| <= |some|
  {
    hide Apply, Blind, Enabled, Locked;
    InvariantRun(c, trace, steps, n);
    forall p | p in some ensures Spaced(c, trace[n], p) {
      SpacedRun(c, trace, steps, p, n);
    }
    CountApart(c, trace[n], some, a);
  }

  lemma CountApart(c: Config, s: State, some: set<nat>, a: int)
    requires Ordered(s) && forall p :: p in some ==> Spaced(c, s, p)
    ensures |Within(s, some, a, c.window)| + |InFlight(s, some, a, c.window)| <= |some|
  {
    var recorded, flying := Within(s, some, a, c.window), InFlight(s, some, a, c.window);
    forall i | i in recorded ensures s.log[i].replica in some - flying {
      assert Spaced(c, s, s.log[i].replica);
      assert Apart(c, s, GuardOf(s, s.log[i].replica), s.log[i]);
    }
    forall i, j | i in recorded && j in recorded && s.log[i].replica == s.log[j].replica ensures i == j {
      assert Spaced(c, s, s.log[i].replica);
    }
    Pigeonhole(s.log, recorded, some - flying);
    assert |some - flying| == |some| - |flying|;
  }
}
