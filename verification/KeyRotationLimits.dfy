/** Runs of the rotation guard that reach its bound, and how a blind read breaks it. */
module KeyRotationLimits {
  import opened Wrappers
  import opened RedisStore
  import opened KeyRotation
  import L = TtlLock

  ghost predicate IsTimelyRun(c: Config, trace: seq<State>, steps: seq<Step>) {
    IsRun(c, trace, steps) && OnTime(c, trace, |trace|)
  }

  /** No read of the stamp fails. */
  predicate ReadsWork(steps: seq<Step>) {
    forall m :: 0 <= m < |steps| ==> !steps[m].ReadError?
  }

  lemma Extend(c: Config, trace: seq<State>, steps: seq<Step>, step: Step) returns (trace': seq<State>, steps': seq<Step>)
    requires IsTimelyRun(c, trace, steps) && Enabled(c, trace[|steps|], step)
    requires L.TimelyOn(Apply(c, trace[|steps|], step).lk, c.key)
    ensures IsTimelyRun(c, trace', steps')
    ensures steps' == steps + [step] && trace' == trace + [Apply(c, trace[|steps|], step)]
  {
    hide Apply, Enabled, L.TimelyOn;
    trace', steps' := trace + [Apply(c, trace[|steps|], step)], steps + [step];
  }

  /** Nobody works under the rotation lock, and it is free. */
  ghost predicate Quiet(c: Config, s: State) {
    !Live(s.lk.db, c.key, s.lk.now) && forall t :: t in s.lk.handles ==> !s.lk.handles[t].working
  }

  /** Replica r holds the lock, taken just now, and nobody else works. */
  ghost predicate JustTaken(c: Config, s: State, r: nat, token: string) {
    && GuardOf(s, r) == Holding(token) && token in s.lk.handles
    && s.lk.handles[token] == L.Handle(c.key, s.lk.now, c.lockTTL, true, false)
    && Live(s.lk.db, c.key, s.lk.now) && s.lk.db[c.key].value == token
    && forall t :: t in s.lk.handles && s.lk.handles[t].working ==> t == token
  }

  lemma Take(c: Config, s: State, r: nat, token: string)
    requires ValidConfig(c) && GuardOf(s, r).Checked? && Quiet(c, s) && token !in s.lk.used
    ensures Enabled(c, s, Acquire(r, token))
    ensures var t := Apply(c, s, Acquire(r, token));
            && JustTaken(c, t, r, token) && L.TimelyOn(t.lk, c.key) && t.lk.now == s.lk.now && t.lk.used == s.lk.used + {token}
            && t.log == s.log && t.guards == s.guards[r := Holding(token)]
  {
  }

  /** The three states after the lock was taken: rotated, clock read, stamped. */
  lemma Work(c: Config, s: State, r: nat, token: string) returns (s1: State, s2: State, s3: State)
    requires ValidConfig(c) && JustTaken(c, s, r, token)
    ensures Enabled(c, s, Rotate(r, true)) && Apply(c, s, Rotate(r, true)) == s1 && s1.lk == s.lk
    ensures Enabled(c, s1, TakeTime(r)) && Apply(c, s1, TakeTime(r)) == s2 && s2.lk == s.lk
    ensures Enabled(c, s2, Stamp(r, true)) && Apply(c, s2, Stamp(r, true)) == s3
    ensures s3 == s.(stamp := Some(s.lk.now), log := s.log + [Rotation(r, s.lk.now, s.lk.now)],
                     guards := s.guards[r := Closing(token)])
    ensures L.TimelyOn(s.lk, c.key)
  {
    hide L.Apply;
    s1 := Apply(c, s, Rotate(r, true));
    s2 := Apply(c, s1, TakeTime(r));
    s3 := Apply(c, s2, Stamp(r, true));
    assert s3.guards == s.guards[r := Closing(token)];
  }

  lemma GiveBack(c: Config, s: State, r: nat, token: string)
    requires ValidConfig(c) && JustTaken(c, s.(guards := s.guards[r := Holding(token)]), r, token)
    requires GuardOf(s, r) == Closing(token)
    ensures Enabled(c, s, Release(r, true))
    ensures var t := Apply(c, s, Release(r, true));
            && Quiet(c, t) && L.TimelyOn(t.lk, c.key) && t.lk.now == s.lk.now && t.lk.used == s.lk.used
            && t.log == s.log && t.guards == s.guards[r := Idle]
  {
  }

  /** The steps of a replica that is past its check, rotates and records it. */
  function RotationSteps(r: nat, token: string): seq<Step> {
    [Acquire(r, token), Rotate(r, true), TakeTime(r), Stamp(r, true), Release(r, true)]
  }

  /** Replica r, past its check, rotates and records it without any time passing. */
  lemma RotateAtOnce(c: Config, trace: seq<State>, steps: seq<Step>, r: nat, token: string)
    returns (trace': seq<State>, steps': seq<Step>)
    requires IsTimelyRun(c, trace, steps)
    requires var s := trace[|steps|]; GuardOf(s, r).Checked? && Quiet(c, s) && token !in s.lk.used
    ensures IsTimelyRun(c, trace', steps') && |trace'| == |steps'| + 1
    ensures steps' == steps + RotationSteps(r, token) && trace <= trace'
    ensures var s, t := trace[|steps|], trace'[|steps'|];
            && Quiet(c, t) && t.lk.now == s.lk.now && t.lk.used == s.lk.used + {token}
            && t.log == s.log + [Rotation(r, s.lk.now, s.lk.now)] && t.guards == s.guards[r := Idle]
  {
    assert |trace| == |steps| + 1 && ValidConfig(c);
    hide IsTimelyRun, IsRun, OnTime, Apply, Enabled, Quiet, L.TimelyOn;
    var s := trace[|steps|];
    Take(c, s, r, token);
    trace', steps' := Extend(c, trace, steps, Acquire(r, token));
    var held := trace'[|steps'|];
    var _, _, done := Work(c, held, r, token);
    trace', steps' := Extend(c, trace', steps', Rotate(r, true));
    trace', steps' := Extend(c, trace', steps', TakeTime(r));
    trace', steps' := Extend(c, trace', steps', Stamp(r, true));
    assert held.guards == done.guards[r := Holding(token)];
    GiveBack(c, done, r, token);
    trace', steps' := Extend(c, trace', steps', Release(r, true));
    assert trace'[|steps'|].guards == s.guards[r := Idle];
  }

  lemma Check(c: Config, s: State, r: nat, step: Step)
    requires r in s.guards && s.guards[r].Idle? && Quiet(c, s)
    requires (step == Read(r) && (s.stamp.None? || s.stamp.value + c.window <= s.lk.now)) || step == ReadError(r)
    ensures Enabled(c, s, step) && Apply(c, s, step) == s.(guards := s.guards[r := Checked]) && L.TimelyOn(s.lk, c.key)
  {
  }

  /** n idle replicas. */
  function Guards(n: nat): (guards: map<nat, Guard>)
    ensures forall r: nat :: r in guards <==> r < n
    ensures forall r: nat :: r in guards ==> guards[r].Idle?
    ensures |guards| == n
  {
    if n == 0 then map[] else Guards(n - 1)[n - 1 := Idle]
  }

  /** k of n replicas check before any of them takes the lock. */
  lemma {:induction false} AllCheck(c: Config, n: nat, k: nat) returns (trace: seq<State>, steps: seq<Step>)
    requires ValidConfig(c) && k <= n
    ensures IsTimelyRun(c, trace, steps) && ReadsWork(steps) && |trace| == |steps| + 1 && trace[0].guards == Guards(n)
    ensures var s := trace[|steps|];
            && s.lk == L.LockState(0, map[], map[], {}) && s.stamp == None && s.log == []
            && (forall r: nat :: r < n ==> r in s.guards && s.guards[r] == if r < k then Checked else Idle)
  {
    if k == 0 {
      trace, steps := [State(L.LockState(0, map[], map[], {}), None, Guards(n), [])], [];
    } else {
      hide IsTimelyRun, IsRun, OnTime, L.TimelyOn, Guards;
      trace, steps := AllCheck(c, n, k - 1);
      Check(c, trace[|steps|], k - 1, Read(k - 1));
      hide Apply, Enabled;
      trace, steps := Extend(c, trace, steps, Read(k - 1));
    }
  }

  /** The replicas 0, 1, ..., n - 1. */
  function Replicas(n: nat): (replicas: set<nat>)
    ensures |replicas| == n && forall r: nat :: r in replicas <==> r < n
  {
    if n == 0 then {} else Replicas(n - 1) + {n - 1}
  }

  /**
    The bound is reached with no read of the stamp failing, and so none being blind: n replicas that
    all check before the first takes the lock rotate n times in one instant.
   */
  lemma {:induction false} BoundReached(c: Config, n: nat, k: nat) returns (trace: seq<State>, steps: seq<Step>)
    requires ValidConfig(c) && k <= n
    ensures IsTimelyRun(c, trace, steps) && ReadsWork(steps) && |trace| == |steps| + 1 && trace[0].guards.Keys == Replicas(n)
    ensures var s := trace[|steps|];
            && Quiet(c, s) && s.lk.now == 0 && (forall t :: t in s.lk.used ==> |t| < k)
            && (forall r: nat :: k <= r < n ==> GuardOf(s, r).Checked?)
            && |s.log| == k && |Within(s, Replicas(n), 0, c.window)| == k
  {
    hide IsTimelyRun, IsRun, OnTime, Apply, Enabled, Replicas, Guards;
    if k == 0 {
      trace, steps := AllCheck(c, n, n);
      assert trace[0].guards.Keys == Replicas(n);
      assert Within(trace[|steps|], Replicas(n), 0, c.window) == {};
    } else {
      trace, steps := BoundReached(c, n, k - 1);
      var s := trace[|steps|];
      assert GuardOf(s, k - 1).Checked?;
      trace, steps := RotateAtOnce(c, trace, steps, k - 1, seq(k - 1, _ => 'x'));
      forall r: nat | k <= r < n ensures GuardOf(trace[|steps|], r).Checked? {
        assert GuardOf(s, r).Checked?;
      }
      OneMoreWithin(s, trace[|steps|], Replicas(n), 0, c.window, k - 1);
    }
  }

  lemma OneMoreWithin(s: State, t: State, some: set<nat>, a: int, window: int, r: nat)
    requires r in some && a == s.lk.now < a + window && t.log == s.log + [Rotation(r, a, a)]
    ensures |Within(t, some, a, window)| == |Within(s, some, a, window)| + 1
  {
    var before, after := Within(s, some, a, window), Within(t, some, a, window);
    forall i: nat ensures i in after <==> i in before || i == |s.log| {
      if i < |s.log| {
        assert t.log[i] == s.log[i];
      }
    }
    hide Within;
    assert after == before + {|s.log|};
  }

  /**
    Progress. Whenever the lock is free and a replica idle, and the stamp, if there is one, is at least
    a window old, the replica's next read lets it rotate and record it at once: nothing but a younger
    stamp, a held lock or a failure keeps a tenant's keys from being rotated.
   */
  lemma StaleStampRotates(c: Config, trace: seq<State>, steps: seq<Step>, p: nat, token: string)
    returns (trace': seq<State>, steps': seq<Step>)
    requires IsTimelyRun(c, trace, steps)
    requires var s := trace[|steps|];
             && Quiet(c, s) && p in s.guards && s.guards[p].Idle? && token !in s.lk.used
             && (s.stamp.None? || s.stamp.value + c.window <= s.lk.now)
    ensures IsTimelyRun(c, trace', steps') && trace <= trace' && |trace'| == |steps'| + 1
    ensures steps' == steps + [Read(p)] + RotationSteps(p, token)
    ensures var s, t := trace[|steps|], trace'[|steps'|];
            && t.log == s.log + [Rotation(p, s.lk.now, s.lk.now)] && t.lk.now == s.lk.now && Quiet(c, t)
  {
    assert |trace| == |steps| + 1;
    hide IsTimelyRun, IsRun, OnTime, Apply, Enabled, Quiet, L.TimelyOn;
    var s := trace[|steps|];
    Check(c, s, p, Read(p));
    trace', steps' := Extend(c, trace, steps, Read(p));
    QuietLock(c, s, trace'[|steps'|]);
    trace', steps' := RotateAtOnce(c, trace', steps', p, token);
  }

  /**
    The premise on reads is needed: from any timely run with the lock free, a replica that is idle
    and rotated less than a window ago can read the stamp blindly, and then nothing stops it from
    rotating again at once. A replica's ticks come a window apart, so in the deployed loop this is the
    tick after its rotation; two rotations in one instant take a tick received a whole period late.
   */
  lemma BlindReadBreaks(c: Config, trace: seq<State>, steps: seq<Step>, p: nat, i: nat, token: string)
    returns (trace': seq<State>, steps': seq<Step>)
    requires IsTimelyRun(c, trace, steps)
    requires var s := trace[|steps|];
             && Quiet(c, s) && p in s.guards && s.guards[p].Idle? && token !in s.lk.used
             && i < |s.log| && s.log[i].replica == p && s.lk.now < s.log[i].stamp + c.window
    ensures IsTimelyRun(c, trace', steps') && trace <= trace' && |trace'| == |steps'| + 1
    ensures steps' == steps + [ReadError(p)] + RotationSteps(p, token) && Blind(c, trace[|steps|], steps'[|steps|], p)
    ensures var s, t := trace[|steps|], trace'[|steps'|];
            && t.log == s.log + [Rotation(p, s.lk.now, s.lk.now)] && !Spaced(c, t, p)
            && t.log[|s.log|].at < t.log[i].stamp + c.window
  {
    assert |trace| == |steps| + 1;
    hide IsTimelyRun, IsRun, OnTime, Apply, Enabled, Quiet, L.TimelyOn;
    var s := trace[|steps|];
    Check(c, s, p, ReadError(p));
    trace', steps' := Extend(c, trace, steps, ReadError(p));
    QuietLock(c, s, trace'[|steps'|]);
    trace', steps' := RotateAtOnce(c, trace', steps', p, token);
    BrokenSpacing(c, trace'[|steps'|], p, i);
  }

  lemma UnusedToken(used: set<string>) returns (n: nat)
    ensures forall t :: t in used ==> |t| < n
  {
    n := 0;
    if used != {} {
      var t :| t in used;
      var m := UnusedToken(used - {t});
      n := if |t| < m then m else |t| + 1;
    }
  }

  /** The timely runs that go on with a failed read by p and in which p does not read blindly after that. */
  ghost predicate GoesOn(c: Config, trace: seq<State>, steps: seq<Step>, p: nat, trace': seq<State>, steps': seq<Step>) {
    && IsTimelyRun(c, trace', steps') && |trace'| == |steps'| + 1 && trace <= trace' && steps + [ReadError(p)] <= steps'
    && forall m :: |steps| < m < |steps'| ==> !Blind(c, trace'[m], steps'[m], p)
  }

  /**
    Exactly when a failed read costs the spacing: from a timely run with the lock free in which p, now
    idle, has not read blindly, every way on keeps p's rotations a window apart if and only if p has
    recorded no rotation within the last window.
   */
  lemma SpacingKeptIff(c: Config, trace: seq<State>, steps: seq<Step>, p: nat)
    requires IsTimelyRun(c, trace, steps) && Sighted(c, trace, steps, p, |steps|)
    requires var s := trace[|steps|]; Quiet(c, s) && p in s.guards && s.guards[p].Idle?
    ensures (forall trace', steps' :: GoesOn(c, trace, steps, p, trace', steps') ==> Spaced(c, trace'[|steps'|], p))
              <==> !Blind(c, trace[|steps|], ReadError(p), p)
  {
    var s := trace[|steps|];
    if Blind(c, s, ReadError(p), p) {
      var i :| 0 <= i < |s.log| && s.log[i].replica == p && s.lk.now < s.log[i].stamp + c.window;
      var n := UnusedToken(s.lk.used);
      hide IsTimelyRun, IsRun, OnTime, Apply, Enabled, Quiet, Blind, Spaced;
      var trace', steps' := BlindReadBreaks(c, trace, steps, p, i, seq(n, _ => 'x'));
      forall m | |steps| < m < |steps'| ensures !Blind(c, trace'[m], steps'[m], p) {
        assert steps'[m] == RotationSteps(p, seq(n, _ => 'x'))[m - |steps| - 1];
        OnlyReadsAreBlind(c, trace'[m], steps'[m], p);
      }
      assert GoesOn(c, trace, steps, p, trace', steps');
    } else {
      forall trace', steps' | GoesOn(c, trace, steps, p, trace', steps') ensures Spaced(c, trace'[|steps'|], p) {
        hide IsRun, Apply, Enabled, Quiet, Blind, Spaced, L.TimelyOn;
        forall m | 0 <= m < |steps'| ensures !Blind(c, trace'[m], steps'[m], p) {
          assert m < |steps| ==> trace'[m] == trace[m] && steps'[m] == (steps + [ReadError(p)])[m] == steps[m];
          assert m == |steps| ==> trace'[m] == trace[m] && steps'[m] == (steps + [ReadError(p)])[m] == ReadError(p);
        }
        SpacedRun(c, trace', steps', p, |steps'|);
      }
    }
  }

  lemma OnlyReadsAreBlind(c: Config, s: State, step: Step, p: nat)
    requires !step.ReadError?
    ensures !Blind(c, s, step, p)
  {
  }

  lemma QuietLock(c: Config, s: State, t: State)
    requires Quiet(c, s) && t.lk == s.lk
    ensures Quiet(c, t)
  {
  }

  lemma BrokenSpacing(c: Config, s: State, p: nat, i: nat)
    requires i < |s.log| - 1 && s.log[i].replica == s.log[|s.log| - 1].replica == p
    requires s.log[|s.log| - 1].at < s.log[i].stamp + c.window
    ensures !Spaced(c, s, p)
  {
  }
}
