/** The guard loop as it is written (cmd/token-engine/main.go), over the Redis its replicas share. */
module RotationGuardLoop {
  import opened Wrappers
  import opened Sequences
  import opened RedisStore
  import opened CallLog
  import opened KeyRotation
  import L = TtlLock

  function Actor(step: Step): Option<nat> {
    if step.Tick? then None else Some(step.r)
  }

  /** How many of the recorded rotations are r's. */
  function CountBy(log: seq<Rotation>, r: nat): nat {
    if log == [] then 0 else CountBy(log[..|log| - 1], r) + if log[|log| - 1].replica == r then 1 else 0
  }

  /** Steps of others leave r's guard and r's rotations alone. */
  lemma StepFrame(c: Config, s: State, step: Step, r: nat)
    requires Enabled(c, s, step) && Actor(step) != Some(r) && r in s.guards
    ensures var t := Apply(c, s, step);
            r in t.guards && t.guards[r] == s.guards[r] && CountBy(t.log, r) == CountBy(s.log, r)
  {
    hide L.Apply, L.Enabled;
    var t := Apply(c, s, step);
    if t.log != s.log { assert t.log[..|s.log|] == s.log; }
  }

  // ----- Redis and the key manager, as the loop sees them -----

  /** The tenant's rotation lock and stamp in Redis; net says which of one replica's calls, by number, Redis answers. */
  class RotationStore {
    const log: Log
    const net: nat -> bool
    var sent: nat
    var lk: L.LockState
    var stamp: Option<int>

    constructor (log: Log, net: nat -> bool, lk: L.LockState, stamp: Option<int>)
      ensures this.log == log && this.net == net && this.lk == lk && this.stamp == stamp
    {
      this.log, this.net, this.lk, this.stamp, sent := log, net, lk, stamp, 0;
    }

    /** None is an error. */
    method Get() returns (answer: Option<Option<int>>)
      modifies this`sent, log
      ensures answer == if net(old(sent)) then Some(stamp) else None
      ensures log.calls == old(log.calls) + [GotStamp(answer)]
    {
      answer := if net(sent) then Some(stamp) else None;
      sent := sent + 1;
      log.Add(GotStamp(answer));
    }

    /** A write that fails may have reached Redis all the same; written, which the loop never looks at, says whether it did. */
    method Set(value: int) returns (ok: bool, written: bool)
      modifies this`stamp, this`sent, log
      ensures ok == net(old(sent)) && (ok ==> written) && stamp == if written then Some(value) else old(stamp)
      ensures log.calls == old(log.calls) + [SetStamp(value, ok)]
    {
      var works, reached: bool := net(sent), *;
      sent, ok, written := sent + 1, works, works || reached;
      if works || reached { stamp := Some(value); }
      log.Add(SetStamp(value, ok));
    }

    /** RedisLock.Acquire, as one step of the lock: None is an error or a lock that is taken. */
    method Acquire(key: string, ttl: int) returns (got: Option<string>, ghost step: L.LockStep)
      requires ttl > 0
      modifies this`lk, this`sent, log
      ensures L.Enabled(old(lk), step) && lk == L.Apply(old(lk), step)
      ensures (step.Acquire? || step.AcquireError?) && step.key == key && step.ttl == ttl
      ensures step.Acquire? <==> net(old(sent))
      ensures got == if net(old(sent)) && !Live(old(lk).db, key, old(lk).now) then Some(step.token) else None
      ensures log.calls == old(log.calls) + [Tried(key, got)]
    {
      hide CompareAndDelete;
      var token := L.FreshToken(lk.used);
      var works, reached: bool := net(sent), *;
      sent := sent + 1;
      if works {
        got := if Live(lk.db, key, lk.now) then None else Some(token);
        step := L.Acquire(token, key, ttl);
        lk := L.Apply(lk, L.Acquire(token, key, ttl));
      } else {
        got := None;
        step := L.AcquireError(token, key, ttl, reached);
        lk := L.Apply(lk, L.AcquireError(token, key, ttl, reached));
      }
      log.Add(Tried(key, got));
    }

    /** The work under the lock is over and the lock is given back; the script may fail to run. */
    method Release(token: string) returns (ghost executed: bool)
      requires L.Enabled(lk, L.EndWork(token))
      modifies this`lk, this`sent, log
      ensures net(old(sent)) ==> executed
      ensures lk == L.Apply(L.Apply(old(lk), L.EndWork(token)), L.Release(token, executed))
      ensures log.calls == old(log.calls) + [GaveBack(token)]
    {
      hide CompareAndDelete;
      var reached: bool := *;
      var runs := net(sent) || reached;
      sent, executed := sent + 1, runs;
      lk := L.Apply(L.Apply(lk, L.EndWork(token)), L.Release(token, runs));
      log.Add(GaveBack(token));
    }
  }

  class KeyManager {
    const log: Log

    constructor (log: Log)
      ensures this.log == log
    {
      this.log := log;
    }

    method RotateKeys() returns (ok: bool)
      modifies log
      ensures log.calls == old(log.calls) + [RotatedKeys(ok)]
    {
      ok := *;
      log.Add(RotatedKeys(ok));
    }
  }

  // ----- what one tick does -----

  datatype TickResult = TooSoon | NotLocked | Failed | Unrecorded | Recorded

  /** r's own steps, in order. */
  function Own(steps: seq<Step>, r: nat): seq<Step> {
    Filter(steps, (step: Step) => Actor(step) == Some(r))
  }

  lemma OwnAppend(steps: seq<Step>, step: Step, r: nat)
    ensures Own(steps + [step], r) == Own(steps, r) + if Actor(step) == Some(r) then [step] else []
  {
    FilterAppend(steps, step, (step: Step) => Actor(step) == Some(r));
  }

  /** Under the lock: rotate, and if that works read the clock and write the stamp; then give the lock back. */
  ghost predicate LockedPart(calls: seq<Call>, steps: seq<Step>, r: nat, token: string, result: TickResult) {
    && |calls| >= 2 && |steps| >= 2 && calls[0].RotatedKeys? && steps[0] == Rotate(r, calls[0].ok)
    && calls[|calls| - 1] == GaveBack(token) && steps[|steps| - 1].Release? && steps[|steps| - 1].r == r
    && match result
       case Failed => |calls| == |steps| == 2 && !calls[0].ok
       case Unrecorded => |calls| == 3 && |steps| == 4 && calls[0].ok && Stamps(calls[1], steps[1], steps[2], r, false)
       case Recorded => |calls| == 3 && |steps| == 4 && calls[0].ok && Stamps(calls[1], steps[1], steps[2], r, true)
       case _ => false
  }

  /** The stamp is the clock's reading; a call that worked has written it. */
  ghost predicate Stamps(call: Call, read: Step, write: Step, r: nat, written: bool) {
    call.SetStamp? && (call.ok ==> written) && read == TakeTime(r) && write == Stamp(r, written)
  }

  /** Past the check: the lock is tried once, and exactly if it is got the rest follows. */
  ghost predicate LockPath(c: Config, calls: seq<Call>, steps: seq<Step>, r: nat, result: TickResult) {
    && |calls| >= 1 && |steps| >= 1 && calls[0].Tried? && calls[0].key == c.key && !result.TooSoon?
    && match calls[0].got
       case None => |calls| == |steps| == 1 && result.NotLocked? && (steps[0].Acquire? || steps[0].AcquireError?) && steps[0].r == r
       case Some(token) => steps[0] == KeyRotation.Acquire(r, token) && LockedPart(calls[1..], steps[1..], r, token, result)
  }

  /**
    A whole tick: what was asked of Redis and the key manager, the steps taken, and the result. The
    tick ends at the check exactly when the stamp was read and lies inside the window.
   */
  ghost predicate TickPath(c: Config, calls: seq<Call>, steps: seq<Step>, r: nat, now: int, result: TickResult) {
    && |calls| >= 1 && |steps| >= 1 && calls[0].GotStamp?
    && steps[0] == (if calls[0].answer.Some? then Read(r) else ReadError(r))
    && (if calls[0].answer.Some? && calls[0].answer.value.Some? && now < calls[0].answer.value.value + c.window
        then |calls| == |steps| == 1 && result.TooSoon?
        else LockPath(c, calls[1..], steps[1..], r, result))
  }

  /** The guard loops of all replicas for one tenant. */
  class RotationGuards {
    const c: Config
    const redis: RotationStore
    var guards: map<nat, Guard>
    var log: seq<Rotation>
    ghost var trace: seq<State>
    ghost var steps: seq<Step>

    ghost function Present(): State
      reads this, redis
    {
      State(redis.lk, redis.stamp, guards, log)
    }

    ghost predicate Valid()
      reads this, redis
    {
      IsRun(c, trace, steps) && trace[|steps|] == Present()
    }

    twostate predicate Grew()
      reads this
    {
      old(trace) <= trace && old(steps) <= steps
    }

    constructor (c: Config, redis: RotationStore, guards: map<nat, Guard>)
      requires ValidConfig(c) && Init(State(redis.lk, redis.stamp, guards, []))
      ensures Valid() && this.c == c && this.redis == redis && this.guards == guards && steps == [] && log == []
    {
      this.c, this.redis, this.guards, log := c, redis, guards, [];
      trace, steps := [State(redis.lk, redis.stamp, guards, [])], [];
    }

    ghost method Log(step: Step)
      requires IsRun(c, trace, steps) && Enabled(c, trace[|steps|], step) && Present() == Apply(c, trace[|steps|], step)
      modifies this`trace, this`steps
      ensures Valid() && steps == old(steps) + [step] && trace == old(trace) + [Present()]
      ensures forall r: nat :: Own(steps, r) == Own(old(steps), r) + if Actor(step) == Some(r) then [step] else []
    {
      hide Apply, Enabled, Own;
      forall r: nat ensures Own(steps + [step], r) == Own(steps, r) + if Actor(step) == Some(r) then [step] else [] {
        OwnAppend(steps, step, r);
      }
      trace, steps := trace + [Present()], steps + [step];
    }

    /** Any number of steps of the clock and of replicas other than r. */
    method Interfere(r: nat)
      requires Valid() && r in guards
      modifies this, redis
      ensures Valid() && Grew() && Own(steps, r) == Own(old(steps), r)
      ensures r in guards && guards[r] == old(guards[r]) && CountBy(log, r) == CountBy(old(log), r)
    {
      var n: nat := *;
      while n > 0
        invariant Valid() && Grew() && Own(steps, r) == Own(old(steps), r)
        invariant r in guards && guards[r] == old(guards[r]) && CountBy(log, r) == CountBy(old(log), r)
      {
        hide Apply, Enabled, CountBy, Own;
        n := n - 1;
        var step: Step := *;
        var s := State(redis.lk, redis.stamp, guards, log);
        if Enabled(c, s, step) && Actor(step) != Some(r) {
          StepFrame(c, s, step, r);
          var t := Apply(c, s, step);
          redis.lk, redis.stamp, guards, log := t.lk, t.stamp, t.guards, t.log;
          Log(step);
        }
      }
    }

    /** Reads the stamp, whose error the loop drops, and decides whether to go on. */
    method ReadStamp(r: nat) returns (go: bool, ghost call: Call, ghost step: Step)
      requires Valid() && r in guards && guards[r].Idle?
      modifies this, redis`sent, redis.log
      ensures Valid() && Grew() && log == old(log) && guards == old(guards)[r := if go then Checked else Idle]
      ensures redis.log.calls == old(redis.log.calls) + [call] && call.GotStamp?
      ensures steps == old(steps) + [step] && step == (if call.answer.Some? then Read(r) else ReadError(r))
      ensures Own(steps, r) == Own(old(steps), r) + [step]
      ensures go <==>
                call.answer.None? || call.answer.value.None? || call.answer.value.value + c.window <= redis.lk.now
      ensures call.answer.Some? ==> call.answer.value == redis.stamp
    {
      hide IsRun, Own;
      var val := redis.Get();
      go := true;
      if val.Some? && val.value.Some? && redis.lk.now - val.value.value < c.window {
        go := false;
      }
      guards := guards[r := if go then Checked else Idle];
      call, step := GotStamp(val), if val.Some? then Read(r) else ReadError(r);
      Log(step);
    }

    /** Takes the rotation lock, or gives this tick up. */
    method TakeLock(r: nat) returns (got: Option<string>, ghost step: Step)
      requires Valid() && r in guards && guards[r].Checked?
      modifies this, redis, redis.log
      ensures Valid() && Grew() && log == old(log)
      ensures guards == old(guards)[r := if got.Some? then Holding(got.value) else Idle]
      ensures redis.log.calls == old(redis.log.calls) + [Tried(c.key, got)]
      ensures (step.Acquire? || step.AcquireError?) && step.r == r && Own(steps, r) == Own(old(steps), r) + [step]
      ensures got.Some? ==> step == KeyRotation.Acquire(r, got.value)
    {
      assert ValidConfig(c) by { RunConfig(c, trace, steps); }
      hide IsRun, Own, L.Apply, L.Enabled;
      ghost var lockStep;
      got, lockStep := redis.Acquire(c.key, c.lockTTL);
      guards := guards[r := if got.Some? then Holding(got.value) else Idle];
      step := if lockStep.Acquire? then KeyRotation.Acquire(r, lockStep.token)
              else KeyRotation.AcquireError(r, lockStep.token, lockStep.written);
      Log(step);
    }

    method Rotate(r: nat, km: KeyManager) returns (ok: bool)
      requires Valid() && r in guards && guards[r].Holding? && km.log == redis.log
      modifies this, redis.log
      ensures Valid() && Grew() && log == old(log)
      ensures var token := old(guards[r]).token;
              guards == old(guards)[r := if ok then Rotated(token, redis.lk.now) else Closing(token)]
      ensures redis.log.calls == old(redis.log.calls) + [RotatedKeys(ok)]
      ensures Own(steps, r) == Own(old(steps), r) + [Step.Rotate(r, ok)]
    {
      hide IsRun, Own;
      ok := km.RotateKeys();
      var token := guards[r].token;
      guards := guards[r := if ok then Rotated(token, redis.lk.now) else Closing(token)];
      Log(Step.Rotate(r, ok));
    }

    /** time.Now() */
    method ReadClock(r: nat) returns (now: int)
      requires Valid() && r in guards && guards[r].Rotated?
      modifies this
      ensures Valid() && Grew() && log == old(log) && now == redis.lk.now
      ensures guards == old(guards)[r := Stamping(old(guards[r]).token, old(guards[r]).at, now)]
      ensures Own(steps, r) == Own(old(steps), r) + [TakeTime(r)]
    {
      hide IsRun, Own;
      now := redis.lk.now;
      guards := guards[r := Stamping(guards[r].token, guards[r].at, now)];
      Log(TakeTime(r));
    }

    /** Writes the stamp; the loop drops the error. */
    method WriteStamp(r: nat, value: int) returns (ok: bool, written: bool)
      requires Valid() && r in guards && guards[r].Stamping? && guards[r].value == value
      modifies this, redis`stamp, redis`sent, redis.log
      ensures Valid() && Grew() && guards == old(guards)[r := Closing(old(guards[r]).token)] && (ok ==> written)
      ensures redis.stamp == if written then Some(value) else old(redis.stamp)
      ensures log == if written then old(log) + [Rotation(r, old(guards[r]).at, value)] else old(log)
      ensures redis.log.calls == old(redis.log.calls) + [SetStamp(value, ok)]
      ensures Own(steps, r) == Own(old(steps), r) + [Stamp(r, written)]
    {
      hide IsRun, Own;
      ok, written := redis.Set(value);
      if written { log := log + [Rotation(r, guards[r].at, value)]; }
      guards := guards[r := Closing(guards[r].token)];
      Log(Stamp(r, written));
    }

    /** Gives the lock back. */
    method Unlock(r: nat)
      requires Valid() && r in guards && guards[r].Closing?
      modifies this, redis`lk, redis`sent, redis.log
      ensures Valid() && Grew() && log == old(log) && guards == old(guards)[r := Idle]
      ensures var token := old(guards[r]).token;
              && token in redis.lk.handles && redis.lk.handles[token].released && !redis.lk.handles[token].working
              && redis.log.calls == old(redis.log.calls) + [GaveBack(token)]
      ensures exists executed :: Own(steps, r) == Own(old(steps), r) + [Release(r, executed)]
    {
      OwnedRun(c, trace, steps, |steps|);
      hide IsRun, Own, CompareAndDelete;
      ghost var executed := redis.Release(guards[r].token);
      guards := guards[r := Idle];
      Log(Release(r, executed));
    }

    /** Under the lock: rotate, stamp, unlock. */
    method RotateLocked(r: nat, km: KeyManager) returns (result: TickResult, ghost own: seq<Step>, ghost calls: seq<Call>)
      requires Valid() && r in guards && guards[r].Holding? && km.log == redis.log
      modifies this, redis, redis.log
      ensures !result.TooSoon?
      ensures Valid() && Grew() && r in guards && guards[r].Idle?
      ensures CountBy(log, r) == CountBy(old(log), r) + if result.Recorded? then 1 else 0
      ensures Own(steps, r) == Own(old(steps), r) + own && redis.log.calls == old(redis.log.calls) + calls
      ensures var token := old(guards[r]).token;
              && LockedPart(calls, own, r, token, result)
              && token in redis.lk.handles && redis.lk.handles[token].released && !redis.lk.handles[token].working
    {
      hide Apply, Enabled, IsRun, CountBy, Own, LockedPart, Stamps;
      ghost var token := guards[r].token;
      var ok := Rotate(r, km);
      Interfere(r);
      if !ok {
        Unlock(r);
        result := Failed;
        ghost var executed :| Own(steps, r) == Own(old(steps), r) + [Step.Rotate(r, false)] + [Release(r, executed)];
        own, calls := [Step.Rotate(r, false), Release(r, executed)], [RotatedKeys(false), GaveBack(token)];
        FailedPart(r, token, executed);
        return;
      }
      ghost var rest, asked;
      result, rest, asked := StampAndUnlock(r);
      own, calls := [Step.Rotate(r, true)] + rest, [RotatedKeys(true)] + asked;
    }

    /** After a rotation: read the clock, write the stamp, unlock. */
    method StampAndUnlock(r: nat) returns (result: TickResult, ghost own: seq<Step>, ghost calls: seq<Call>)
      requires Valid() && r in guards && guards[r].Rotated?
      modifies this, redis, redis.log
      ensures !result.TooSoon?
      ensures Valid() && Grew() && r in guards && guards[r].Idle?
      ensures CountBy(log, r) == CountBy(old(log), r) + if result.Recorded? then 1 else 0
      ensures Own(steps, r) == Own(old(steps), r) + own && redis.log.calls == old(redis.log.calls) + calls
      ensures var token := old(guards[r]).token;
              && LockedPart([RotatedKeys(true)] + calls, [Step.Rotate(r, true)] + own, r, token, result)
              && token in redis.lk.handles && redis.lk.handles[token].released && !redis.lk.handles[token].working
    {
      hide Apply, Enabled, IsRun, CountBy, Own, LockedPart, Stamps;
      ghost var token := guards[r].token;
      var now := ReadClock(r);
      Interfere(r);
      var worked, written := Record(r, now);
      Interfere(r);
      Unlock(r);
      result := if written then Recorded else Unrecorded;
      ghost var executed :| Own(steps, r) == Own(old(steps), r) + [TakeTime(r)] + [Stamp(r, written)] + [Release(r, executed)];
      own := [TakeTime(r), Stamp(r, written), Release(r, executed)];
      calls := [SetStamp(now, worked), GaveBack(token)];
      StampedPart(r, token, now, worked, written, executed);
    }

    method Record(r: nat, value: int) returns (ok: bool, written: bool)
      requires Valid() && r in guards && guards[r].Stamping? && guards[r].value == value
      modifies this, redis`stamp, redis`sent, redis.log
      ensures Valid() && Grew() && r in guards && guards[r] == Closing(old(guards[r]).token) && (ok ==> written)
      ensures CountBy(log, r) == CountBy(old(log), r) + if written then 1 else 0
      ensures redis.log.calls == old(redis.log.calls) + [SetStamp(value, ok)]
      ensures Own(steps, r) == Own(old(steps), r) + [Stamp(r, written)]
    {
      hide Apply, Enabled, IsRun, Own;
      ok, written := WriteStamp(r, value);
      if written { assert log[..|log| - 1] == old(log); }
    }

    /**
      One tick of replica r's loop, with everyone else at work in between. What it asked of Redis and
      the key manager, the protocol steps it took and its result are those of a tick; it records at
      most one rotation, and a lock it got is given back.
     */
    method OnTick(r: nat, km: KeyManager) returns (result: TickResult, ghost own: seq<Step>, ghost calls: seq<Call>)
      requires Valid() && r in guards && guards[r].Idle? && km.log == redis.log
      modifies this, redis, redis.log
      ensures Valid() && Grew() && r in guards && guards[r].Idle?
      ensures CountBy(log, r) == CountBy(old(log), r) + if result.Recorded? then 1 else 0
      ensures Own(steps, r) == Own(old(steps), r) + own && redis.log.calls == old(redis.log.calls) + calls
      ensures TickPath(c, calls, own, r, old(redis.lk.now), result)
      ensures calls[0].answer.Some? ==> calls[0].answer.value == old(redis.stamp)
      ensures result.TooSoon? <==>
                calls[0].answer.Some? && old(redis.stamp).Some? && old(redis.lk.now) < old(redis.stamp).value + c.window
      ensures |calls| > 1 && calls[1].Tried? && calls[1].got.Some? ==>
                var token := calls[1].got.value;
                token in redis.lk.handles && redis.lk.handles[token].released && !redis.lk.handles[token].working
    {
      hide Apply, Enabled, IsRun, CountBy, Own, LockPath, MayRotate;
      ghost var call, step;
      var go;
      go, call, step := ReadStamp(r);
      if !go {
        result, own, calls := TooSoon, [step], [call];
        return;
      }
      Interfere(r);
      ghost var rest, asked;
      result, rest, asked := LockAndRotate(r, km);
      own, calls := [step] + rest, [call] + asked;
      assert own[1..] == rest && calls[1..] == asked;
    }

    /** The check has passed: try the lock, and if it is got do the rest. */
    method LockAndRotate(r: nat, km: KeyManager) returns (result: TickResult, ghost own: seq<Step>, ghost calls: seq<Call>)
      requires Valid() && r in guards && guards[r].Checked? && km.log == redis.log
      modifies this, redis, redis.log
      ensures Valid() && Grew() && r in guards && guards[r].Idle?
      ensures CountBy(log, r) == CountBy(old(log), r) + if result.Recorded? then 1 else 0
      ensures Own(steps, r) == Own(old(steps), r) + own && redis.log.calls == old(redis.log.calls) + calls
      ensures LockPath(c, calls, own, r, result) && !result.TooSoon?
      ensures calls[0].got.Some? ==>
                var token := calls[0].got.value;
                token in redis.lk.handles && redis.lk.handles[token].released && !redis.lk.handles[token].working
    {
      hide Apply, Enabled, IsRun, CountBy, Own, LockedPart;
      var got: Option<string>;
      ghost var taking;
      got, taking := TakeLock(r);
      if got.None? {
        result, own, calls := NotLocked, [taking], [Tried(c.key, None)];
        return;
      }
      Interfere(r);
      ghost var rest, asked;
      result, rest, asked := RotateLocked(r, km);
      own, calls := [taking] + rest, [Tried(c.key, got)] + asked;
      assert own[1..] == rest && calls[1..] == asked;
    }
  }

  lemma FailedPart(r: nat, token: string, executed: bool)
    ensures LockedPart([RotatedKeys(false), GaveBack(token)], [Step.Rotate(r, false), Release(r, executed)], r, token, Failed)
  {
  }

  lemma StampedPart(r: nat, token: string, now: int, ok: bool, written: bool, executed: bool)
    requires ok ==> written
    ensures LockedPart([RotatedKeys(true)] + [SetStamp(now, ok), GaveBack(token)],
                       [Step.Rotate(r, true)] + [TakeTime(r), Stamp(r, written), Release(r, executed)],
                       r, token, if written then Recorded else Unrecorded)
  {
  }

  lemma RunConfig(c: Config, trace: seq<State>, steps: seq<Step>)
    requires IsRun(c, trace, steps)
    ensures ValidConfig(c)
  {
  }
}
