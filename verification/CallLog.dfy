/**
  What one replica asked of the outside world, in order. Only the objects it calls write the log, so
  it says what happened and not what the caller claims.
 */
module CallLog {
  import opened Wrappers

  datatype Call =
    | Tried(key: string, got: Option<string>)   // a lock was tried for, and the token if it was got
    | GaveBack(token: string)                     // the lock was released
    | WorkEnded(token: string)                    // the work under the lock is over
    | CleanedUp(tenant: string, ok: bool)         // CleanupExpiredTokens came back
    | Polled(done: bool)                          // the context was asked whether it is done
    | GotStamp(answer: Option<Option<int>>)       // the rotation stamp was read; None is an error
    | RotatedKeys(ok: bool)                       // RotateKeys came back
    | SetStamp(value: int, ok: bool)              // the rotation stamp was written, or there was an error

  class Log {
    ghost var calls: seq<Call>

    constructor ()
      ensures calls == []
    {
      calls := [];
    }

    ghost method Add(c: Call)
      modifies this
      ensures calls == old(calls) + [c]
    {
      calls := calls + [c];
    }
  }
}
