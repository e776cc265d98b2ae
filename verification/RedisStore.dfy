/**
  Redis as this service uses it: string keys with an expiry, where an expired entry is as good as
  absent. SET NX, SET and the compare-and-delete script are each one atomic step.
 */
module RedisStore {
  datatype Entry = Entry(value: string, expiry: int)

  type Db = map<string, Entry>

  /** The key exists at time now. */
  predicate Live(db: Db, key: string, now: int) {
    key in db && now < db[key].expiry
  }

  /** SET key value, with a time to live. */
  function Put(db: Db, key: string, value: string, expiry: int): Db {
    db[key := Entry(value, expiry)]
  }

  /** SET key value NX: a live entry is left alone. */
  function PutIfAbsent(db: Db, key: string, value: string, now: int, ttl: int): Db {
    if Live(db, key, now) then db else Put(db, key, value, now + ttl)
  }

  /** DEL key if it holds value. */
  function CompareAndDelete(db: Db, key: string, value: string, now: int): Db {
    if Live(db, key, now) && db[key].value == value then db - {key} else db
  }
}
