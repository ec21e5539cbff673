/** The expiring lock of legacy/v1/src/auth/distributed-lock.ts and the commands of its store. */
module ExpiringLock {
  import opened Wrappers

  /** An entry without a deadline stays until it is deleted. */
  datatype Entry = Entry(value: nat, deadline: Option<int>)

  datatype Db = Db(entries: map<nat, Entry>, clock: int)

  /** The handle that a caller keeps. Its `value` is drawn once for each call of `acquireLock`. */
  datatype Lock = Lock(key: nat, value: nat, ttl: int, acquired: bool)

  datatype Answer = Taken | Busy | Failed

  /** What the connection does to one command. */
  datatype Fault = Sound | NotSent | ReplyLost

  // ----- the commands of the store -----

  predicate Present(db: Db, key: nat) {
    && key in db.entries
    && (db.entries[key].deadline.Some? ==> db.clock < db.entries[key].deadline.value)
  }

  predicate HasValue(db: Db, key: nat, value: nat) {
    Present(db, key) && db.entries[key].value == value
  }

  /** SET with PX and NX. The time to live is checked before the key is looked up. */
  function SetPxNx(db: Db, key: nat, value: nat, ttl: int): (Db, Answer) {
    if ttl <= 0 then (db, Failed)
    else if Present(db, key) then (db, Busy)
    else (db.(entries := db.entries[key := Entry(value, Some(db.clock + ttl))]), Taken)
  }

  function CompareAndDelete(db: Db, key: nat, value: nat): (Db, bool) {
    if HasValue(db, key, value) then (db.(entries := db.entries - {key}), true) else (db, false)
  }

  /** EXPIRE counts in seconds; a time that is not in the future deletes the key, and also answers 1. */
  function CompareAndExpire(db: Db, key: nat, value: nat, seconds: int): (Db, bool) {
    if !HasValue(db, key, value) then (db, false)
    else if seconds <= 0 then (db.(entries := db.entries - {key}), true)
    else (db.(entries := db.entries[key := Entry(value, Some(db.clock + 1000 * seconds))]), true)
  }

  // ----- the operations of a client -----

  function FloorSeconds(ms: int): int {
    ms / 1000
  }

  function TryAcquire(db: Db, key: nat, value: nat, ttl: int, fault: Fault): (Db, Answer) {
    if fault.NotSent? then (db, Failed)
    else
      var (after, answer) := SetPxNx(db, key, value, ttl);
      (after, if fault.ReplyLost? then Failed else answer)
  }

  function Release(db: Db, lock: Lock, fault: Fault): (Db, Lock, bool) {
    if !lock.acquired || fault.NotSent? then (db, lock, false)
    else
      var (after, done) := CompareAndDelete(db, lock.key, lock.value);
      if done && fault.Sound? then (after, lock.(acquired := false), true) else (after, lock, false)
  }

  function Extend(db: Db, lock: Lock, newTTL: int, fault: Fault): (Db, Lock, bool) {
    if !lock.acquired || fault.NotSent? then (db, lock, false)
    else
      var (after, done) := CompareAndExpire(db, lock.key, lock.value, FloorSeconds(newTTL));
      if done && fault.Sound? then (after, lock.(ttl := newTTL), true) else (after, lock, false)
  }

  // ----- the source's own form -----

  class LockStore {
    var entries: map<nat, Entry>
    var clock: int

    function View(): Db
      reads this
    {
      Db(entries, clock)
    }

    method Set(key: nat, value: nat, ttl: int) returns (answer: Answer)
      modifies this
      ensures (View(), answer) == SetPxNx(old(View()), key, value, ttl)
    {
      if ttl <= 0 {
        answer := Failed;
      } else if Present(View(), key) {
        answer := Busy;
      } else {
        entries := entries[key := Entry(value, Some(clock + ttl))];
        answer := Taken;
      }
    }

    method Del(key: nat)
      modifies this
      ensures View() == old(View()).(entries := old(entries) - {key})
    {
      entries := entries - {key};
    }

    method Expire(key: nat, seconds: int)
      requires Present(View(), key)
      modifies this
      ensures (View(), true) == CompareAndExpire(old(View()), key, old(entries)[key].value, seconds)
    {
      if seconds <= 0 {
        Del(key);
      } else {
        entries := entries[key := entries[key].(deadline := Some(clock + 1000 * seconds))];
      }
    }

    /** Time passes and other clients act. */
    method Elapse(db: Db)
      modifies this
      ensures View() == db
    {
      entries, clock := db.entries, db.clock;
    }
  }

  class DistributedLock {
    const key: nat
    const value: nat
    var ttl: int
    var acquired: bool

    function View(): Lock
      reads this
    {
      Lock(key, value, ttl, acquired)
    }

    constructor (k: nat, v: nat, t: int)
      ensures View() == Lock(k, v, t, true)
    {
      key, value, ttl, acquired := k, v, t, true;
    }
  }

  /** What one attempt of a call finds: the store at that moment, and the connection. */
  datatype Moment = Moment(db: Db, fault: Fault)

  function Attempt(m: Moment, key: nat, value: nat, ttl: int): (Db, Answer) {
    TryAcquire(m.db, key, value, ttl, m.fault)
  }

  class RedisDistributedLock {
    const store: LockStore

    constructor (s: LockStore)
      ensures store == s
    {
      store := s;
    }

    /** A lock is returned for the first attempt that the store grants. The call fails with an error
        exactly when no attempt is granted and the last one is an error. */
    method AcquireLock(key: nat, value: nat, ttl: int, maxRetries: int, moments: seq<Moment>)
      returns (lock: Option<DistributedLock>, threw: bool, ghost attempts: nat)
      requires maxRetries <= |moments|
      modifies store
      ensures attempts <= Max(maxRetries)
      ensures forall i | 0 <= i < attempts :: Attempt(moments[i], key, value, ttl).1 != Taken
      ensures lock.Some? <==> attempts < Max(maxRetries)
      ensures lock.Some? ==> fresh(lock.value) && lock.value.View() == Lock(key, value, ttl, true)
      ensures lock.Some? ==> (store.View(), Taken) == Attempt(moments[attempts], key, value, ttl)
      ensures threw <==> lock.None? && maxRetries > 0 && Attempt(moments[maxRetries - 1], key, value, ttl).1 == Failed
    {
      lock, threw, attempts := None, false, 0;
      var tried := 0;
      while tried < maxRetries
        invariant 0 <= tried <= Max(maxRetries) && attempts == tried
        invariant forall i | 0 <= i < tried :: Attempt(moments[i], key, value, ttl).1 != Taken
        invariant tried == maxRetries > 0 ==> Attempt(moments[maxRetries - 1], key, value, ttl).1 != Failed
      {
        store.Elapse(moments[tried].db);
        var answer := Failed;
        if !moments[tried].fault.NotSent? {
          var sent := store.Set(key, value, ttl);
          answer := if moments[tried].fault.ReplyLost? then Failed else sent;
        }
        match answer {
          case Taken =>
            var taken := new DistributedLock(key, value, ttl);
            lock := Some(taken);
            return;
          case Busy =>
            tried := tried + 1;
          case Failed =>
            tried := tried + 1;
            if tried >= maxRetries {
              attempts, threw := tried, true;
              return;
            }
        }
        attempts := tried;
      }
    }

    method ReleaseLock(lock: DistributedLock, fault: Fault) returns (released: bool)
      modifies store, lock
      ensures (store.View(), lock.View(), released) == Release(old(store.View()), old(lock.View()), fault)
    {
      if !lock.acquired {
        return false;
      }
      if fault.NotSent? {
        return false;
      }
      released := false;
      if HasValue(store.View(), lock.key, lock.value) {
        store.Del(lock.key);
        released := fault.Sound?;
      }
      if released {
        lock.acquired := false;
      }
    }

    method ExtendLock(lock: DistributedLock, newTTL: int, fault: Fault) returns (extended: bool)
      modifies store, lock
      ensures (store.View(), lock.View(), extended) == Extend(old(store.View()), old(lock.View()), newTTL, fault)
    {
      if !lock.acquired {
        return false;
      }
      if fault.NotSent? {
        return false;
      }
      extended := false;
      if HasValue(store.View(), lock.key, lock.value) {
        store.Expire(lock.key, FloorSeconds(newTTL));
        extended := fault.Sound?;
      }
      if extended {
        lock.ttl := newTTL;
      }
    }

    /** The keys of the first reply that had no deadline in the second are deleted with the third:
        `sampled` is the store when the times to live are read, `later` when the keys are deleted. */
    method CleanupExpiredLocks(keys: seq<nat>, sampled: Db, later: Db) returns (deleted: nat)
      modifies store
      ensures store.View() == Swept(later, Unending(sampled, keys))
      ensures deleted == |set k | k in Unending(sampled, keys) && Present(later, k)|
    {
      store.Elapse(sampled);
      var expired: set<nat> := {};
      for i := 0 to |keys|
        invariant expired == Unending(sampled, keys[..i])
        invariant store.View() == sampled
      {
        if keys[i] in store.entries && store.entries[keys[i]].deadline.None? {
          expired := expired + {keys[i]};
        }
      }
      assert keys[..|keys|] == keys;
      store.Elapse(later);
      var there := set k | k in expired && Present(store.View(), k);
      deleted := |there|;
      store.entries := store.entries - expired;
    }
  }

  function Max(n: int): nat {
    if n > 0 then n else 0
  }

  /** The keys whose time to live is reported as -1. */
  function Unending(db: Db, keys: seq<nat>): set<nat> {
    set k | k in keys && k in db.entries && db.entries[k].deadline.None?
  }

  function Swept(db: Db, keys: set<nat>): Db {
    db.(entries := db.entries - keys)
  }
}
