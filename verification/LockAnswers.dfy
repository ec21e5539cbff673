/** What the operations of the lock answer and do, in every run of all clients: exactly when an
    attempt is granted, a release and an extension succeed, and which keys the maintenance job takes. */
module LockAnswers {
  import opened Wrappers
  import opened ExpiringLock
  import opened LockSafety

  /** Nobody holds the key: it is not stored, or its deadline has come. */
  predicate Free(db: Db, key: nat) {
    key !in db.entries || (db.entries[key].deadline.Some? && db.entries[key].deadline.value <= db.clock)
  }

  predicate SameElsewhere(a: Db, b: Db, key: nat) {
    && a.clock == b.clock
    && (forall k | k in a.entries && k != key :: k in b.entries && b.entries[k] == a.entries[k])
    && (forall k | k in b.entries && k != key :: k in a.entries)
  }

  /** One attempt: granted exactly on a sound connection, with a positive time to live, on a free key;
      a lost reply leaves the entry behind; otherwise the store does not change. */
  lemma AttemptIsExact(db: Db, key: nat, value: nat, ttl: int, fault: Fault)
    ensures var (after, answer) := TryAcquire(db, key, value, ttl, fault);
            && (answer == Taken <==> fault.Sound? && ttl > 0 && Free(db, key))
            && (answer == Busy <==> fault.Sound? && ttl > 0 && !Free(db, key))
            && SameElsewhere(db, after, key)
            && if !fault.NotSent? && ttl > 0 && Free(db, key) then
                 key in after.entries && after.entries[key] == Entry(value, Some(db.clock + ttl))
               else after == db
  {
  }

  /** In every run an attempt gets a handle if and only if the connection is sound, the time to live
      positive and the key free. */
  lemma AcquiresIff(t: seq<World>, es: seq<Event>, at: nat)
    requires IsRun(t, es) && at < |es| && es[at].Acquires?
    ensures |t[at + 1].handles| > |t[at].handles|
        <==> es[at].fault.Sound? && es[at].ttl > 0 && Free(t[at].db, es[at].key)
    ensures |t[at + 1].handles| > |t[at].handles| ==>
              && t[at + 1].handles[..|t[at].handles|] == t[at].handles
              && HasValue(t[at + 1].db, es[at].key, es[at].value)
  {
    AttemptIsExact(t[at].db, es[at].key, es[at].value, es[at].ttl, es[at].fault);
    assert t[at + 1] == Next(t[at], es[at]);
  }

  /** A release answers yes if and only if the connection is sound and the lease is still running.
      When it reaches the store during the lease, the key goes, every other key stays, and the lease
      is over, whether or not the reply arrives; otherwise the store does not change. */
  lemma ReleasesIff(t: seq<World>, es: seq<Event>, at: nat)
    requires IsRun(t, es) && at < |es| && es[at].Releases? && es[at].i < |t[at].handles|
    ensures var w, v, h, fault := t[at], t[at + 1], t[at].handles[es[at].i], es[at].fault;
            && |v.handles| == |w.handles|
            && (Release(w.db, h.lock, fault).2 <==> fault.Sound? && w.db.clock < h.until)
            && (v.handles[es[at].i].lock.acquired <==>
                  h.lock.acquired && !(fault.Sound? && w.db.clock < h.until))
            && if !fault.NotSent? && w.db.clock < h.until then
                 && h.lock.key !in v.db.entries && SameElsewhere(w.db, v.db, h.lock.key)
                 && v.handles[es[at].i].until <= v.db.clock
               else v.db == w.db && v.handles[es[at].i].until == h.until
  {
    var w, i := t[at], es[at].i;
    LockSafety.RunKeeps(t, es, at);
    assert LeaseIsStored(w, i);
    assert t[at + 1] == Next(w, es[at]);
    RemovingChanges(w.db, w.handles[i].lock.key);
  }

  lemma RemovingChanges(db: Db, key: nat)
    ensures key in db.entries ==> db.(entries := db.entries - {key}) != db
  {
    if key in db.entries { assert key !in db.entries - {key}; }
  }

  /** After a release that answers yes the next client gets the lock. */
  lemma ReleasedIsGranted(t: seq<World>, es: seq<Event>, at: nat)
    requires IsRun(t, es) && at + 1 < |es| && es[at].Releases? && es[at].i < |t[at].handles|
    requires Release(t[at].db, t[at].handles[es[at].i].lock, es[at].fault).2
    requires es[at + 1].Acquires? && es[at + 1].key == t[at].handles[es[at].i].lock.key
    requires es[at + 1].ttl > 0 && es[at + 1].fault.Sound?
    ensures |t[at + 2].handles| == |t[at].handles| + 1
    ensures HasValue(t[at + 2].db, es[at + 1].key, es[at + 1].value)
  {
    ReleasesIff(t, es, at);
    AcquiresIff(t, es, at + 1);
    assert t[at + 2] == Next(t[at + 1], es[at + 1]);
  }

  /** An extension answers yes if and only if the connection is sound and the lease is still running.
      When it reaches the store during the lease, the lease ends after the whole seconds asked for,
      and if that is none the key goes; otherwise the store does not change. */
  lemma ExtendsIff(t: seq<World>, es: seq<Event>, at: nat)
    requires IsRun(t, es) && at < |es| && es[at].Extends? && es[at].i < |t[at].handles|
    ensures var w, v, h, e := t[at], t[at + 1], t[at].handles[es[at].i], es[at];
            && |v.handles| == |w.handles|
            && (Extend(w.db, h.lock, e.newTTL, e.fault).2 <==> e.fault.Sound? && w.db.clock < h.until)
            && v.handles[e.i].lock.ttl == (if e.fault.Sound? && w.db.clock < h.until then e.newTTL else h.lock.ttl)
            && v.handles[e.i].lock.acquired == h.lock.acquired
            && SameElsewhere(w.db, v.db, h.lock.key)
            && if e.fault.NotSent? || h.until <= w.db.clock then v.db == w.db
               else if e.newTTL < 1000 then h.lock.key !in v.db.entries
               else
                 && h.lock.key in v.db.entries
                 && v.db.entries[h.lock.key] == Entry(h.lock.value, Some(w.db.clock + e.newTTL - e.newTTL % 1000))
  {
    var w, i := t[at], es[at].i;
    LockSafety.RunKeeps(t, es, at);
    assert LeaseIsStored(w, i);
    assert t[at + 1] == Next(w, es[at]);
  }

  /** A scan and the sweep after it, in any store: exactly the keys scanned that have no deadline go. */
  lemma SweepTakesTheUnending(w: World, keys: seq<nat>)
    ensures var v := Next(Next(w, Scans(keys)), Sweeps);
            && (forall k | k in w.db.entries ::
                  k in v.db.entries <==> !(k in keys && w.db.entries[k].deadline.None?))
            && (forall k | k in v.db.entries :: k in w.db.entries && v.db.entries[k] == w.db.entries[k])
            && v.db.clock == w.db.clock && v.handles == w.handles
  {
  }
}
