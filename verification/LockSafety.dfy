/** All clients of the lock store together: leases exclude each other, no handle ever touches the
    lock of another, and the maintenance job never removes a lock that expires. */
module LockSafety {
  import opened Wrappers
  import opened ExpiringLock

  /** A handle with its lease: the end is what the store granted last. */
  datatype Held = Held(lock: Lock, until: int)

  /** `marked` are the keys that a maintenance job in progress has found without a deadline. */
  datatype World = World(db: Db, handles: seq<Held>, marked: set<nat>)

  datatype Event =
    | Tick(ms: nat)
    | Acquires(key: nat, value: nat, ttl: int, fault: Fault)
    | Releases(i: nat, fault: Fault)
    | Extends(i: nat, newTTL: int, fault: Fault)
    | Scans(keys: seq<nat>)
    | Sweeps
    | StrangerSets(key: nat, value: nat)
    | StrangerDeletes(key: nat)

  /** A call of `acquireLock` makes no further attempt once it has a lock, and values are unique. */
  predicate Enabled(w: World, e: Event) {
    match e
    case Acquires(_, value, _, _) => forall i | 0 <= i < |w.handles| :: w.handles[i].lock.value != value
    case Releases(i, _) => i < |w.handles|
    case Extends(i, _, _) => i < |w.handles|
    case _ => true
  }

  function Acquired(w: World, key: nat, value: nat, ttl: int, fault: Fault): World {
    var (db, answer) := TryAcquire(w.db, key, value, ttl, fault);
    var more := if answer.Taken? then [Held(Lock(key, value, ttl, true), w.db.clock + ttl)] else [];
    w.(db := db, handles := w.handles + more)
  }

  function Released(w: World, i: nat, fault: Fault): World
    requires i < |w.handles|
  {
    var (db, lock, _) := Release(w.db, w.handles[i].lock, fault);
    var until := if db != w.db then w.db.clock else w.handles[i].until;
    w.(db := db, handles := w.handles[i := Held(lock, until)])
  }

  function Extended(w: World, i: nat, newTTL: int, fault: Fault): World
    requires i < |w.handles|
  {
    var held := w.handles[i];
    var (db, lock, _) := Extend(w.db, held.lock, newTTL, fault);
    var reached := held.lock.acquired && !fault.NotSent? && HasValue(w.db, held.lock.key, held.lock.value);
    var until := if reached then w.db.clock + Max(1000 * FloorSeconds(newTTL)) else held.until;
    w.(db := db, handles := w.handles[i := Held(lock, until)])
  }

  function Next(w: World, e: Event): World
    requires Enabled(w, e)
  {
    match e
    case Tick(d) => w.(db := w.db.(clock := w.db.clock + d))
    case Acquires(key, value, ttl, fault) => Acquired(w, key, value, ttl, fault)
    case Releases(i, fault) => Released(w, i, fault)
    case Extends(i, newTTL, fault) => Extended(w, i, newTTL, fault)
    case Scans(keys) => w.(marked := Unending(w.db, keys))
    case Sweeps => w.(db := Swept(w.db, w.marked), marked := {})
    case StrangerSets(key, value) => w.(db := w.db.(entries := w.db.entries[key := Entry(value, None)]))
    case StrangerDeletes(key) => w.(db := w.db.(entries := w.db.entries - {key}))
  }

  predicate ByClients(e: Event) {
    !e.StrangerSets? && !e.StrangerDeletes?
  }

  /** A run of the clients of this source and its maintenance job, from an empty store. */
  ghost predicate IsRun(t: seq<World>, es: seq<Event>) {
    && |t| == |es| + 1
    && t[0].db.entries == map[] && t[0].handles == [] && t[0].marked == {}
    && forall i {:trigger es[i]} | 0 <= i < |es| ::
         ByClients(es[i]) && Enabled(t[i], es[i]) && t[i + 1] == Next(t[i], es[i])
  }

  // ----- the invariant -----

  /** What the store says about a handle is its lease. */
  ghost predicate LeaseIsStored(w: World, i: nat)
    requires i < |w.handles|
  {
    var h := w.handles[i];
    && (HasValue(w.db, h.lock.key, h.lock.value) <==> w.db.clock < h.until)
    && (w.db.clock < h.until ==>
          h.lock.acquired && w.db.entries[h.lock.key] == Entry(h.lock.value, Some(h.until)))
  }

  ghost predicate ValuesDiffer(w: World) {
    forall i, j | 0 <= i < j < |w.handles| :: w.handles[i].lock.value != w.handles[j].lock.value
  }

  ghost predicate AllExpire(db: Db) {
    forall k | k in db.entries :: db.entries[k].deadline.Some?
  }

  ghost predicate Inv(w: World) {
    && ValuesDiffer(w)
    && AllExpire(w.db)
    && w.marked == {}
    && forall i | 0 <= i < |w.handles| :: LeaseIsStored(w, i)
  }

  lemma AcquireKeeps(w: World, key: nat, value: nat, ttl: int, fault: Fault)
    requires Inv(w) && Enabled(w, Acquires(key, value, ttl, fault))
    ensures Inv(Acquired(w, key, value, ttl, fault))
  {
    var v := Acquired(w, key, value, ttl, fault);
    forall i | 0 <= i < |v.handles|
      ensures LeaseIsStored(v, i)
    {
      if i < |w.handles| { assert LeaseIsStored(w, i); }
    }
  }

  lemma ReleaseKeeps(w: World, i: nat, fault: Fault)
    requires Inv(w) && i < |w.handles|
    ensures Inv(Released(w, i, fault))
  {
    var v := Released(w, i, fault);
    assert LeaseIsStored(w, i);
    forall j | 0 <= j < |v.handles|
      ensures LeaseIsStored(v, j)
    {
      assert LeaseIsStored(w, j);
    }
  }

  lemma ExtendKeeps(w: World, i: nat, newTTL: int, fault: Fault)
    requires Inv(w) && i < |w.handles|
    ensures Inv(Extended(w, i, newTTL, fault))
  {
    var v := Extended(w, i, newTTL, fault);
    assert LeaseIsStored(w, i);
    forall j | 0 <= j < |v.handles|
      ensures LeaseIsStored(v, j)
    {
      assert LeaseIsStored(w, j);
    }
  }

  lemma OthersKeep(w: World, e: Event)
    requires Inv(w) && (e.Tick? || e.Scans? || e.Sweeps?)
    ensures Inv(Next(w, e))
  {
    var v := Next(w, e);
    forall i | 0 <= i < |v.handles|
      ensures LeaseIsStored(v, i)
    {
      assert LeaseIsStored(w, i);
    }
  }

  lemma StepKeeps(w: World, e: Event)
    requires Inv(w) && Enabled(w, e) && ByClients(e)
    ensures Inv(Next(w, e))
  {
    match e {
      case Acquires(key, value, ttl, fault) => AcquireKeeps(w, key, value, ttl, fault);
      case Releases(i, fault) => ReleaseKeeps(w, i, fault);
      case Extends(i, newTTL, fault) => ExtendKeeps(w, i, newTTL, fault);
      case Tick(_) => OthersKeep(w, e);
      case Scans(_) => OthersKeep(w, e);
      case Sweeps => OthersKeep(w, e);
      case StrangerSets(_, _) =>
      case StrangerDeletes(_) =>
    }
  }

  lemma {:induction false} RunKeeps(t: seq<World>, es: seq<Event>, i: nat)
    requires IsRun(t, es) && i <= |es|
    ensures Inv(t[i])
  {
    if i > 0 {
      RunKeeps(t, es, i - 1);
      StepKeeps(t[i - 1], es[i - 1]);
    }
  }

  // ----- the theorems -----

  /** Two locks on one key are never valid together, and a lock is valid exactly during its lease. */
  lemma LeasesExclude(t: seq<World>, es: seq<Event>, i: nat, j: nat)
    requires IsRun(t, es) && i < |t[|es|].handles| && j < |t[|es|].handles| && i != j
    ensures var w := t[|es|]; var a, b := w.handles[i], w.handles[j];
            && (HasValue(w.db, a.lock.key, a.lock.value) <==> w.db.clock < a.until)
            && !(a.lock.key == b.lock.key && w.db.clock < a.until && w.db.clock < b.until)
  {
    RunKeeps(t, es, |es|);
    assert LeaseIsStored(t[|es|], i) && LeaseIsStored(t[|es|], j);
  }

  predicate Concerns(e: Event, i: nat) {
    (e.Releases? && e.i == i) || (e.Extends? && e.i == i)
  }

  /** Nothing but its own handle ends a lease before its time, not even the maintenance job. */
  lemma {:induction false} LeaseRunsItsCourse(t: seq<World>, es: seq<Event>, from: nat, upTo: nat, i: nat)
    requires IsRun(t, es) && from <= upTo <= |es| && i < |t[from].handles|
    requires forall k | from <= k < upTo :: !Concerns(es[k], i)
    ensures i < |t[upTo].handles| && t[upTo].handles[i] == t[from].handles[i]
    ensures var h := t[from].handles[i];
            HasValue(t[upTo].db, h.lock.key, h.lock.value) <==> t[upTo].db.clock < h.until
    decreases upTo
  {
    if from < upTo {
      LeaseRunsItsCourse(t, es, from, upTo - 1, i);
      assert t[upTo] == Next(t[upTo - 1], es[upTo - 1]);
    }
    RunKeeps(t, es, upTo);
    assert LeaseIsStored(t[upTo], i);
  }

  /** A lock is granted only when nobody holds the key, and is then valid for exactly its time to
      live, whatever the other clients and the maintenance job do. */
  lemma GrantedForItsTime(t: seq<World>, es: seq<Event>, at: nat, upTo: nat)
    requires IsRun(t, es) && at < upTo <= |es|
    requires es[at].Acquires? && |t[at + 1].handles| > |t[at].handles|
    requires forall k | at < k < upTo :: !Concerns(es[k], |t[at].handles|)
    ensures !Present(t[at].db, es[at].key)
    ensures HasValue(t[upTo].db, es[at].key, es[at].value) <==> t[upTo].db.clock < t[at].db.clock + es[at].ttl
  {
    assert t[at + 1] == Next(t[at], es[at]);
    LeaseRunsItsCourse(t, es, at + 1, upTo, |t[at].handles|);
  }

  /** An extension that answers yes is good for the whole seconds asked for, counted from then, and
      for no time at all if less than one second was asked for. */
  lemma ExtendedForWholeSeconds(t: seq<World>, es: seq<Event>, at: nat, upTo: nat)
    requires IsRun(t, es) && at < upTo <= |es| && es[at].Extends?
    requires es[at].i < |t[at].handles| && Extend(t[at].db, t[at].handles[es[at].i].lock, es[at].newTTL, es[at].fault).2
    requires forall k | at < k < upTo :: !Concerns(es[k], es[at].i)
    ensures var h := t[at].handles[es[at].i];
            HasValue(t[upTo].db, h.lock.key, h.lock.value) <==>
              es[at].newTTL >= 1000 && t[upTo].db.clock < t[at].db.clock + 1000 * FloorSeconds(es[at].newTTL)
  {
    assert t[at + 1] == Next(t[at], es[at]);
    LeaseRunsItsCourse(t, es, at + 1, upTo, es[at].i);
    ClockIsMonotone(t, es, at, upTo);
  }

  lemma {:induction false} ClockIsMonotone(t: seq<World>, es: seq<Event>, from: nat, upTo: nat)
    requires IsRun(t, es) && from <= upTo <= |es|
    ensures t[from].db.clock <= t[upTo].db.clock
    decreases upTo
  {
    if from < upTo {
      ClockIsMonotone(t, es, from, upTo - 1);
      assert t[upTo] == Next(t[upTo - 1], es[upTo - 1]);
    }
  }

  /** A handle whose lease is over can be released and extended: the store does not change, so a
      successor keeps its lock, and the answer is no. */
  lemma SuccessorIsUntouched(t: seq<World>, es: seq<Event>, i: nat, newTTL: int, fault: Fault)
    requires IsRun(t, es) && i < |t[|es|].handles| && t[|es|].handles[i].until <= t[|es|].db.clock
    ensures var w := t[|es|];
            Release(w.db, w.handles[i].lock, fault) == (w.db, w.handles[i].lock, false)
            && Extend(w.db, w.handles[i].lock, newTTL, fault) == (w.db, w.handles[i].lock, false)
  {
    RunKeeps(t, es, |es|);
    assert LeaseIsStored(t[|es|], i);
  }

  // ----- extending -----

  predicate ValidAt(db: Db, lock: Lock, time: int) {
    HasValue(db.(clock := time), lock.key, lock.value)
  }

  /** After an extension that answers yes, the lock is still there if and only if a whole second was
      asked for: less deletes it. */
  lemma ExtensionKeepsTheLockIff(db: Db, lock: Lock, newTTL: int)
    requires Extend(db, lock, newTTL, Sound).2
    ensures var (after, held, _) := Extend(db, lock, newTTL, Sound);
            ValidAt(after, held, db.clock) <==> newTTL >= 1000
  {
  }

  /** The new time to live that the handle then shows is kept if and only if it is a number of whole
      seconds (or none at all): the store drops the fraction. */
  lemma ExtensionKeepsItsPromiseIff(db: Db, lock: Lock, newTTL: int)
    requires Extend(db, lock, newTTL, Sound).2
    ensures var (after, held, _) := Extend(db, lock, newTTL, Sound);
            (forall time | db.clock <= time < db.clock + held.ttl :: ValidAt(after, held, time))
              <==> newTTL <= 0 || newTTL % 1000 == 0
  {
    var (after, held, _) := Extend(db, lock, newTTL, Sound);
    if newTTL > 0 && newTTL % 1000 != 0 {
      assert !ValidAt(after, held, db.clock + newTTL - 1);
    }
  }

  /** Half a second asked for: the answer is yes, and the lock is gone. */
  lemma ShortExtensionLosesTheLock() returns (db: Db, lock: Lock)
    ensures Extend(db, lock, 500, Sound).2 && !Present(Extend(db, lock, 500, Sound).0, lock.key)
    ensures ValidAt(db, lock, db.clock)
  {
    db, lock := Db(map[1 := Entry(7, Some(5000))], 0), Lock(1, 7, 5000, true);
  }

  // ----- the maintenance job -----

  /** It never deletes anything in a store that only these clients write. */
  lemma CleanupDeletesNothing(t: seq<World>, es: seq<Event>, keys: seq<nat>)
    requires IsRun(t, es)
    ensures Unending(t[|es|].db, keys) == {} && t[|es|].marked == {}
    ensures Next(t[|es|], Sweeps).db == t[|es|].db
  {
    RunKeeps(t, es, |es|);
    var db := t[|es|].db;
    assert db.entries - {} == db.entries;
  }

  /** The state after any events, strangers included. */
  function After(w: World, es: seq<Event>): Option<World> {
    if es == [] then Some(w)
    else
      match After(w, es[..|es| - 1])
      case None => None
      case Some(v) => if Enabled(v, es[|es| - 1]) then Some(Next(v, es[|es| - 1])) else None
  }

  /** The next sweep after `es` takes a lock away from its holder. */
  predicate SweepTakesALock(w: World, es: seq<Event>) {
    match After(w, es)
    case None => false
    case Some(v) => exists i | 0 <= i < |v.handles| :: TakenFrom(v, i)
  }

  predicate TakenFrom(v: World, i: nat)
    requires i < |v.handles|
  {
    var lock := v.handles[i].lock;
    HasValue(v.db, lock.key, lock.value) && !HasValue(Swept(v.db, v.marked), lock.key, lock.value)
  }

  predicate IsNewScan(e: Event) {
    e.Scans?
  }

  lemma {:induction false} MarkedOnlyShrinks(w: World, es: seq<Event>)
    requires w.marked == {} && forall e | e in es :: !IsNewScan(e)
    ensures After(w, es).Some? ==> After(w, es).value.marked == {}
  {
    if es != [] {
      var n := |es| - 1;
      assert es[n] in es;
      MarkedOnlyShrinks(w, es[..n]);
    }
  }

  function FreshValue(handles: seq<Held>): (v: nat)
    ensures forall i | 0 <= i < |handles| :: handles[i].lock.value < v
  {
    if handles == [] then 0
    else
      var rest := FreshValue(handles[..|handles| - 1]);
      var last := handles[|handles| - 1].lock.value;
      if last < rest then rest else last + 1
  }

  /** With a stranger's key, the time between the two replies is a race: the key goes, a client takes
      the lock, and the sweep deletes it. */
  lemma RaceTakesALock(w: World, keys: seq<nat>, k: nat) returns (es: seq<Event>)
    requires k in Unending(w.db, keys)
    ensures forall e | e in es :: !IsNewScan(e)
    ensures SweepTakesALock(Next(w, Scans(keys)), es)
  {
    var value := FreshValue(w.handles);
    var gone, taken := StrangerDeletes(k), Acquires(k, value, 1000, Sound);
    es := [gone, taken];
    var w0 := Next(w, Scans(keys));
    var w1 := Next(w0, gone);
    var w2 := Next(w1, taken);
    assert es[..1] == [gone] && [gone][..0] == [];
    assert After(w0, []) == Some(w0);
    assert After(w0, [gone]) == Some(w1);
    assert After(w0, es) == Some(w2);
    assert TakenFrom(w2, |w2.handles| - 1);
  }

  /** A sweep can take a lock from its holder if and only if a key was found without a deadline. */
  lemma CleanupIsSafeIff(w: World, keys: seq<nat>)
    ensures (forall es: seq<Event> | forall e | e in es :: !IsNewScan(e) :: !SweepTakesALock(Next(w, Scans(keys)), es))
              <==> Unending(w.db, keys) == {}
  {
    var w0 := Next(w, Scans(keys));
    if Unending(w.db, keys) == {} {
      forall es: seq<Event> | forall e | e in es :: !IsNewScan(e)
        ensures !SweepTakesALock(w0, es)
      {
        MarkedOnlyShrinks(w0, es);
        if After(w0, es).Some? {
          var v := After(w0, es).value;
          assert Swept(v.db, {}).entries == v.db.entries;
        }
      }
    } else {
      var k :| k in Unending(w.db, keys);
      var es := RaceTakesALock(w, keys, k);
      assert SweepTakesALock(w0, es);
    }
  }
}
