/** The dispatcher of src/audit.ts feeding the socket sink of src/collector.ts that talks to the
    reference collector: what a delivered record means end to end. */
module DurableDelivery {
  import opened Wrappers
  import opened Sets
  import Dispatch
  import S = SocketSink
  import C = Collector

  /** The bound that src/config.ts puts on `maxPending`. */
  const MAX_PENDING: nat := 1024

  /** `jobs` are the accepted records whose sink call is still a scheduled microtask, `turned` the
      records that the sink refused when it was called. */
  datatype Chain<E> = Chain(audit: Dispatch.Ledger<E>, world: C.World, jobs: seq<nat>, turned: set<nat>)

  function Initially<E>(capacity: nat): Chain<E> {
    Chain(Dispatch.Start(capacity), C.Initially(), [], {})
  }

  datatype Event<E> =
    | Write(event: E)
    | CallSink(tooLong: bool, room: nat)
    | Outside(e: C.Event)
    | Settles(w: nat)
    | Expires(w: nat)

  predicate Enabled<E>(c: Chain<E>, e: Event<E>) {
    match e
    case Write(_) => true
    case CallSink(_, _) => c.jobs != []
    case Outside(x) => C.Enabled(c.world, x) && (x.Local? ==> !x.e.Call?)
    case Settles(w) =>
      && w in c.audit.pending && w < |c.audit.phases|
      && (w in c.world.sink.resolved || w in c.world.sink.rejected || w in c.turned)
    case Expires(w) => w < |c.audit.phases| && c.audit.phases[w] == Dispatch.Racing
  }

  function Next<E>(c: Chain<E>, e: Event<E>): Chain<E>
    requires Enabled(c, e)
  {
    match e
    case Write(event) =>
      (var a := Dispatch.Submit(c.audit, event);
       c.(audit := a, jobs := if a.dropped == c.audit.dropped then c.jobs + [|c.audit.phases|] else c.jobs))
    case CallSink(tooLong, room) =>
      (var w := c.jobs[0];
       if S.Refuses(c.world.sink, tooLong) then c.(jobs := c.jobs[1..], turned := c.turned + {w})
       else c.(jobs := c.jobs[1..], world := c.world.(sink := S.Takes(c.world.sink, w, room))))
    case Outside(x) => c.(world := C.Next(c.world, x))
    case Settles(w) =>
      c.(audit := if w in c.world.sink.resolved then Dispatch.Resolve(c.audit, w) else Dispatch.Reject(c.audit, w))
    case Expires(w) => c.(audit := Dispatch.Expire(c.audit, w))
  }

  ghost predicate IsRun<E>(capacity: nat, t: seq<Chain<E>>, es: seq<Event<E>>) {
    && |t| == |es| + 1
    && t[0] == Initially(capacity)
    && forall i {:trigger es[i]} | 0 <= i < |es| :: Enabled(t[i], es[i]) && t[i + 1] == Next(t[i], es[i])
  }

  // ----- the invariant -----

  ghost predicate Increasing(s: seq<nat>) {
    forall i, j | 0 <= i < j < |s| :: s[i] < s[j]
  }

  function Waiting(s: S.Sink): seq<nat> {
    s.inflight + s.unsent
  }

  /** Records reach the sink in the order of submission. */
  ghost predicate InOrder(accepted: seq<nat>, jobs: seq<nat>, n: nat) {
    && Increasing(accepted + jobs)
    && (forall i | 0 <= i < |accepted| :: accepted[i] < n)
    && (forall i | 0 <= i < |jobs| :: jobs[i] < n)
  }

  /** A record that the sink turned away is nowhere else. */
  ghost predicate Apart<E>(c: Chain<E>) {
    forall w | w in c.turned :: w !in c.world.sink.accepted && w !in c.jobs && w < |c.audit.phases|
  }

  /** Whatever the sink or the microtask queue still holds has a slot of the dispatcher. */
  ghost predicate Held<E>(c: Chain<E>) {
    && (forall w | w in c.jobs :: w in c.audit.pending)
    && (forall w | w in Waiting(c.world.sink) :: w in c.audit.pending)
  }

  ghost predicate Backed<E>(c: Chain<E>) {
    forall w | 0 <= w < |c.audit.phases| && c.audit.phases[w] == Dispatch.Delivered :: w in c.world.sink.resolved
  }

  ghost predicate Inv<E>(c: Chain<E>) {
    && c.audit.Valid()
    && C.Inv(c.world)
    && InOrder(c.world.sink.accepted, c.jobs, |c.audit.phases|)
    && Apart(c)
    && Held(c)
    && Backed(c)
  }

  lemma WaitingIsAccepted(s: S.Sink)
    requires S.Valid(s)
    ensures s.accepted == s.resolved + Waiting(s) + s.rejected
    ensures |Waiting(s)| == s.Outstanding()
  {
    assert s.resolved + s.inflight + s.unsent == s.resolved + Waiting(s);
  }

  /** A step of the sink other than a call: it accepts nothing and only lets go of records. */
  ghost predicate LetsGo(s: S.Sink, s': S.Sink) {
    && s'.accepted == s.accepted
    && (forall w | w in Waiting(s') :: w in Waiting(s))
    && s.resolved <= s'.resolved
  }

  lemma FlushLetsGo(s: S.Sink, room: nat)
    ensures LetsGo(s, S.Flushed(s, room))
  {
    if s.socket.Some? && s.connected && s.writable && |s.unsent| > 0 {
      var k := if |s.unsent| <= room then |s.unsent| else room + 1;
      assert s.unsent == s.unsent[..k] + s.unsent[k..];
      assert s.inflight + s.unsent[..k] + s.unsent[k..] == s.inflight + s.unsent;
    }
  }

  lemma HearsLetsGo(s: S.Sink, k: nat, data: seq<nat>, room: nat)
    ensures LetsGo(s, S.Hears(s, k, data, room))
  {
    if s.socket == Some(k) && |data| <= |s.inflight| && S.AllAcks(data) {
      var s1 := s.(inflight := s.inflight[|data|..], resolved := s.resolved + s.inflight[..|data|]);
      assert forall w | w in s1.inflight :: w in s.inflight;
      FlushLetsGo(s1, room);
    }
  }

  lemma OutsideLetsGo(w: C.World, e: C.Event)
    requires C.Enabled(w, e) && (e.Local? ==> !e.e.Call?)
    ensures LetsGo(w.sink, C.Next(w, e).sink)
  {
    match e
    case Local(x) =>
      match x {
        case Connect(k, room) => FlushLetsGo(w.sink.(connected := true, writable := true), room);
        case Drain(k, room) => FlushLetsGo(w.sink.(writable := true), room);
        case _ =>
      }
    case Deliver(k, n, room) => HearsLetsGo(w.sink, k, seq(n, _ => S.ACK), room);
    case _ =>
  }

  // ----- steps -----

  lemma NewJobKeepsOrder(a: seq<nat>, jobs: seq<nat>, n: nat)
    requires InOrder(a, jobs, n)
    ensures InOrder(a, jobs + [n], n + 1) && InOrder(a, jobs, n + 1)
  {
    assert a + (jobs + [n]) == a + jobs + [n];
    var s := a + jobs;
    assert forall i | 0 <= i < |s| :: s[i] == if i < |a| then a[i] else jobs[i - |a|];
  }

  lemma WriteKeeps<E>(c: Chain<E>, event: E)
    requires Inv(c)
    ensures Inv(Next(c, Write(event)))
  {
    Dispatch.SubmitKeeps(c.audit, event);
    NewJobKeepsOrder(c.world.sink.accepted, c.jobs, |c.audit.phases|);
  }

  lemma TakenKeepsOrder(a: seq<nat>, jobs: seq<nat>, n: nat)
    requires InOrder(a, jobs, n) && jobs != []
    ensures InOrder(a + [jobs[0]], jobs[1..], n)
    ensures InOrder(a, jobs[1..], n)
  {
    assert a + [jobs[0]] + jobs[1..] == a + jobs;
    var s, s' := a + jobs, a + jobs[1..];
    forall i, j | 0 <= i < j < |s'| ensures s'[i] < s'[j] {
      assert s'[i] == s[if i < |a| then i else i + 1];
      assert s'[j] == s[if j < |a| then j else j + 1];
    }
  }

  lemma FirstJobIsNew(a: seq<nat>, jobs: seq<nat>, n: nat)
    requires InOrder(a, jobs, n) && jobs != []
    ensures jobs[0] !in a && jobs[0] !in jobs[1..]
  {
    var s := a + jobs;
    assert forall i | 0 <= i < |a| :: s[i] == a[i];
    assert forall i | 0 <= i < |jobs| :: s[|a| + i] == jobs[i];
  }

  lemma CallKeeps<E>(c: Chain<E>, tooLong: bool, room: nat)
    requires Inv(c) && c.jobs != []
    ensures Inv(Next(c, CallSink(tooLong, room)))
  {
    var w, s := c.jobs[0], c.world.sink;
    TakenKeepsOrder(s.accepted, c.jobs, |c.audit.phases|);
    FirstJobIsNew(s.accepted, c.jobs, |c.audit.phases|);
    if !S.Refuses(s, tooLong) {
      C.StepKeeps(c.world, C.Local(S.Call(w, tooLong, room)));
      TakesHolds(s, w, room);
    }
  }

  lemma TakesHolds(s: S.Sink, rec: nat, room: nat)
    ensures var s' := S.Takes(s, rec, room);
            && s'.accepted == s.accepted + [rec] && s'.resolved == s.resolved
            && forall w | w in Waiting(s') :: w in Waiting(s) || w == rec
  {
    FlushLetsGo(S.Pushed(s, rec), room);
  }

  lemma OutsideKeeps<E>(c: Chain<E>, x: C.Event)
    requires Inv(c) && Enabled(c, Outside(x))
    ensures Inv(Next(c, Outside(x)))
  {
    C.StepKeeps(c.world, x);
    OutsideLetsGo(c.world, x);
  }

  /** A settled record is no longer in the sink, nor waiting to be handed to it. */
  lemma SettledIsGone<E>(c: Chain<E>, w: nat)
    requires Inv(c) && (w in c.world.sink.resolved || w in c.world.sink.rejected)
    ensures w !in Waiting(c.world.sink) && w !in c.jobs
  {
    var s := c.world.sink;
    WaitingIsAccepted(s);
    var all := s.accepted + c.jobs;
    assert all == s.resolved + Waiting(s) + s.rejected + c.jobs;
    var r, q := |s.resolved|, |Waiting(s)|;
    assert forall i | 0 <= i < r :: all[i] == s.resolved[i];
    assert forall i | 0 <= i < q :: all[r + i] == Waiting(s)[i];
    assert forall i | 0 <= i < |s.rejected| :: all[r + q + i] == s.rejected[i];
    assert forall i | 0 <= i < |c.jobs| :: all[|s.accepted| + i] == c.jobs[i];
  }

  lemma TurnedIsGone<E>(c: Chain<E>, w: nat)
    requires Inv(c) && w in c.turned
    ensures w !in Waiting(c.world.sink) && w !in c.jobs && w !in c.world.sink.resolved
  {
    WaitingIsAccepted(c.world.sink);
  }

  lemma SettlesKeeps<E>(c: Chain<E>, w: nat)
    requires Inv(c) && Enabled(c, Settles(w))
    ensures Inv(Next(c, Settles(w)))
  {
    if w in c.turned { TurnedIsGone(c, w); } else { SettledIsGone(c, w); }
    Dispatch.ResolveKeeps(c.audit, w);
    Dispatch.RejectKeeps(c.audit, w);
  }

  lemma StepKeeps<E>(c: Chain<E>, e: Event<E>)
    requires Inv(c) && Enabled(c, e)
    ensures Inv(Next(c, e))
  {
    match e
    case Write(event) => WriteKeeps(c, event);
    case CallSink(tooLong, room) => CallKeeps(c, tooLong, room);
    case Outside(x) => OutsideKeeps(c, x);
    case Settles(w) => SettlesKeeps(c, w);
    case Expires(w) => Dispatch.ExpireKeeps(c.audit, w);
  }

  lemma CapacityStays<E>(c: Chain<E>, e: Event<E>)
    requires Enabled(c, e)
    ensures Next(c, e).audit.capacity == c.audit.capacity
  {
  }

  ghost predicate InvWith<E>(c: Chain<E>, capacity: nat) {
    Inv(c) && c.audit.capacity == capacity
  }

  lemma DispatcherStarts<E>(capacity: nat)
    ensures Dispatch.Start<E>(capacity).Valid() && Dispatch.Start<E>(capacity).capacity == capacity
  {
  }

  lemma StartKeeps<E>(capacity: nat, c: Chain<E>)
    requires c == Initially(capacity)
    ensures InvWith(c, capacity)
  {
    DispatcherStarts<E>(capacity);
    C.StartHolds(c.world);
  }

  lemma StepKeepsAt<E>(capacity: nat, t: seq<Chain<E>>, es: seq<Event<E>>, i: nat)
    requires IsRun(capacity, t, es) && 0 < i <= |es| && InvWith(t[i - 1], capacity)
    ensures InvWith(t[i], capacity)
  {
    StepKeeps(t[i - 1], es[i - 1]);
    CapacityStays(t[i - 1], es[i - 1]);
  }

  lemma {:induction false} RunKeeps<E>(capacity: nat, t: seq<Chain<E>>, es: seq<Event<E>>, i: nat)
    requires IsRun(capacity, t, es) && i <= |es|
    ensures InvWith(t[i], capacity)
    decreases i
  {
    if i == 0 {
      StartKeeps(capacity, t[0]);
    } else {
      RunKeeps(capacity, t, es, i - 1);
      StepKeepsAt(capacity, t, es, i);
    }
  }

  // ----- the guarantees -----

  lemma DeliveredInJournal<E>(c: Chain<E>, w: nat)
    requires Inv(c) && w < |c.audit.phases| && c.audit.phases[w] == Dispatch.Delivered
    ensures w in c.world.remote.journal
  {
    var s, r := c.world.sink, c.world.remote;
    S.PrefixOfWritten(s);
    assert |s.resolved| <= |r.journal|;
    var k :| 0 <= k < |s.resolved| && s.resolved[k] == w;
    assert r.journal[k] == s.written[k] == s.resolved[k];
  }

  /** A delivery that succeeded is in the collector's journal, and the journal holds records in the
      order of their submission, each once. */
  lemma DeliveredIsDurable<E>(capacity: nat, t: seq<Chain<E>>, es: seq<Event<E>>, i: nat, w: nat)
    requires IsRun(capacity, t, es) && i <= |es|
    requires w < |t[i].audit.phases| && t[i].audit.phases[w] == Dispatch.Delivered
    ensures w in t[i].world.remote.journal
    ensures Increasing(t[i].world.remote.journal)
  {
    RunKeeps(capacity, t, es, i);
    DeliveredInJournal(t[i], w);
    var s, r := t[i].world.sink, t[i].world.remote;
    S.PrefixOfWritten(s);
    var all := s.accepted + t[i].jobs;
    assert forall x | 0 <= x < |r.journal| :: r.journal[x] == all[x];
  }

  lemma {:induction false} DistinctCount(s: seq<nat>)
    requires Increasing(s)
    ensures |Members(s)| == |s|
  {
    if s != [] {
      var rest := s[..|s| - 1];
      DistinctCount(rest);
      assert forall i | 0 <= i < |rest| :: rest[i] < s[|s| - 1];
    }
  }

  function Members(s: seq<nat>): (m: set<nat>)
    ensures forall w :: w in m <==> w in s
  {
    if s == [] then {}
    else
      assert s == s[..|s| - 1] + [s[|s| - 1]];
      Members(s[..|s| - 1]) + {s[|s| - 1]}
  }

  /** A slice of an increasing sequence is increasing, and what comes later is not in it. */
  lemma SliceOfIncreasing(all: seq<nat>, part: seq<nat>, from: nat, later: nat)
    requires Increasing(all) && from + |part| <= later < |all|
    requires forall i | 0 <= i < |part| :: all[from + i] == part[i]
    ensures Increasing(part) && all[later] !in part
  {
    forall i, j | 0 <= i < j < |part|
      ensures part[i] < part[j]
    {
      assert all[from + i] < all[from + j];
    }
    forall i | 0 <= i < |part|
      ensures part[i] < all[later]
    {
      assert all[from + i] < all[later];
    }
  }

  lemma WaitingIsIncreasing<E>(c: Chain<E>)
    requires Inv(c) && c.jobs != []
    ensures Increasing(Waiting(c.world.sink)) && c.jobs[0] !in Waiting(c.world.sink)
  {
    var s := c.world.sink;
    WaitingIsAccepted(s);
    SliceOfIncreasing(s.accepted + c.jobs, Waiting(s), |s.resolved|, |s.accepted|);
  }

  lemma BelowTheBound<E>(c: Chain<E>)
    requires Inv(c) && c.audit.capacity <= MAX_PENDING && c.jobs != []
    ensures c.world.sink.Outstanding() < S.MAX_OUTSTANDING
  {
    WaitingIsAccepted(c.world.sink);
    WaitingIsIncreasing(c);
    DistinctCount(Waiting(c.world.sink));
    var q, w := Members(Waiting(c.world.sink)), c.jobs[0];
    assert w !in q && w in c.jobs;
    Subset(q, c.audit.pending - {w});
    assert |c.audit.pending - {w}| == |c.audit.pending| - 1;
  }

  /** The oldest record that waits for its sink call is taken by the sink. */
  ghost predicate Taken<E>(c: Chain<E>, c': Chain<E>) {
    && c.jobs != [] && c'.jobs == c.jobs[1..] && c'.turned == c.turned && c'.audit == c.audit
    && c'.world.sink.accepted == c.world.sink.accepted + [c.jobs[0]] && c'.world.remote == c.world.remote
  }

  ghost predicate TurnedAway<E>(c: Chain<E>, c': Chain<E>) {
    && c.jobs != [] && c'.jobs == c.jobs[1..] && c'.turned == c.turned + {c.jobs[0]} && c'.audit == c.audit
    && c'.world == c.world
  }

  /** With `maxPending` at most 1024, as the configuration demands, the sink is never called with
      1024 records outstanding: it turns a record away if and only if it has failed, is closed, or the
      record is too long, and takes it otherwise. */
  lemma SinkBoundIsNeverReached<E>(capacity: nat, t: seq<Chain<E>>, es: seq<Event<E>>, i: nat)
    requires capacity <= MAX_PENDING && IsRun(capacity, t, es) && i < |es| && es[i].CallSink?
    ensures t[i].world.sink.Outstanding() < S.MAX_OUTSTANDING
    ensures forall w | w in Waiting(t[i].world.sink) :: w in t[i].audit.pending
    ensures var s := t[i].world.sink;
            if s.failed || s.closed || es[i].tooLong then TurnedAway(t[i], t[i + 1]) else Taken(t[i], t[i + 1])
  {
    RunKeeps(capacity, t, es, i);
    assert Enabled(t[i], es[i]);
    BelowTheBound(t[i]);
    TakesHolds(t[i].world.sink, t[i].jobs[0], es[i].room);
  }
}
