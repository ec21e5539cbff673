/** The sink together with the reference collector of examples/audit-collector.mjs: records are
    received in order on each connection, queued, appended and synced in batches, and then
    acknowledged with one byte each. */
module Collector {
  import opened Wrappers
  import opened SocketSink

  const BATCH: nat := 64
  const QUEUE: nat := 1024

  /** `taken[k]` counts the records received on connection `k`, `acks[k]` the acknowledgement bytes
      under way on it; absent means none. `committed` counts the records ever acknowledged. */
  datatype Remote = Remote(
    taken: map<nat, nat>,
    queue: seq<(nat, nat)>,
    journal: seq<nat>,
    acks: map<nat, nat>,
    healthy: bool,
    committed: nat)

  datatype World = World(sink: Sink, remote: Remote)

  function At(m: map<nat, nat>, k: nat): nat {
    if k in m then m[k] else 0
  }

  function Initially(): World {
    World(Fresh(), Remote(map[], [], [], map[], true, 0))
  }

  function Records(queue: seq<(nat, nat)>): seq<nat> {
    seq(|queue|, i requires 0 <= i < |queue| => queue[i].1)
  }

  /** One byte for each record of a batch, on the connection it came from. */
  function AddAcks(acks: map<nat, nat>, batch: seq<(nat, nat)>): map<nat, nat>
    decreases |batch|
  {
    if batch == [] then acks
    else AddAcks(acks[batch[0].0 := At(acks, batch[0].0) + 1], batch[1..])
  }

  datatype Event =
    | Local(e: SocketSink.Event)
    | Receive(k: nat)
    | Commit(n: nat)
    | Break(n: nat)
    | Deliver(k: nat, n: nat, room: nat)

  predicate Enabled(w: World, e: Event) {
    match e
    case Local(x) => !x.Data? && SocketSink.Enabled(w.sink, x)
    case Receive(k) =>
      && w.remote.healthy && |w.remote.queue| < QUEUE
      && k < |w.sink.wires| && At(w.remote.taken, k) < |w.sink.wires[k]|
    case Commit(n) => w.remote.healthy && n <= BATCH && n <= |w.remote.queue|
    case Break(n) => n <= BATCH && n <= |w.remote.queue|
    case Deliver(k, n, _) => n <= At(w.remote.acks, k)
  }

  function Next(w: World, e: Event): World
    requires Enabled(w, e)
  {
    var r := w.remote;
    match e
    case Local(x) => w.(sink := SocketSink.Next(w.sink, x))
    case Receive(k) =>
      w.(remote := r.(taken := r.taken[k := At(r.taken, k) + 1],
                      queue := r.queue + [(k, w.sink.wires[k][At(r.taken, k)])]))
    case Commit(n) =>
      w.(remote := r.(journal := r.journal + Records(r.queue[..n]), queue := r.queue[n..],
                      acks := AddAcks(r.acks, r.queue[..n]), committed := r.committed + n))
    case Break(n) =>
      // The append or the sync failed: some of the batch may be on disk, none of it is acknowledged.
      w.(remote := r.(journal := r.journal + Records(r.queue[..n]), queue := [], healthy := false))
    case Deliver(k, n, room) =>
      World(Hears(w.sink, k, seq(n, _ => ACK), room), r.(acks := r.acks[k := At(r.acks, k) - n]))
  }

  ghost predicate IsRun(t: seq<World>, es: seq<Event>) {
    && |t| == |es| + 1
    && t[0] == Initially()
    && forall i {:trigger es[i]} | 0 <= i < |es| :: Enabled(t[i], es[i]) && t[i + 1] == Next(t[i], es[i])
  }

  // ----- the invariant -----

  /** How many of the written records have been received, if the last connection is `k`. */
  function Unreceived(w: World): int {
    var n := |w.sink.wires|;
    if n == 0 then 0 else |w.sink.wires[n - 1]| - At(w.remote.taken, n - 1)
  }

  function LastAcks(w: World): nat {
    var n := |w.sink.wires|;
    if n == 0 then 0 else At(w.remote.acks, n - 1)
  }

  /** Only the last connection has anything under way. */
  ghost predicate Connections(s: Sink, r: Remote) {
    var n := |s.wires|;
    && (forall k | k in r.acks :: k + 1 == n || r.acks[k] == 0)
    && (forall k | k in r.taken :: k < n)
    && (r.healthy ==> forall k | 0 <= k < n - 1 :: At(r.taken, k) == |s.wires[k]|)
    && (forall x | 0 <= x < |r.queue| :: r.queue[x].0 + 1 == n)
  }

  ghost predicate Progress(w: World) {
    var s, r := w.sink, w.remote;
    && 0 <= Unreceived(w)
    && |r.journal| + |r.queue| + Unreceived(w) <= |s.written|
    && (r.healthy ==> |r.journal| + |r.queue| + Unreceived(w) == |s.written|)
    && |s.resolved| + LastAcks(w) <= r.committed <= |r.journal|
  }

  /** The journal, continued by what is queued, is a prefix of what was written. */
  ghost predicate Ordered(journal: seq<nat>, queue: seq<(nat, nat)>, written: seq<nat>) {
    && journal <= written
    && |journal| + |queue| <= |written|
    && forall x | 0 <= x < |queue| :: queue[x].1 == written[|journal| + x]
  }

  ghost predicate Inv(w: World) {
    && Valid(w.sink) && WiresAgree(w.sink)
    && Connections(w.sink, w.remote)
    && Progress(w)
    && Ordered(w.remote.journal, w.remote.queue, w.sink.written)
  }

  // ----- steps of the collector -----

  lemma {:induction false} AcksOfBatch(acks: map<nat, nat>, batch: seq<(nat, nat)>, k: nat)
    requires forall x | 0 <= x < |batch| :: batch[x].0 == k
    ensures At(AddAcks(acks, batch), k) == At(acks, k) + |batch|
    ensures forall j | j != k :: j in AddAcks(acks, batch) <==> j in acks
    ensures forall j | j != k && j in acks :: AddAcks(acks, batch)[j] == acks[j]
    decreases |batch|
  {
    if batch != [] {
      AcksOfBatch(acks[batch[0].0 := At(acks, batch[0].0) + 1], batch[1..], k);
    }
  }

  lemma OrderedCommit(journal: seq<nat>, queue: seq<(nat, nat)>, written: seq<nat>, n: nat)
    requires Ordered(journal, queue, written) && n <= |queue|
    ensures Ordered(journal + Records(queue[..n]), queue[n..], written)
  {
  }

  lemma LastWire(s: Sink, i: nat)
    requires WiresAgree(s) && |s.wires| > 0 && i < |s.wires[|s.wires| - 1]|
    ensures |s.written| >= |s.wires[|s.wires| - 1]|
    ensures s.wires[|s.wires| - 1][i] == s.written[|s.written| - |s.wires[|s.wires| - 1]| + i]
  {
  }

  lemma ReceiveKeeps(w: World, k: nat)
    requires Inv(w) && Enabled(w, Receive(k))
    ensures Inv(Next(w, Receive(k)))
  {
    var s, r := w.sink, w.remote;
    LastWire(s, At(r.taken, k));
    var w' := Next(w, Receive(k));
    assert Connections(w'.sink, w'.remote);
    assert Progress(w');
  }

  lemma CommitKeeps(w: World, n: nat)
    requires Inv(w) && Enabled(w, Commit(n))
    ensures Inv(Next(w, Commit(n)))
  {
    var r, m := w.remote, |w.sink.wires|;
    OrderedCommit(r.journal, r.queue, w.sink.written, n);
    var w' := Next(w, Commit(n));
    if n > 0 {
      AcksOfBatch(r.acks, r.queue[..n], m - 1);
    } else {
      assert r.queue[..n] == [];
    }
    assert Connections(w'.sink, w'.remote);
    assert Progress(w');
  }

  lemma BreakKeeps(w: World, n: nat)
    requires Inv(w) && Enabled(w, Break(n))
    ensures Inv(Next(w, Break(n)))
  {
    OrderedCommit(w.remote.journal, w.remote.queue, w.sink.written, n);
  }

  /** An honest collector owes no more bytes than there are written, unacknowledged records. */
  lemma AcksAreOwed(w: World, k: nat, n: nat)
    requires Inv(w) && n <= At(w.remote.acks, k) && !w.sink.failed
    ensures n > 0 ==> k + 1 == |w.sink.wires| && n <= |w.sink.inflight|
  {
    assert w.sink.rejected[..w.sink.cut] == [];
  }

  /** What a step of the sink may do while the collector's part stays as it is. */
  ghost predicate SinkMoves(s: Sink, s': Sink) {
    && Valid(s') && WiresAgree(s')
    && s.written <= s'.written
    && s'.resolved == s.resolved
    && if |s'.wires| == |s.wires| then
         && (forall k | 0 <= k < |s.wires| - 1 :: |s'.wires[k]| == |s.wires[k]|)
         && (|s.wires| > 0 ==> |s'.wires[|s.wires| - 1]| - |s.wires[|s.wires| - 1]| == |s'.written| - |s.written|)
         && (|s.wires| == 0 ==> s'.written == s.written)
       else
         && |s'.wires| == |s.wires| + 1
         && (forall k | 0 <= k < |s.wires| :: |s'.wires[k]| == |s.wires[k]|)
         && |s'.wires[|s.wires|]| == |s'.written| - |s.written|
         && s.resolved == s.written
  }

  lemma DeliverHears(w: World, k: nat, n: nat, room: nat)
    requires Inv(w) && n <= At(w.remote.acks, k)
    ensures var s' := Hears(w.sink, k, seq(n, _ => ACK), room);
            && Valid(s') && WiresAgree(s')
            && s'.wires == w.sink.wires && s'.written == w.sink.written
            && |w.sink.resolved| <= |s'.resolved| <= |w.sink.resolved| + n
            && (!w.sink.failed ==> !s'.failed)
  {
    var data := seq(n, _ => ACK);
    HearsValid(w.sink, k, data, room);
    StepAgrees(w.sink, Data(k, data, room));
    if w.sink.failed {
      FailedStep(w.sink, Data(k, data, room));
    } else if w.sink.socket == Some(k) {
      AcksAreOwed(w, k, n);
      HearsOnly(w.sink, k, data, room);
    }
  }

  lemma AcksPaid(w: World, s': Sink, k: nat, n: nat)
    requires Inv(w) && n <= At(w.remote.acks, k)
    requires s'.wires == w.sink.wires && s'.written == w.sink.written
    requires |w.sink.resolved| <= |s'.resolved| <= |w.sink.resolved| + n
    ensures var r' := w.remote.(acks := w.remote.acks[k := At(w.remote.acks, k) - n]);
            (n > 0 || k in w.remote.acks ==> Connections(s', r')) && Progress(World(s', r'))
  {
  }

  lemma DeliverKeeps(w: World, k: nat, n: nat, room: nat)
    requires Inv(w) && Enabled(w, Deliver(k, n, room))
    ensures Inv(Next(w, Deliver(k, n, room)))
  {
    DeliverHears(w, k, n, room);
    AcksPaid(w, Hears(w.sink, k, seq(n, _ => ACK), room), k, n);
  }

  // ----- steps of the sink -----

  lemma FlushMoves(s: Sink, room: nat)
    requires s.socket.Some? ==> s.socket.value + 1 == |s.wires|
    ensures var s' := Flushed(s, room);
            && s'.resolved == s.resolved && |s'.wires| == |s.wires| && s.written <= s'.written
            && (forall k | 0 <= k < |s.wires| - 1 :: |s'.wires[k]| == |s.wires[k]|)
            && (|s.wires| > 0 ==> |s'.wires[|s.wires| - 1]| - |s.wires[|s.wires| - 1]| == |s'.written| - |s.written|)
            && (|s.wires| == 0 ==> s'.written == s.written)
  {
  }

  lemma CallMoves(s: Sink, rec: nat, room: nat)
    requires Valid(s) && WiresAgree(s) && !Refuses(s, false)
    ensures SinkMoves(s, Takes(s, rec, room))
  {
    StepValid(s, Call(rec, false, room));
    StepAgrees(s, Call(rec, false, room));
    if s.socket.None? { assert s.written == s.resolved + [] + []; }
    FlushMoves(Pushed(s, rec), room);
  }

  lemma LocalMoves(s: Sink, e: SocketSink.Event)
    requires Valid(s) && WiresAgree(s) && SocketSink.Enabled(s, e) && !e.Data?
    ensures SinkMoves(s, SocketSink.Next(s, e))
  {
    match e
    case Call(rec, tooLong, room) => if !Refuses(s, tooLong) { CallMoves(s, rec, room); }
    case Connect(k, room) => ConnectMoves(s, k, room);
    case Drain(k, room) => DrainMoves(s, k, room);
    case _ => FailMoves(s, e);
  }

  lemma ConnectMoves(s: Sink, k: nat, room: nat)
    requires Valid(s) && WiresAgree(s)
    ensures SinkMoves(s, Connects(s, k, room))
  {
    StepValid(s, Connect(k, room));
    StepAgrees(s, Connect(k, room));
    FlushMoves(s.(connected := true, writable := true), room);
  }

  lemma DrainMoves(s: Sink, k: nat, room: nat)
    requires Valid(s) && WiresAgree(s)
    ensures SinkMoves(s, Drains(s, k, room))
  {
    StepValid(s, Drain(k, room));
    StepAgrees(s, Drain(k, room));
    FlushMoves(s.(writable := true), room);
  }

  lemma FailWritesNothing(s: Sink, e: SocketSink.Event)
    requires SocketSink.Enabled(s, e) && (e.Error? || e.Departure? || e.Timer? || e.Close?)
    ensures var s' := SocketSink.Next(s, e);
            s'.wires == s.wires && s'.written == s.written && s'.resolved == s.resolved
  {
  }

  lemma FailMoves(s: Sink, e: SocketSink.Event)
    requires Valid(s) && WiresAgree(s) && SocketSink.Enabled(s, e)
    requires e.Error? || e.Departure? || e.Timer? || e.Close?
    ensures SinkMoves(s, SocketSink.Next(s, e))
  {
    StepValid(s, e);
    FailWritesNothing(s, e);
    QuietMoves(s, SocketSink.Next(s, e));
  }

  lemma QuietMoves(s: Sink, s': Sink)
    requires WiresAgree(s) && Valid(s') && s'.wires == s.wires && s'.written == s.written && s'.resolved == s.resolved
    ensures SinkMoves(s, s')
  {
  }

  /** When a new connection is opened, everything written has been received, committed and
      acknowledged: nothing of an earlier connection is still under way. */
  lemma IdleIsDone(w: World)
    requires Inv(w) && w.sink.resolved == w.sink.written
    ensures LastAcks(w) == 0 && w.remote.queue == [] && Unreceived(w) == 0
    ensures w.remote.journal == w.sink.written
  {
  }

  lemma MovesKeep(w: World, s': Sink)
    requires Inv(w) && SinkMoves(w.sink, s')
    ensures Inv(w.(sink := s'))
  {
    var w' := w.(sink := s');
    if |s'.wires| != |w.sink.wires| { IdleIsDone(w); }
    assert Connections(s', w.remote);
    assert Progress(w');
  }

  lemma StepKeeps(w: World, e: Event)
    requires Inv(w) && Enabled(w, e)
    ensures Inv(Next(w, e))
  {
    match e
    case Local(x) => LocalMoves(w.sink, x); MovesKeep(w, SocketSink.Next(w.sink, x));
    case Receive(k) => ReceiveKeeps(w, k);
    case Commit(n) => CommitKeeps(w, n);
    case Break(n) => BreakKeeps(w, n);
    case Deliver(k, n, room) => DeliverKeeps(w, k, n, room);
  }

  lemma StartHolds(w: World)
    requires w == Initially()
    ensures Inv(w)
  {
  }

  lemma {:induction false} RunKeeps(t: seq<World>, es: seq<Event>, i: nat)
    requires IsRun(t, es) && i <= |es|
    ensures Inv(t[i])
  {
    if i > 0 {
      RunKeeps(t, es, i - 1);
      StepKeeps(t[i - 1], es[i - 1]);
    }
  }

  // ----- the guarantees -----

  /** Across all reconnects, stale events and failures: the records reported as recorded are a
      prefix of the journal, that is a prefix of what was written, and that of what was accepted. */
  lemma ResolvedIsDurable(t: seq<World>, es: seq<Event>, i: nat)
    requires IsRun(t, es) && i <= |es|
    ensures t[i].sink.resolved <= t[i].remote.journal <= t[i].sink.written <= t[i].sink.accepted
  {
    RunKeeps(t, es, i);
    var s, r := t[i].sink, t[i].remote;
    PrefixOfWritten(s);
    assert |s.resolved| <= |r.journal|;
    assert s.resolved == s.written[..|s.resolved|];
    assert r.journal == s.written[..|r.journal|];
  }

  /** Against this collector the sink never sees an acknowledgement that it is not owed. */
  lemma HonestAcksNeverFail(t: seq<World>, es: seq<Event>, i: nat)
    requires IsRun(t, es) && i < |es| && es[i].Deliver? && !t[i].sink.failed
    ensures !t[i + 1].sink.failed
  {
    RunKeeps(t, es, i);
    DeliverHears(t[i], es[i].k, es[i].n, es[i].room);
  }
}
