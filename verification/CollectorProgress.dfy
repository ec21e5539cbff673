/** Nothing is stuck: as long as neither side has failed, every record that the sink has taken can
    still be received, committed, acknowledged and resolved. */
module CollectorProgress {
  import opened Wrappers
  import opened SocketSink
  import opened Collector

  /** What is committed and not resolved is on its way back. */
  ghost predicate Exact(w: World) {
    w.remote.healthy && !w.sink.failed ==> |w.sink.resolved| + LastAcks(w) == |w.remote.journal|
  }

  lemma LocalExact(w: World, e: SocketSink.Event)
    requires Inv(w) && Exact(w) && Collector.Enabled(w, Local(e))
    ensures Exact(Collector.Next(w, Local(e)))
  {
    LocalMoves(w.sink, e);
    if |SocketSink.Next(w.sink, e).wires| != |w.sink.wires| { IdleIsDone(w); }
    if w.sink.failed { FailedStep(w.sink, e); }
  }

  lemma CommitExact(w: World, n: nat)
    requires Inv(w) && Exact(w) && Collector.Enabled(w, Commit(n))
    ensures Exact(Collector.Next(w, Commit(n)))
  {
    if n > 0 {
      AcksOfBatch(w.remote.acks, w.remote.queue[..n], |w.sink.wires| - 1);
    } else {
      assert w.remote.queue[..0] == [];
    }
  }

  lemma DeliverExact(w: World, k: nat, n: nat, room: nat)
    requires Inv(w) && Exact(w) && Collector.Enabled(w, Deliver(k, n, room))
    ensures Exact(Collector.Next(w, Deliver(k, n, room)))
  {
    var data := seq(n, _ => ACK);
    if w.sink.failed {
      FailedStep(w.sink, Data(k, data, room));
    } else {
      AcksAreOwed(w, k, n);
      if w.sink.socket == Some(k) { HearsOnly(w.sink, k, data, room); }
    }
  }

  lemma StepExact(w: World, e: Collector.Event)
    requires Inv(w) && Exact(w) && Collector.Enabled(w, e)
    ensures Exact(Collector.Next(w, e))
  {
    match e
    case Local(x) => LocalExact(w, x);
    case Receive(k) =>
    case Commit(n) => CommitExact(w, n);
    case Break(n) =>
    case Deliver(k, n, room) => DeliverExact(w, k, n, room);
  }

  lemma StepExactAt(t: seq<World>, es: seq<Collector.Event>, i: nat)
    requires Collector.IsRun(t, es) && 0 < i <= |es| && Exact(t[i - 1])
    ensures Exact(t[i])
  {
    Collector.RunKeeps(t, es, i - 1);
    StepExact(t[i - 1], es[i - 1]);
  }

  lemma {:induction false} RunExact(t: seq<World>, es: seq<Collector.Event>, i: nat)
    requires Collector.IsRun(t, es) && i <= |es|
    ensures Exact(t[i])
    decreases i
  {
    if i > 0 {
      RunExact(t, es, i - 1);
      StepExactAt(t, es, i);
    }
  }

  // ----- finishing -----

  /** Neither side has failed, and everything taken has been written. */
  ghost predicate Ready(w: World) {
    && Inv(w) && Exact(w) && w.remote.healthy
    && !w.sink.failed && w.sink.connected && w.sink.writable
  }

  function Work(w: World): int {
    3 * Unreceived(w) + 2 * |w.remote.queue| + LastAcks(w)
  }

  lemma ReadyIsWritten(w: World)
    requires Ready(w)
    ensures w.sink.unsent == [] && w.sink.rejected == [] && w.sink.socket == Some(|w.sink.wires| - 1)
    ensures |w.sink.inflight| == Unreceived(w) + |w.remote.queue| + LastAcks(w)
    ensures Work(w) == 0 ==> w.sink.resolved == w.sink.accepted
  {
    assert w.sink.rejected[..w.sink.cut] == [];
    if w.sink.inflight == [] { assert w.sink.resolved + [] + [] + [] == w.sink.resolved; }
  }

  /** The next thing to do. */
  function Advance(w: World): Collector.Event {
    if w.remote.queue != [] then Commit(1)
    else if LastAcks(w) > 0 then Deliver(if |w.sink.wires| == 0 then 0 else |w.sink.wires| - 1, 1, 0)
    else Receive(if |w.sink.wires| == 0 then 0 else |w.sink.wires| - 1)
  }

  lemma AdvanceWorks(w: World)
    requires Ready(w) && Work(w) > 0
    ensures Collector.Enabled(w, Advance(w)) && Ready(Collector.Next(w, Advance(w)))
    ensures Work(Collector.Next(w, Advance(w))) < Work(w)
    ensures Collector.Next(w, Advance(w)).sink.accepted == w.sink.accepted
  {
    ReadyIsWritten(w);
    var e := Advance(w);
    Collector.StepKeeps(w, e);
    StepExact(w, e);
    var k := |w.sink.wires| - 1;
    if e.Commit? {
      AcksOfBatch(w.remote.acks, w.remote.queue[..1], k);
    } else if e.Deliver? {
      HearsOnly(w.sink, k, seq(1, _ => ACK), 0);
    }
  }

  lemma Longer(t: seq<World>, es: seq<Collector.Event>, e: Collector.Event)
    requires Collector.IsRun(t, es) && Collector.Enabled(t[|es|], e)
    ensures Collector.IsRun(t + [Collector.Next(t[|es|], e)], es + [e])
  {
    var u, more := t + [Collector.Next(t[|es|], e)], es + [e];
    forall i {:trigger more[i]} | 0 <= i < |more|
      ensures Collector.Enabled(u[i], more[i]) && u[i + 1] == Collector.Next(u[i], more[i])
    {
      if i < |es| { assert more[i] == es[i]; }
    }
  }

  lemma {:induction false} Finishes(t: seq<World>, es: seq<Collector.Event>)
    returns (t': seq<World>, es': seq<Collector.Event>)
    requires Collector.IsRun(t, es) && Ready(t[|es|])
    ensures Collector.IsRun(t', es') && es <= es' && t <= t'
    ensures t'[|es'|].sink.resolved == t'[|es'|].sink.accepted == t[|es|].sink.accepted
    decreases Work(t[|es|])
  {
    var w := t[|es|];
    ReadyIsWritten(w);
    if Work(w) == 0 {
      t', es' := t, es;
    } else {
      AdvanceWorks(w);
      Longer(t, es, Advance(w));
      t', es' := Finishes(t + [Collector.Next(w, Advance(w))], es + [Advance(w)]);
    }
  }

  /** Every run in which the journal works, the sink has not failed and its socket is connected and
      writable can be continued so that all records taken so far are resolved. */
  lemma AllCanBeResolved(t: seq<World>, es: seq<Collector.Event>)
    returns (t': seq<World>, es': seq<Collector.Event>)
    requires Collector.IsRun(t, es) && t[|es|].remote.healthy
    requires !t[|es|].sink.failed && t[|es|].sink.connected && t[|es|].sink.writable
    ensures Collector.IsRun(t', es') && es <= es' && t <= t'
    ensures t'[|es'|].sink.resolved == t'[|es'|].sink.accepted == t[|es|].sink.accepted
  {
    Collector.RunKeeps(t, es, |es|);
    RunExact(t, es, |es|);
    t', es' := Finishes(t, es);
  }
}
