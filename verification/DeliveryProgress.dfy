/** Nothing is stuck between the dispatcher and the journal: as long as the sink and the collector
    work, every record that is still racing can be handed over, committed and delivered. */
module DeliveryProgress {
  import Dispatch
  import S = SocketSink
  import C = Collector
  import P = CollectorProgress
  import opened DurableDelivery

  /** An accepted record is waiting to be handed to the sink, or was taken by it, or turned away. */
  ghost predicate Placed<E>(c: Chain<E>) {
    forall w | 0 <= w < |c.audit.phases| && c.audit.phases[w] == Dispatch.Racing :: HasPlace(c, w)
  }

  predicate HasPlace<E>(c: Chain<E>, w: nat) {
    w in c.jobs || w in c.world.sink.accepted || w in c.turned
  }

  lemma PlaceStays<E>(c: Chain<E>, e: Event<E>, w: nat)
    requires Inv(c) && Enabled(c, e) && HasPlace(c, w)
    ensures HasPlace(Next(c, e), w)
  {
    match e
    case CallSink(tooLong, room) =>
      TakesHolds(c.world.sink, c.jobs[0], room);
      assert c.jobs == [c.jobs[0]] + c.jobs[1..];
    case Outside(x) => OutsideLetsGo(c.world, x);
    case _ =>
  }

  lemma RacingFrom<E>(c: Chain<E>, e: Event<E>, w: nat)
    requires Inv(c) && Enabled(c, e) && w < |Next(c, e).audit.phases|
    requires Next(c, e).audit.phases[w] == Dispatch.Racing
    ensures if w < |c.audit.phases| then c.audit.phases[w] == Dispatch.Racing else w in Next(c, e).jobs
  {
    match e
    case Write(event) => assert w == |c.audit.phases| ==> Next(c, e).jobs == c.jobs + [w];
    case CallSink(_, _) =>
    case Outside(_) =>
    case Settles(_) =>
    case Expires(_) =>
  }

  lemma StepPlaces<E>(c: Chain<E>, e: Event<E>)
    requires Inv(c) && Enabled(c, e) && Placed(c)
    ensures Placed(Next(c, e))
  {
    var c' := Next(c, e);
    forall w | 0 <= w < |c'.audit.phases| && c'.audit.phases[w] == Dispatch.Racing
      ensures HasPlace(c', w)
    {
      RacingFrom(c, e, w);
      if w < |c.audit.phases| { PlaceStays(c, e, w); }
    }
  }

  lemma StepIsExact<E>(c: Chain<E>, e: Event<E>)
    requires Inv(c) && Enabled(c, e) && P.Exact(c.world)
    ensures P.Exact(Next(c, e).world)
  {
    match e
    case CallSink(tooLong, room) => P.StepExact(c.world, C.Local(S.Call(c.jobs[0], tooLong, room)));
    case Outside(x) => P.StepExact(c.world, x);
    case _ =>
  }

  /** Sink and collector work, and the socket takes data. */
  ghost predicate Works<E>(c: Chain<E>) {
    var s := c.world.sink;
    c.world.remote.healthy && !s.failed && !s.closed && s.connected && s.writable
  }

  ghost predicate Traced<E>(capacity: nat, c: Chain<E>) {
    InvWith(c, capacity) && Placed(c) && P.Exact(c.world)
  }

  lemma StepIsTraced<E>(capacity: nat, c: Chain<E>, e: Event<E>)
    requires Traced(capacity, c) && Enabled(c, e)
    ensures Traced(capacity, Next(c, e))
  {
    StepKeeps(c, e);
    CapacityStays(c, e);
    StepPlaces(c, e);
    StepIsExact(c, e);
  }

  lemma TracedAt<E>(capacity: nat, t: seq<Chain<E>>, es: seq<Event<E>>, i: nat)
    requires IsRun(capacity, t, es) && 0 < i <= |es| && Traced(capacity, t[i - 1])
    ensures Traced(capacity, t[i])
  {
    StepIsTraced(capacity, t[i - 1], es[i - 1]);
  }

  lemma {:induction false} RunIsTraced<E>(capacity: nat, t: seq<Chain<E>>, es: seq<Event<E>>, i: nat)
    requires IsRun(capacity, t, es) && i <= |es|
    ensures Traced(capacity, t[i])
    decreases i
  {
    if i == 0 {
      StartKeeps(capacity, t[0]);
    } else {
      RunIsTraced(capacity, t, es, i - 1);
      TracedAt(capacity, t, es, i);
    }
  }

  // ----- one step nearer -----

  /** An event of the sink or the collector, and no failure. */
  predicate Onward<E>(e: Event<E>) {
    e.CallSink? || e.Settles? || (e.Outside? && (e.e.Receive? || e.e.Commit? || e.e.Deliver?))
  }

  predicate Open<E>(c: Chain<E>, w: nat) {
    w < |c.audit.phases| && c.audit.phases[w] == Dispatch.Racing && w !in c.turned
  }

  /** Some of the records open in `c` have been delivered; no other record has changed. */
  ghost predicate Toward<E>(c: Chain<E>, c': Chain<E>) {
    && c'.turned == c.turned
    && |c'.audit.phases| == |c.audit.phases|
    && forall w | 0 <= w < |c.audit.phases| ::
         c'.audit.phases[w] == c.audit.phases[w] || (Open(c, w) && c'.audit.phases[w] == Dispatch.Delivered)
  }

  /** The oldest waiting record is handed to the sink. */
  lemma HandsOver<E>(capacity: nat, c: Chain<E>)
    requires capacity <= MAX_PENDING && Traced(capacity, c) && Works(c) && c.jobs != []
    ensures var c' := Next(c, CallSink(false, 1)); Taken(c, c') && Works(c') && Toward(c, c')
  {
    BelowTheBound(c);
    TakesHolds(c.world.sink, c.jobs[0], 1);
  }

  /** The collector receives, commits or acknowledges a record. */
  lemma Flows<E>(capacity: nat, c: Chain<E>)
    requires Traced(capacity, c) && Works(c) && P.Work(c.world) > 0
    ensures Enabled(c, Outside(P.Advance(c.world)))
    ensures var c' := Next(c, Outside(P.Advance(c.world)));
            && Works(c') && c'.jobs == c.jobs && c'.audit == c.audit && Toward(c, c')
            && 0 <= P.Work(c'.world) < P.Work(c.world)
  {
    P.AdvanceWorks(c.world);
    P.ReadyIsWritten(C.Next(c.world, P.Advance(c.world)));
    AdvanceStaysOpen(c.world);
  }

  lemma AdvanceStaysOpen(w: C.World)
    requires C.Enabled(w, P.Advance(w)) && !w.sink.closed
    ensures !C.Next(w, P.Advance(w)).sink.closed
  {
  }

  /** A sink call settles. */
  lemma CallSettles<E>(capacity: nat, c: Chain<E>, w: nat)
    requires Traced(capacity, c) && Works(c) && c.jobs == [] && P.Work(c.world) == 0 && Open(c, w)
    ensures Enabled(c, Settles(w))
    ensures var c' := Next(c, Settles(w));
            && c'.world == c.world && c'.jobs == c.jobs && Toward(c, c')
            && |c'.audit.pending| < |c.audit.pending|
  {
    P.ReadyIsWritten(c.world);
    assert HasPlace(c, w);
    assert |c.audit.pending - {w}| == |c.audit.pending| - 1;
  }

  ghost predicate Unfinished<E>(c: Chain<E>) {
    c.jobs != [] || P.Work(c.world) > 0 || exists w :: Open(c, w)
  }

  lemma Step<E>(capacity: nat, c: Chain<E>) returns (e: Event<E>)
    requires capacity <= MAX_PENDING && Traced(capacity, c) && Works(c) && Unfinished(c)
    ensures Onward(e) && Enabled(c, e)
    ensures var c' := Next(c, e);
            && Traced(capacity, c') && Works(c') && Toward(c, c')
            && (|c'.jobs| < |c.jobs|
                || (|c'.jobs| == |c.jobs| && 0 <= P.Work(c'.world) < P.Work(c.world))
                || (|c'.jobs| == |c.jobs| && c'.world == c.world && |c'.audit.pending| < |c.audit.pending|))
  {
    P.ReadyIsWritten(c.world);
    if c.jobs != [] {
      e := CallSink(false, 1);
      HandsOver(capacity, c);
    } else if P.Work(c.world) > 0 {
      e := Outside(P.Advance(c.world));
      Flows(capacity, c);
    } else {
      var w :| Open(c, w);
      e := Settles(w);
      CallSettles(capacity, c, w);
    }
    StepIsTraced(capacity, c, e);
  }

  // ----- all the way -----

  /** From `c` the events `es` lead through the states `t`. */
  ghost predicate IsPath<E>(c: Chain<E>, t: seq<Chain<E>>, es: seq<Event<E>>) {
    && |t| == |es| + 1
    && t[0] == c
    && forall i {:trigger es[i]} | 0 <= i < |es| ::
         Onward(es[i]) && Enabled(t[i], es[i]) && t[i + 1] == Next(t[i], es[i])
  }

  lemma Before<E>(c: Chain<E>, e: Event<E>, t: seq<Chain<E>>, es: seq<Event<E>>)
    requires Onward(e) && Enabled(c, e) && IsPath(Next(c, e), t, es)
    ensures IsPath(c, [c] + t, [e] + es)
  {
    var u, more := [c] + t, [e] + es;
    forall i {:trigger more[i]} | 0 <= i < |more|
      ensures Onward(more[i]) && Enabled(u[i], more[i]) && u[i + 1] == Next(u[i], more[i])
    {
      if i > 0 { assert more[i] == es[i - 1]; }
    }
  }

  lemma TowardTransitively<E>(a: Chain<E>, b: Chain<E>, c: Chain<E>)
    requires Toward(a, b) && Toward(b, c)
    ensures Toward(a, c)
  {
  }

  /** From every state in which sink and collector work a path leads to one in which no record is open. */
  lemma {:induction false} PathToDelivery<E>(capacity: nat, c: Chain<E>) returns (t: seq<Chain<E>>, es: seq<Event<E>>)
    requires capacity <= MAX_PENDING && Traced(capacity, c) && Works(c)
    ensures IsPath(c, t, es) && Toward(c, t[|es|]) && forall w :: !Open(t[|es|], w)
    decreases |c.jobs|, P.Work(c.world), |c.audit.pending|
  {
    if Unfinished(c) {
      var e := Step(capacity, c);
      P.ReadyIsWritten(c.world);
      t, es := PathToDelivery(capacity, Next(c, e));
      Before(c, e, t, es);
      TowardTransitively(c, Next(c, e), t[|es|]);
      t, es := [c] + t, [e] + es;
    } else {
      t, es := [c], [];
    }
  }

  /** What becomes of each record when no open one is left. */
  ghost predicate AllDelivered(phases: seq<Dispatch.Phase>, turned: set<nat>, phases': seq<Dispatch.Phase>) {
    && |phases'| == |phases|
    && forall w | 0 <= w < |phases| ::
         phases'[w] == if phases[w] == Dispatch.Racing && w !in turned then Dispatch.Delivered else phases[w]
  }

  lemma NoneOpen<E>(c: Chain<E>, c': Chain<E>)
    requires Toward(c, c') && forall w :: !Open(c', w)
    ensures AllDelivered(c.audit.phases, c.turned, c'.audit.phases)
  {
    forall w | 0 <= w < |c.audit.phases|
      ensures c'.audit.phases[w] ==
                if c.audit.phases[w] == Dispatch.Racing && w !in c.turned then Dispatch.Delivered
                else c.audit.phases[w]
    {
      assert !Open(c', w);
    }
  }

  lemma Extended<E>(capacity: nat, t: seq<Chain<E>>, es: seq<Event<E>>, u: seq<Chain<E>>, more: seq<Event<E>>)
    requires IsRun(capacity, t, es) && IsPath(t[|es|], u, more)
    ensures IsRun(capacity, t + u[1..], es + more) && (t + u[1..])[|es + more|] == u[|more|]
  {
    var t', es' := t + u[1..], es + more;
    assert forall i | |es| <= i <= |es'| :: t'[i] == u[i - |es|];
    forall i {:trigger es'[i]} | 0 <= i < |es'|
      ensures Enabled(t'[i], es'[i]) && t'[i + 1] == Next(t'[i], es'[i])
    {
      if i < |es| { assert es'[i] == es[i]; } else { assert es'[i] == more[i - |es|]; }
    }
  }

  /** Every run at whose end the collector works and the sink is open, sound, connected and writable can
      be continued, by steps of the sink and the collector, so that each record then racing which the
      sink has not turned away is delivered, and nothing else changes for any record. */
  lemma AllCanBeDelivered<E>(capacity: nat, t: seq<Chain<E>>, es: seq<Event<E>>)
    returns (t': seq<Chain<E>>, es': seq<Event<E>>)
    requires capacity <= MAX_PENDING && IsRun(capacity, t, es) && Works(t[|es|])
    ensures IsRun(capacity, t', es') && es <= es' && t <= t'
    ensures AllDelivered(t[|es|].audit.phases, t[|es|].turned, t'[|es'|].audit.phases)
  {
    RunIsTraced(capacity, t, es, |es|);
    var u, more := PathToDelivery(capacity, t[|es|]);
    NoneOpen(t[|es|], u[|more|]);
    Extended(capacity, t, es, u, more);
    t', es' := t + u[1..], es + more;
  }
}
