/** The whole is never stuck either: what the runtime has recorded can reach the journal. */
module EndToEndProgress {
  import opened HttpSystem
  import opened HttpInvariant
  import opened EndToEnd
  import Dispatch
  import S = SocketSink
  import C = Collector
  import P = CollectorProgress
  import D = DurableDelivery
  import Q = DeliveryProgress

  ghost predicate Followed(f: Full) {
    Sound(f) && Q.Placed(ChainOf(f)) && P.Exact(f.world)
  }

  // ----- every record has its place in every run -----

  lemma TouchPlaces(c: D.Chain<Tag>, a': Dispatch.Ledger<Tag>, touch: Touch)
    requires D.Inv(c) && Q.Placed(c) && Touches(c.audit, a', touch)
    ensures Q.Placed(c.(audit := a', jobs := NewJobs(c.jobs, c.audit, a')))
  {
    match touch
    case Leaves => assert c.(audit := a', jobs := c.jobs) == c;
    case Submits(t) => Q.StepPlaces(c, D.Write(t));
    case Expires(w) => Q.StepPlaces(c, D.Expires(w));
    case Hooks =>
      var c' := c.(audit := a', jobs := c.jobs);
      forall w | 0 <= w < |c'.audit.phases| && c'.audit.phases[w] == Dispatch.Racing
        ensures Q.HasPlace(c', w)
      {
        assert Q.HasPlace(c, w);
      }
  }

  lemma HttpFollows(f: Full, x: HttpSystem.Event)
    requires Followed(f) && EndToEnd.Enabled(f, Http(x))
    ensures Followed(EndToEnd.Next(f, Http(x)))
  {
    HttpKeeps(f, x);
    var a' := HttpSystem.Next(f.sys, x).audit;
    var touch := EventTouch(f.sys, x);
    var c := ChainOf(f);
    TouchKeeps(c, a', touch);
    TouchPlaces(c, a', touch);
    if x.SinkCloses? {
      var d := c.(audit := a', jobs := NewJobs(c.jobs, c.audit, a'));
      Q.StepPlaces(d, D.Outside(C.Local(S.Close)));
      Q.StepIsExact(d, D.Outside(C.Local(S.Close)));
    }
  }

  /** An event of the sink or the collector is one of dispatcher, sink and collector alone. */
  function Alone(e: EndToEnd.Event): D.Event<Tag>
    requires !e.Http?
  {
    match e
    case CallSink(tooLong, room) => D.CallSink(tooLong, room)
    case Outside(x) => D.Outside(x)
    case Settles(w) => D.Settles(w)
  }

  lemma AloneIsStep(f: Full, e: EndToEnd.Event)
    requires !e.Http? && EndToEnd.Enabled(f, e)
    ensures D.Enabled(ChainOf(f), Alone(e)) && ChainOf(EndToEnd.Next(f, e)) == D.Next(ChainOf(f), Alone(e))
  {
  }

  lemma StepFollows(f: Full, e: EndToEnd.Event)
    requires Followed(f) && EndToEnd.Enabled(f, e)
    ensures Followed(EndToEnd.Next(f, e))
  {
    if e.Http? {
      HttpFollows(f, e.e);
    } else {
      StepIsSound(f, e);
      AloneIsStep(f, e);
      Q.StepPlaces(ChainOf(f), Alone(e));
      Q.StepIsExact(ChainOf(f), Alone(e));
    }
  }

  lemma StartFollows(c: Config, f: Full)
    requires f == EndToEnd.Initially(c)
    ensures Followed(f)
  {
    StartIsSound(c, f);
  }

  lemma StepFollowsAt(c: Config, t: seq<Full>, es: seq<EndToEnd.Event>, i: nat)
    requires EndToEnd.IsRun(c, t, es) && 0 < i <= |es| && Followed(t[i - 1])
    ensures Followed(t[i])
  {
    StepFollows(t[i - 1], es[i - 1]);
  }

  lemma {:induction false} RunFollows(c: Config, t: seq<Full>, es: seq<EndToEnd.Event>, i: nat)
    requires EndToEnd.IsRun(c, t, es) && i <= |es|
    ensures Followed(t[i])
    decreases i
  {
    if i == 0 {
      StartFollows(c, t[0]);
    } else {
      RunFollows(c, t, es, i - 1);
      StepFollowsAt(c, t, es, i);
    }
  }

  lemma ConfigAt(c: Config, t: seq<Full>, es: seq<EndToEnd.Event>, i: nat)
    requires EndToEnd.IsRun(c, t, es) && i <= |es|
    ensures Sound(t[i]) && t[i].sys.audit.capacity == c.maxPending
  {
    RunIsSound(c, t, es, i);
    var u, xs := RuntimeIsARun(c, t, es, i);
    RunKeepsInv(c, u, xs, |xs|);
  }

  // ----- what dispatcher, sink and collector can do alone, they can do here -----

  function Together(e: D.Event<Tag>): EndToEnd.Event
    requires Q.Onward(e)
  {
    match e
    case CallSink(tooLong, room) => CallSink(tooLong, room)
    case Outside(x) => Outside(x)
    case Settles(w) => Settles(w)
  }

  lemma TogetherIsStep(f: Full, e: D.Event<Tag>)
    requires Q.Onward(e) && D.Enabled(ChainOf(f), e)
    ensures EndToEnd.Enabled(f, Together(e)) && !Together(e).Http?
    ensures ChainOf(EndToEnd.Next(f, Together(e))) == D.Next(ChainOf(f), e)
  {
  }

  lemma Longer(c: Config, t: seq<Full>, es: seq<EndToEnd.Event>, e: EndToEnd.Event, f: Full)
    requires EndToEnd.IsRun(c, t, es) && EndToEnd.Enabled(t[|es|], e) && f == EndToEnd.Next(t[|es|], e)
    ensures EndToEnd.IsRun(c, t + [f], es + [e])
  {
    var u, more := t + [f], es + [e];
    forall i {:trigger more[i]} | 0 <= i < |more|
      ensures EndToEnd.Enabled(u[i], more[i]) && u[i + 1] == EndToEnd.Next(u[i], more[i])
    {
      if i < |es| { assert more[i] == es[i]; }
    }
  }

  /** The first `n` steps of a path, taken at the end of a run. */
  lemma {:induction false} Along(c: Config, t: seq<Full>, es: seq<EndToEnd.Event>,
                                 u: seq<D.Chain<Tag>>, xs: seq<D.Event<Tag>>, n: nat)
    returns (t': seq<Full>, es': seq<EndToEnd.Event>)
    requires EndToEnd.IsRun(c, t, es) && Q.IsPath(ChainOf(t[|es|]), u, xs) && n <= |xs|
    ensures EndToEnd.IsRun(c, t', es') && t <= t' && es <= es' && ChainOf(t'[|es'|]) == u[n]
    ensures forall k | |es| <= k < |es'| :: !es'[k].Http?
  {
    if n == 0 {
      t', es' := t, es;
    } else {
      t', es' := Along(c, t, es, u, xs, n - 1);
      assert Q.Onward(xs[n - 1]);
      TogetherIsStep(t'[|es'|], xs[n - 1]);
      var f := EndToEnd.Next(t'[|es'|], Together(xs[n - 1]));
      Longer(c, t', es', Together(xs[n - 1]), f);
      t', es' := t' + [f], es' + [Together(xs[n - 1])];
    }
  }

  /** Every run at whose end the collector works and the sink is open, sound, connected and writable can
      be continued, by steps of the sink and the collector alone, so that each record of the runtime
      then racing which the sink has not turned away is delivered and in the journal. */
  lemma RecordsCanArrive(c: Config, t: seq<Full>, es: seq<EndToEnd.Event>)
    returns (t': seq<Full>, es': seq<EndToEnd.Event>)
    requires c.maxPending <= D.MAX_PENDING && EndToEnd.IsRun(c, t, es) && Q.Works(ChainOf(t[|es|]))
    ensures EndToEnd.IsRun(c, t', es') && t <= t' && es <= es'
    ensures forall k | |es| <= k < |es'| :: !es'[k].Http?
    ensures Q.AllDelivered(t[|es|].sys.audit.phases, t[|es|].turned, t'[|es'|].sys.audit.phases)
    ensures forall w | 0 <= w < |t[|es|].sys.audit.phases| && t'[|es'|].sys.audit.phases[w] == Dispatch.Delivered ::
              w in t'[|es'|].world.remote.journal
  {
    var now := ChainOf(t[|es|]);
    RunFollows(c, t, es, |es|);
    ConfigAt(c, t, es, |es|);
    var u, xs := Q.PathToDelivery(c.maxPending, now);
    Q.NoneOpen(now, u[|xs|]);
    t', es' := Along(c, t, es, u, xs, |xs|);
    ConfigAt(c, t', es', |es'|);
    forall w | 0 <= w < |t[|es|].sys.audit.phases| && t'[|es'|].sys.audit.phases[w] == Dispatch.Delivered
      ensures w in t'[|es'|].world.remote.journal
    {
      D.DeliveredInJournal(ChainOf(t'[|es'|]), w);
    }
  }
}
