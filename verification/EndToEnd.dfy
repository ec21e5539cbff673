/** The HTTP runtime with the socket sink and the reference collector behind it: what a client's
    answer says about the collector's journal. */
module EndToEnd {
  import opened HttpSystem
  import opened RequestProgram
  import opened RequestInvariant
  import opened HttpInvariant
  import opened Runs
  import R = RecordTheorems
  import Dispatch
  import S = SocketSink
  import C = Collector
  import D = DurableDelivery

  datatype Full = Full(sys: Sys, world: C.World, jobs: seq<nat>, turned: set<nat>)

  function ChainOf(f: Full): D.Chain<Tag> {
    D.Chain(f.sys.audit, f.world, f.jobs, f.turned)
  }

  function Initially(c: Config): Full {
    Full(Boot(c), C.Initially(), [], {})
  }

  /** Any event of the runtime but a settlement of a sink call, which only the sink brings about. */
  datatype Event =
    | Http(e: HttpSystem.Event)
    | CallSink(tooLong: bool, room: nat)
    | Outside(x: C.Event)
    | Settles(w: nat)

  predicate Enabled(f: Full, e: Event) {
    match e
    case Http(x) => HttpSystem.Enabled(f.sys, x) && !x.SinkAccepts? && !x.SinkFails?
    case CallSink(tooLong, room) => D.Enabled(ChainOf(f), D.CallSink(tooLong, room))
    case Outside(x) => D.Enabled(ChainOf(f), D.Outside(x)) && (x.Local? ==> !x.e.Close?)
    case Settles(w) => D.Enabled(ChainOf(f), D.Settles(w))
  }

  /** A record that has just been accepted is handed to the sink by a microtask. */
  function NewJobs(jobs: seq<nat>, a: Dispatch.Ledger<Tag>, a': Dispatch.Ledger<Tag>): seq<nat> {
    if |a'.phases| > |a.phases| && a'.dropped == a.dropped then jobs + [|a.phases|] else jobs
  }

  function Next(f: Full, e: Event): Full
    requires Enabled(f, e)
  {
    match e
    case Http(x) =>
      (var s := HttpSystem.Next(f.sys, x);
       f.(sys := s, jobs := NewJobs(f.jobs, f.sys.audit, s.audit),
          world := if x.SinkCloses? then C.Next(f.world, C.Local(S.Close)) else f.world))
    case CallSink(tooLong, room) =>
      (var c := D.Next(ChainOf(f), D.CallSink(tooLong, room));
       f.(world := c.world, jobs := c.jobs, turned := c.turned))
    case Outside(x) => f.(world := C.Next(f.world, x))
    case Settles(w) =>
      f.(sys := HttpSystem.Next(f.sys, if w in f.world.sink.resolved then SinkAccepts(w) else SinkFails(w)))
  }

  ghost predicate IsRun(c: Config, t: seq<Full>, es: seq<Event>) {
    && |t| == |es| + 1
    && t[0] == Initially(c)
    && forall i {:trigger es[i]} | 0 <= i < |es| :: Enabled(t[i], es[i]) && t[i + 1] == Next(t[i], es[i])
  }

  ghost predicate Sound(f: Full) {
    HttpInvariant.Inv(f.sys) && D.Inv(ChainOf(f))
  }

  // ----- how an event of the runtime touches the dispatcher -----

  datatype Touch = Leaves | Submits(t: Tag) | Expires(w: nat) | Hooks

  ghost predicate Touches(a: Dispatch.Ledger<Tag>, a': Dispatch.Ledger<Tag>, touch: Touch) {
    match touch
    case Leaves => a' == a
    case Submits(t) => a' == Dispatch.Submit(a, t)
    case Expires(w) => w < |a.phases| && a.phases[w] == Dispatch.Racing && a' == Dispatch.Expire(a, w)
    case Hooks => a'.Valid() && a'.phases == a.phases && a'.pending == a.pending && a'.dropped == a.dropped
  }

  lemma MoveTouch(s: Sys, r: nat, m: Move, last: bool) returns (touch: Touch)
    requires r < |s.reqs| && (last ==> s.door.requests > 0)
    ensures Touches(s.audit, AfterAction(s, r, m, last).audit, touch)
  {
    touch := if m.wrote.Some? then Submits(Tag(r, m.wrote.value)) else Leaves;
  }

  lemma EventTouch(s: Sys, e: HttpSystem.Event) returns (touch: Touch)
    requires HttpInvariant.Inv(s) && HttpSystem.Enabled(s, e) && !e.SinkAccepts? && !e.SinkFails?
    ensures Touches(s.audit, HttpSystem.Next(s, e).audit, touch)
  {
    match e
    case Acts(r, a) => touch := MoveTouch(s, r, ActMove(s, r, a), a.TerminalSettles?);
    case Verifies(n, ok, destroyed) =>
      touch := if HttpSystem.Next(s, e).audit == s.audit then Leaves else Submits(Tag(|s.reqs|, Received));
    case DeliveryTimesOut(w) => touch := Expires(w);
    case SinkCloses => touch := Hooks;
    case CloseEnds(_) => touch := Hooks;
    case _ => touch := Leaves;
  }

  lemma TouchKeeps(c: D.Chain<Tag>, a': Dispatch.Ledger<Tag>, touch: Touch)
    requires D.Inv(c) && Touches(c.audit, a', touch)
    ensures D.Inv(c.(audit := a', jobs := NewJobs(c.jobs, c.audit, a')))
  {
    match touch
    case Leaves => assert c.(audit := a', jobs := c.jobs) == c;
    case Submits(t) => D.WriteKeeps(c, t);
    case Expires(w) => D.StepKeeps(c, D.Expires(w));
    case Hooks =>
  }

  lemma HttpKeeps(f: Full, x: HttpSystem.Event)
    requires Sound(f) && Enabled(f, Http(x))
    ensures Sound(Next(f, Http(x)))
  {
    EventKeeps(f.sys, x);
    var a' := HttpSystem.Next(f.sys, x).audit;
    var touch := EventTouch(f.sys, x);
    var c := ChainOf(f);
    TouchKeeps(c, a', touch);
    if x.SinkCloses? {
      D.OutsideKeeps(c.(audit := a', jobs := NewJobs(c.jobs, c.audit, a')), C.Local(S.Close));
    }
  }

  lemma SettlesKeeps(f: Full, w: nat)
    requires Sound(f) && Enabled(f, Settles(w))
    ensures Sound(Next(f, Settles(w)))
  {
    D.StepKeeps(ChainOf(f), D.Settles(w));
    EventKeeps(f.sys, if w in f.world.sink.resolved then SinkAccepts(w) else SinkFails(w));
  }

  lemma SinkKeeps(f: Full, e: Event)
    requires Sound(f) && Enabled(f, e) && (e.CallSink? || e.Outside?)
    ensures Sound(Next(f, e))
  {
    match e
    case CallSink(tooLong, room) => D.CallKeeps(ChainOf(f), tooLong, room);
    case Outside(x) => D.OutsideKeeps(ChainOf(f), x);
  }

  lemma StepIsSound(f: Full, e: Event)
    requires Sound(f) && Enabled(f, e)
    ensures Sound(Next(f, e))
  {
    match e
    case Http(x) => HttpKeeps(f, x);
    case Settles(w) => SettlesKeeps(f, w);
    case _ => SinkKeeps(f, e);
  }

  lemma StartIsSound(c: Config, f: Full)
    requires f == Initially(c)
    ensures Sound(f)
  {
    BootHolds(c);
  }

  lemma StepIsSoundAt(c: Config, t: seq<Full>, es: seq<Event>, i: nat)
    requires IsRun(c, t, es) && 0 < i <= |es| && Sound(t[i - 1])
    ensures Sound(t[i])
  {
    StepIsSound(t[i - 1], es[i - 1]);
  }

  lemma {:induction false} RunIsSound(c: Config, t: seq<Full>, es: seq<Event>, i: nat)
    requires IsRun(c, t, es) && i <= |es|
    ensures Sound(t[i])
    decreases i
  {
    if i == 0 {
      StartIsSound(c, t[0]);
    } else {
      RunIsSound(c, t, es, i - 1);
      StepIsSoundAt(c, t, es, i);
    }
  }

  // ----- the guarantees -----

  /** A step of the whole is one step of the runtime, or leaves the runtime as it is. */
  lemma StepProjects(f: Full, e: Event) returns (xs: seq<HttpSystem.Event>)
    requires Enabled(f, e)
    ensures |xs| <= 1
    ensures if xs == [] then Next(f, e).sys == f.sys
            else HttpSystem.Enabled(f.sys, xs[0]) && Next(f, e).sys == HttpSystem.Next(f.sys, xs[0])
  {
    match e
    case Http(x) => xs := [x];
    case Settles(w) => xs := [if w in f.world.sink.resolved then SinkAccepts(w) else SinkFails(w)];
    case _ => xs := [];
  }

  lemma StepProjectsAt(c: Config, t: seq<Full>, es: seq<Event>, i: nat) returns (xs: seq<HttpSystem.Event>)
    requires IsRun(c, t, es) && i < |es|
    ensures |xs| <= 1
    ensures if xs == [] then t[i + 1].sys == t[i].sys
            else HttpSystem.Enabled(t[i].sys, xs[0]) && t[i + 1].sys == HttpSystem.Next(t[i].sys, xs[0])
  {
    xs := StepProjects(t[i], es[i]);
  }

  lemma Longer(c: Config, u: seq<Sys>, xs: seq<HttpSystem.Event>, x: HttpSystem.Event, s: Sys)
    requires HttpSystem.IsRun(c, u, xs) && HttpSystem.Enabled(u[|xs|], x) && s == HttpSystem.Next(u[|xs|], x)
    ensures HttpSystem.IsRun(c, u + [s], xs + [x])
  {
    var v, more := u + [s], xs + [x];
    forall i {:trigger more[i]} | 0 <= i < |more|
      ensures HttpSystem.Enabled(v[i], more[i]) && v[i + 1] == HttpSystem.Next(v[i], more[i])
    {
      if i < |xs| { assert more[i] == xs[i]; }
    }
  }

  lemma StartProjects(c: Config, t: seq<Full>, es: seq<Event>)
    requires IsRun(c, t, es)
    ensures HttpSystem.IsRun(c, [t[0].sys], [])
  {
  }

  /** Every state of the whole has a runtime that the runtime reaches on its own, with a sink that may do
      anything: whatever holds in every run of the runtime holds with the sink and the collector. */
  lemma {:induction false} RuntimeIsARun(c: Config, t: seq<Full>, es: seq<Event>, i: nat)
    returns (u: seq<Sys>, xs: seq<HttpSystem.Event>)
    requires IsRun(c, t, es) && i <= |es|
    ensures HttpSystem.IsRun(c, u, xs) && u[|xs|] == t[i].sys
    decreases i
  {
    if i == 0 {
      StartProjects(c, t, es);
      u, xs := [t[0].sys], [];
    } else {
      u, xs := RuntimeIsARun(c, t, es, i - 1);
      var more := StepProjectsAt(c, t, es, i - 1);
      if more != [] {
        Longer(c, u, xs, more[0], t[i].sys);
        u, xs := u + [t[i].sys], xs + [more[0]];
      }
    }
  }

  lemma StepWrites(f: Full, e: Event, tag: Tag)
    requires Enabled(f, e)
    ensures |f.sys.audit.events| <= |Next(f, e).sys.audit.events| <= |f.sys.audit.events| + 1
    ensures R.Submits(f.sys, Next(f, e).sys, tag) ==> e.Http? && R.Causes(f.sys, e.e, tag)
  {
    if e.Http? {
      R.OneRecordAtMost(f.sys, e.e);
      R.StepSubmits(f.sys, e.e, tag);
    }
  }

  lemma StepWritesAt(c: Config, t: seq<Full>, es: seq<Event>, i: nat, tag: Tag)
    requires IsRun(c, t, es) && i < |es|
    ensures |t[i].sys.audit.events| <= |t[i + 1].sys.audit.events| <= |t[i].sys.audit.events| + 1
    ensures R.Submits(t[i].sys, t[i + 1].sys, tag) ==> es[i].Http? && R.Causes(t[i].sys, es[i].e, tag)
  {
    StepWrites(t[i], es[i], tag);
  }

  lemma StepKeepsRecords(f: Full, e: Event, w: nat)
    requires Sound(f) && Enabled(f, e) && w < |f.sys.audit.events|
    ensures w < |Next(f, e).sys.audit.events| && Next(f, e).sys.audit.events[w] == f.sys.audit.events[w]
  {
    if e.Http? { RecordsStay(f.sys, e.e, w); }
  }

  lemma StepKeepsRecordsAt(c: Config, t: seq<Full>, es: seq<Event>, i: nat, w: nat)
    requires IsRun(c, t, es) && i < |es| && w < |t[i].sys.audit.events|
    ensures w < |t[i + 1].sys.audit.events| && t[i + 1].sys.audit.events[w] == t[i].sys.audit.events[w]
  {
    RunIsSound(c, t, es, i);
    StepKeepsRecords(t[i], es[i], w);
  }

  lemma {:induction false} RunKeepsRecords(c: Config, t: seq<Full>, es: seq<Event>, i: nat, j: nat, w: nat)
    requires IsRun(c, t, es) && i <= j <= |es| && w < |t[i].sys.audit.events|
    ensures w < |t[j].sys.audit.events| && t[j].sys.audit.events[w] == t[i].sys.audit.events[w]
    decreases j
  {
    if i < j {
      RunKeepsRecords(c, t, es, i, j - 1, w);
      StepKeepsRecordsAt(c, t, es, j - 1, w);
    }
  }

  lemma StartsEmpty(c: Config, t: seq<Full>, es: seq<Event>)
    requires IsRun(c, t, es)
    ensures t[0].sys.audit.events == []
  {
  }

  lemma RecordHasItsStep(c: Config, t: seq<Full>, es: seq<Event>, i: nat, w: nat) returns (h: nat)
    requires IsRun(c, t, es) && i <= |es| && w < |t[i].sys.audit.events|
    ensures h < i && |t[h].sys.audit.events| == w && es[h].Http?
    ensures R.Causes(t[h].sys, es[h].e, t[i].sys.audit.events[w])
  {
    StartsEmpty(c, t, es);
    h := Turn(seq(|t|, j requires 0 <= j < |t| => w < |t[j].sys.audit.events|), i);
    StepWritesAt(c, t, es, h, t[i].sys.audit.events[w]);
    RunKeepsRecords(c, t, es, h + 1, i, w);
  }

  /** When a client has been sent the successful result of a tool call, its handler has returned a value
      that is not an error (`h`), and the collector's journal holds the `allowed` record of the call
      (`a`) and the outcome record that was submitted then (`o`). */
  lemma SuccessIsDurable(c: Config, t: seq<Full>, es: seq<Event>, i: nat, r: nat) returns (a: nat, o: nat, h: nat)
    requires IsRun(c, t, es) && i <= |es| && r < |t[i].sys.reqs|
    requires t[i].sys.reqs[r].call == Answered(ResultSent)
    ensures a < o && a in t[i].world.remote.journal && o in t[i].world.remote.journal
    ensures Wrote(t[i].sys.audit, a, r, Allowed) && Wrote(t[i].sys.audit, o, r, Outcome(false))
    ensures h < i && es[h] == Http(Acts(r, HandlerEnds(Value(false)))) && |t[h].sys.audit.events| == o
  {
    RunIsSound(c, t, es, i);
    var q := t[i].sys.reqs[r];
    assert ReqOk(t[i].sys.audit, r, q);
    a, o := q.allowed.value, q.outcome.value;
    D.DeliveredInJournal(ChainOf(t[i]), a);
    D.DeliveredInJournal(ChainOf(t[i]), o);
    h := RecordHasItsStep(c, t, es, i, o);
  }

  /** An error sent unchanged is backed by a record in the journal that says what became of the call
      or of the message. */
  lemma ErrorIsDurable(c: Config, t: seq<Full>, es: seq<Event>, i: nat, r: nat)
    requires IsRun(c, t, es) && i <= |es| && r < |t[i].sys.reqs|
    requires t[i].sys.reqs[r].call.Answered? && t[i].sys.reqs[r].call.reply.ErrorSent?
    ensures exists w: nat ::
              && w in t[i].world.remote.journal
              && (WroteOutcome(t[i].sys.audit, w, r) || WroteFailure(t[i].sys.audit, w, r)
                  || Wrote(t[i].sys.audit, w, r, Protocol))
  {
    RunIsSound(c, t, es, i);
    var q := t[i].sys.reqs[r];
    assert ReqOk(t[i].sys.audit, r, q);
    D.DeliveredInJournal(ChainOf(t[i]), q.call.reply.evidence);
  }

  /** A handler has been started only for calls whose `allowed` record is in the journal. */
  lemma StartedIsDurable(c: Config, t: seq<Full>, es: seq<Event>, i: nat, r: nat)
    requires IsRun(c, t, es) && i <= |es| && r < |t[i].sys.reqs| && t[i].sys.reqs[r].started
    ensures exists a: nat :: a in t[i].world.remote.journal && Wrote(t[i].sys.audit, a, r, Allowed)
  {
    RunIsSound(c, t, es, i);
    var q := t[i].sys.reqs[r];
    assert ReqOk(t[i].sys.audit, r, q);
    D.DeliveredInJournal(ChainOf(t[i]), q.allowed.value);
  }
}
