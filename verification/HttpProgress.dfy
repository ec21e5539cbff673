/** The runtime never depends on its sink or its handlers to come to an end: from every reachable state
    all places can be given back and the shutdown can be completed by timers, by the ends of the
    responses and by the runtime's own steps. */
module HttpProgress {
  import opened Wrappers
  import opened Dispatch
  import opened RequestProgram
  import opened HttpSystem
  import opened RequestInvariant
  import opened HttpInvariant
  import FrontDoor

  /** No sink call settles, no handler or schema ends, nothing arrives and no call is made. */
  predicate Own(e: HttpSystem.Event) {
    match e
    case Acts(_, a) =>
      a == ResponseCloses || a == ReceivedSettles(true) || a == Abort(Timeout) || a == RunRejects || a == AdapterEnds
      || a == DrainBegins || a == DrainRound || a == TerminalSettles
    case DeliveryTimesOut(_) => true
    case CloseBegins => true
    case ToolsDrain => true
    case TerminalsListed => true
    case TerminalsSettle => true
    case SinkCloses => true
    case CloseEnds(ok) => !ok
    case _ => false
  }

  // ----- one request -----

  /** The next step toward the end of a request whose deliveries have all settled. */
  function NextAction(q: Req): Action {
    if !q.closed then ResponseCloses
    else if q.main.Receiving? then ReceivedSettles(true)
    else if q.call.Invoking? && q.aborted.None? then Abort(Timeout)
    else if q.call.Invoking? then RunRejects
    else if q.main.Serving? then AdapterEnds
    else if q.term.Waiting? then DrainBegins
    else if q.term.Draining? then DrainRound
    else TerminalSettles
  }

  function Rank(q: Req): nat {
    (if q.closed then 0 else 1)
    + (match q.main case Receiving(_) => 2 case Serving => 1 case Ended => 0)
    + (if !q.call.Invoking? then 0 else if q.aborted.Some? then 1 else 2)
    + (match q.term case Waiting => 3 case Draining(_) => 2 case Closing(_) => 1 case Done(_) => 0)
  }

  predicate NoneRacing(phases: seq<Phase>) {
    forall w | 0 <= w < |phases| :: phases[w] != Racing
  }

  /** The records that a request waits for have been submitted. */
  predicate Submitted(q: Req, n: nat) {
    && (q.main.Receiving? ==> q.main.w < n)
    && (q.term.Draining? ==> forall w | w in q.term.snapshot :: w < n)
    && (q.term.Closing? ==> q.term.w < n)
  }

  lemma NextActionAdvances(q: Req, phases: seq<Phase>, next: nat, closing: bool, busy: bool)
    requires ShapeOk(q) && !q.term.Done? && NoneRacing(phases) && Submitted(q, |phases|)
    ensures CanAct(q, NextAction(q), phases)
    ensures Rank(Act(q, NextAction(q), phases, {}, next, closing, busy).q) < Rank(q)
  {
  }

  // ----- what else holds in every run -----

  predicate SnapshotOk(q: Req, n: nat) {
    q.term.Draining? ==> forall w | w in q.term.snapshot :: w < n
  }

  ghost predicate Listed(s: Sys) {
    && (forall r | 0 <= r < |s.reqs| :: SnapshotOk(s.reqs[r], |s.audit.phases|))
    && (s.shutdown.ClosingSink? || s.shutdown.Down? ==> s.audit.hookCalls == 1)
  }

  lemma ActLists(q: Req, a: Action, phases: seq<Phase>, live: set<nat>, next: nat, closing: bool, busy: bool)
    requires CanAct(q, a, phases) && SnapshotOk(q, |phases|) && forall w | w in live :: w < |phases|
    ensures SnapshotOk(Act(q, a, phases, live, next, closing, busy).q, |phases|)
  {
  }

  lemma MoveLists(s: Sys, r: nat, m: Move, last: bool)
    requires r < |s.reqs| && (last ==> s.door.requests > 0) && Listed(s) && SnapshotOk(m.q, |s.audit.phases|)
    ensures Listed(AfterAction(s, r, m, last))
  {
  }

  lemma AdmissionLists(s: Sys, n: nat)
    requires FrontDoor.InVerification(s.door, n) && Listed(s)
    ensures Listed(AfterAdmission(s, n))
  {
  }

  lemma StepLists(s: Sys, e: HttpSystem.Event)
    requires Inv(s) && HttpSystem.Enabled(s, e) && Listed(s)
    ensures Listed(HttpSystem.Next(s, e))
  {
    if e.Acts? {
      var r, a := e.r, e.action;
      ActLists(s.reqs[r], a, s.audit.phases, Live(s.audit, r), |s.audit.phases|, s.door.closing,
               |s.active| >= s.config.maxConcurrent);
      MoveLists(s, r, ActMove(s, r, a), a.TerminalSettles?);
    } else if e.Verifies? {
      var n := e.arrival;
      AdmissionLists(s, n);
    }
  }

  lemma StepListsAt(c: Config, t: seq<Sys>, es: seq<HttpSystem.Event>, i: nat)
    requires HttpSystem.IsRun(c, t, es) && 0 < i <= |es| && Listed(t[i - 1])
    ensures Listed(t[i])
  {
    RunKeepsInv(c, t, es, i - 1);
    StepLists(t[i - 1], es[i - 1]);
  }

  lemma BootLists(c: Config, s: Sys)
    requires s == Boot(c)
    ensures Listed(s)
  {
  }

  lemma {:induction false} RunLists(c: Config, t: seq<Sys>, es: seq<HttpSystem.Event>, i: nat)
    requires HttpSystem.IsRun(c, t, es) && i <= |es|
    ensures Listed(t[i])
    decreases i
  {
    if i == 0 {
      BootLists(c, t[0]);
    } else {
      RunLists(c, t, es, i - 1);
      StepListsAt(c, t, es, i);
    }
  }

  // ----- all requests together -----

  function Total(reqs: seq<Req>): nat {
    if reqs == [] then 0 else Total(reqs[..|reqs| - 1]) + Rank(reqs[|reqs| - 1])
  }

  lemma {:induction false} TotalOfChange(reqs: seq<Req>, r: nat, q: Req)
    requires r < |reqs|
    ensures Total(reqs[r := q]) + Rank(reqs[r]) == Total(reqs) + Rank(q)
  {
    var n := |reqs| - 1;
    if r == n {
      assert reqs[r := q][..n] == reqs[..n];
    } else {
      assert reqs[r := q][..n] == reqs[..n][r := q];
      TotalOfChange(reqs[..n], r, q);
    }
  }

  lemma MoveChangesOne(s: Sys, r: nat, m: Move, last: bool)
    requires r < |s.reqs| && (last ==> s.door.requests > 0)
    ensures AfterAction(s, r, m, last).reqs == s.reqs[r := m.q]
    ensures AfterAction(s, r, m, last).shutdown == s.shutdown
  {
  }

  lemma OpenIsSubmitted(s: Sys, r: nat)
    requires Inv(s) && Listed(s) && r in s.open
    ensures r < |s.reqs| && ShapeOk(s.reqs[r]) && !s.reqs[r].term.Done? && Submitted(s.reqs[r], |s.audit.phases|)
    ensures s.door.requests > 0
  {
    assert ReqOk(s.audit, r, s.reqs[r]);
    assert SnapshotOk(s.reqs[r], |s.audit.phases|);
  }

  lemma NothingLive(d: Ledger<Tag>, r: nat)
    requires NoneRacing(d.phases)
    ensures Live(d, r) == {}
  {
  }

  /** With every delivery settled, an open request gets nearer to its end. */
  lemma RequestAdvances(s: Sys, r: nat)
    requires Inv(s) && Listed(s) && NoneRacing(s.audit.phases) && r in s.open
    ensures r < |s.reqs|
    ensures var e := Acts(r, NextAction(s.reqs[r]));
            && HttpSystem.Enabled(s, e) && Own(e)
            && Total(HttpSystem.Next(s, e).reqs) < Total(s.reqs)
            && HttpSystem.Next(s, e).shutdown == s.shutdown
  {
    OpenIsSubmitted(s, r);
    var q := s.reqs[r];
    var a := NextAction(q);
    NothingLive(s.audit, r);
    NextActionAdvances(q, s.audit.phases, |s.audit.phases|, s.door.closing, |s.active| >= s.config.maxConcurrent);
    MoveChangesOne(s, r, ActMove(s, r, a), a.TerminalSettles?);
    TotalOfChange(s.reqs, r, ActMove(s, r, a).q);
  }

  lemma FewerRacing(phases: seq<Phase>, w: nat)
    requires w < |phases| && phases[w] == Racing
    ensures Count(phases[w := Failed], Racing) < Count(phases, Racing)
  {
  }

  /** A racing delivery times out. */
  lemma TimeoutAdvances(s: Sys, w: nat)
    requires w < |s.audit.phases| && s.audit.phases[w] == Racing
    ensures var e := DeliveryTimesOut(w);
            && HttpSystem.Enabled(s, e) && Own(e)
            && HttpSystem.Next(s, e).reqs == s.reqs && HttpSystem.Next(s, e).shutdown == s.shutdown
            && Count(HttpSystem.Next(s, e).audit.phases, Racing) < Count(s.audit.phases, Racing)
  {
    FewerRacing(s.audit.phases, w);
  }

  // ----- continuing a run -----

  ghost predicate Continues(c: Config, t: seq<Sys>, es: seq<HttpSystem.Event>,
                            t': seq<Sys>, es': seq<HttpSystem.Event>) {
    && HttpSystem.IsRun(c, t', es') && t <= t' && es <= es'
    && forall k | |es| <= k < |es'| :: Own(es'[k])
  }

  lemma OneMore(c: Config, t: seq<Sys>, es: seq<HttpSystem.Event>, e: HttpSystem.Event, s: Sys)
    requires HttpSystem.IsRun(c, t, es) && HttpSystem.Enabled(t[|es|], e) && Own(e)
    requires s == HttpSystem.Next(t[|es|], e)
    ensures Continues(c, t, es, t + [s], es + [e])
  {
    var u, more := t + [s], es + [e];
    forall i {:trigger more[i]} | 0 <= i < |more|
      ensures HttpSystem.Enabled(u[i], more[i]) && u[i + 1] == HttpSystem.Next(u[i], more[i])
    {
      if i < |es| { assert more[i] == es[i]; }
    }
  }

  lemma ContinuesTransitively(c: Config, t: seq<Sys>, es: seq<HttpSystem.Event>, t1: seq<Sys>,
                              es1: seq<HttpSystem.Event>, t2: seq<Sys>, es2: seq<HttpSystem.Event>)
    requires Continues(c, t, es, t1, es1) && Continues(c, t1, es1, t2, es2)
    ensures Continues(c, t, es, t2, es2)
  {
    forall k | |es| <= k < |es2|
      ensures Own(es2[k])
    {
      if k < |es1| { assert es2[k] == es1[k]; }
    }
  }

  /** One step of the way to a state without open requests. */
  lemma Step(c: Config, t: seq<Sys>, es: seq<HttpSystem.Event>) returns (e: HttpSystem.Event, s: Sys)
    requires HttpSystem.IsRun(c, t, es) && t[|es|].open != {}
    ensures Continues(c, t, es, t + [s], es + [e]) && s.shutdown == t[|es|].shutdown
    ensures Total(s.reqs) < Total(t[|es|].reqs)
            || (s.reqs == t[|es|].reqs && Count(s.audit.phases, Racing) < Count(t[|es|].audit.phases, Racing))
  {
    var now := t[|es|];
    RunKeepsInv(c, t, es, |es|);
    RunLists(c, t, es, |es|);
    if w :| 0 <= w < |now.audit.phases| && now.audit.phases[w] == Racing {
      TimeoutAdvances(now, w);
      e := DeliveryTimesOut(w);
    } else {
      var r :| r in now.open;
      RequestAdvances(now, r);
      e := Acts(r, NextAction(now.reqs[r]));
    }
    s := HttpSystem.Next(now, e);
    OneMore(c, t, es, e, s);
  }

  /** Every run can be continued so that every admitted request gives its place back. Nothing is needed
      for it from the sink, the handlers and the clients but that responses end. */
  lemma {:induction false} AllCanBeReleased(c: Config, t: seq<Sys>, es: seq<HttpSystem.Event>)
    returns (t': seq<Sys>, es': seq<HttpSystem.Event>)
    requires HttpSystem.IsRun(c, t, es)
    ensures Continues(c, t, es, t', es')
    ensures t'[|es'|].open == {} && t'[|es'|].door.requests == 0 && t'[|es'|].shutdown == t[|es|].shutdown
    decreases Total(t[|es|].reqs), Count(t[|es|].audit.phases, Racing)
  {
    if t[|es|].open == {} {
      RunKeepsInv(c, t, es, |es|);
      t', es' := t, es;
    } else {
      var e, s := Step(c, t, es);
      t', es' := AllCanBeReleased(c, t + [s], es + [e]);
      ContinuesTransitively(c, t, es, t + [s], es + [e], t', es');
    }
  }

  // ----- shutdown -----

  function Left(d: Shutdown): nat {
    match d
    case Up => 6
    case DrainingTools => 5
    case Stopping(_) => 4
    case AwaitingTerminals(_, _) => 3
    case ClosingAudit(_) => 2
    case ClosingSink => 1
    case Down => 0
  }

  function NextOfShutdown(d: Shutdown): HttpSystem.Event {
    match d
    case Up => CloseBegins
    case DrainingTools => ToolsDrain
    case Stopping(_) => TerminalsListed
    case AwaitingTerminals(_, _) => TerminalsSettle
    case ClosingAudit(_) => SinkCloses
    case _ => CloseEnds(false)
  }

  lemma ShutdownAdvances(s: Sys)
    requires s.open == {} && !s.shutdown.Down?
    ensures var e := NextOfShutdown(s.shutdown);
            && HttpSystem.Enabled(s, e) && Own(e) && HttpSystem.Next(s, e).open == {}
            && Left(HttpSystem.Next(s, e).shutdown) < Left(s.shutdown)
  {
  }

  lemma {:induction false} Finishes(c: Config, t: seq<Sys>, es: seq<HttpSystem.Event>)
    returns (t': seq<Sys>, es': seq<HttpSystem.Event>)
    requires HttpSystem.IsRun(c, t, es) && t[|es|].open == {}
    ensures Continues(c, t, es, t', es') && t'[|es'|].shutdown.Down? && t'[|es'|].open == {}
    decreases Left(t[|es|].shutdown)
  {
    var now := t[|es|];
    if now.shutdown.Down? {
      t', es' := t, es;
    } else {
      ShutdownAdvances(now);
      var e := NextOfShutdown(now.shutdown);
      var s := HttpSystem.Next(now, e);
      OneMore(c, t, es, e, s);
      t', es' := Finishes(c, t + [s], es + [e]);
      ContinuesTransitively(c, t, es, t + [s], es + [e], t', es');
    }
  }

  /** Every run can be continued to the end of the shutdown, even if no sink call and no handler ever
      settles and the close hook fails: then no place is in use, every delivery has settled, and the
      hook has been called once. */
  lemma ShutdownCanComplete(c: Config, t: seq<Sys>, es: seq<HttpSystem.Event>)
    returns (t': seq<Sys>, es': seq<HttpSystem.Event>)
    requires HttpSystem.IsRun(c, t, es)
    ensures Continues(c, t, es, t', es')
    ensures var s := t'[|es'|];
            && s.shutdown.Down? && s.door.closing && s.door.requests == 0 && s.audit.hookCalls == 1
            && (forall r | 0 <= r < |s.reqs| :: s.reqs[r].term.Done?)
            && NoneRacing(s.audit.phases)
  {
    var t1, es1 := AllCanBeReleased(c, t, es);
    t', es' := Finishes(c, t1, es1);
    ContinuesTransitively(c, t, es, t1, es1, t', es');
    RunKeepsInv(c, t', es', |es'|);
    RunLists(c, t', es', |es'|);
    DoneIsSettled(t'[|es'|]);
  }

  lemma DoneIsSettled(s: Sys)
    requires Inv(s) && s.open == {}
    ensures NoneRacing(s.audit.phases) && forall r | 0 <= r < |s.reqs| :: s.reqs[r].term.Done?
  {
    forall w | 0 <= w < |s.audit.phases|
      ensures s.audit.phases[w] != Racing
    {
      var r := s.audit.events[w].owner;
      assert ReqOk(s.audit, r, s.reqs[r]);
    }
  }
}
