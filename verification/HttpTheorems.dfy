/** The guarantees of the HTTP runtime, each over every run and every interleaving. */
module HttpTheorems {
  import opened Wrappers
  import opened Runs
  import opened Dispatch
  import opened RequestProgram
  import opened HttpSystem
  import opened RequestInvariant
  import opened HttpInvariant
  import opened Sets
  import FrontDoor

  // ----- admission keeps the dispatcher from losing records -----

  predicate IsLoss(e: HttpSystem.Event) {
    e.SinkFails? || e.DeliveryTimesOut? || e == CloseEnds(false)
  }

  lemma MoveFailsNothing(s: Sys, r: nat, m: Move, last: bool)
    requires r < |s.reqs| && (last ==> s.door.requests > 0)
    ensures AfterAction(s, r, m, last).audit.failures == s.audit.failures
  {
  }

  lemma OnlyLossesFail(s: Sys, e: HttpSystem.Event)
    requires HttpSystem.Enabled(s, e) && !IsLoss(e)
    ensures HttpSystem.Next(s, e).audit.failures == s.audit.failures
  {
    if e.Acts? { MoveFailsNothing(s, e.r, ActMove(s, e.r, e.action), e.action.TerminalSettles?); }
  }

  lemma LossAt(c: Config, t: seq<Sys>, es: seq<HttpSystem.Event>, i: nat)
    requires HttpSystem.IsRun(c, t, es) && i < |es| && t[i].audit.Healthy() && !t[i + 1].audit.Healthy()
    ensures IsLoss(es[i])
  {
    RunKeepsInv(c, t, es, i + 1);
    if !IsLoss(es[i]) { OnlyLossesFail(t[i], es[i]); }
  }

  /** If the audit is unhealthy, the first loss was a sink call that failed or timed out (or the
      closing of the sink), never a record refused for want of a slot. */
  lemma FirstLossIsNotOverload(c: Config, t: seq<Sys>, es: seq<HttpSystem.Event>, i: nat) returns (k: nat)
    requires HttpSystem.IsRun(c, t, es) && i <= |es| && !t[i].audit.Healthy()
    ensures k < i && IsLoss(es[k]) && t[k].audit.Healthy() && !t[k + 1].audit.Healthy()
    ensures t[k].audit.dropped == 0
  {
    k := Turn(seq(|t|, j requires 0 <= j < |t| => !t[j].audit.Healthy()), i);
    LossAt(c, t, es, k);
  }

  /** While nothing has failed, every record is taken: a slot is free whenever one is needed. */
  lemma NoRefusalWithoutFailure(c: Config, t: seq<Sys>, es: seq<HttpSystem.Event>, i: nat)
    requires HttpSystem.IsRun(c, t, es) && i <= |es| && t[i].audit.failures == 0
    ensures t[i].audit.dropped == 0
    ensures forall w | 0 <= w < |t[i].audit.phases| :: t[i].audit.phases[w] != Refused
    ensures |t[i].audit.pending| <= c.maxPending
  {
    RunKeepsInv(c, t, es, i);
    var p := t[i].audit.phases;
    forall w | 0 <= w < |p| ensures p[w] != Refused {
      assert p[w] in multiset(p);
    }
  }

  /** At most three deliveries of a request are unsettled, and none once its place is released. */
  lemma ThreePerRequest(c: Config, t: seq<Sys>, es: seq<HttpSystem.Event>, i: nat, r: nat)
    requires HttpSystem.IsRun(c, t, es) && i <= |es| && r < |t[i].reqs|
    ensures |Live(t[i].audit, r)| <= 3
    ensures r !in t[i].open ==> Live(t[i].audit, r) == {}
    ensures 3 * |t[i].open| <= c.maxPending && |t[i].open| <= 2 * c.maxConcurrent
    ensures t[i].door.requests == |t[i].open|
  {
    RunKeepsInv(c, t, es, i);
    var q := t[i].reqs[r];
    assert ReqOk(t[i].audit, r, q);
    assert Live(t[i].audit, r) <= Slots(q);
    ThreeSlots(q);
    Subset(Live(t[i].audit, r), Slots(q));
  }

  /** The third slot is held only while a tool task runs: without a failure, the sink calls in flight
      are at most two for each open request and one for each running task. */
  lemma PendingIsBounded(c: Config, t: seq<Sys>, es: seq<HttpSystem.Event>, i: nat)
    requires HttpSystem.IsRun(c, t, es) && i <= |es| && t[i].audit.failures == 0
    ensures |t[i].audit.pending| <= 2 * |t[i].open| + |t[i].active| <= 2 * |t[i].open| + c.maxConcurrent
  {
    RunKeepsInv(c, t, es, i);
    var s := t[i];
    forall r | r in s.open ensures ShapeOk(s.reqs[r]) {
      assert ReqOk(s.audit, r, s.reqs[r]);
    }
    forall w | w in s.audit.pending ensures exists r :: r in s.open && w in Slots(s.reqs[r]) {
      PendingIsAwaited(s, w);
    }
    TwoEachAndTheTasks(s.reqs, s.audit.pending, s.open, s.active);
  }

  /** A verified request is admitted if and only if the records of the open requests, three each,
      leave room for three more and fewer than twice `maxConcurrent` are open; under a valid HTTP
      configuration that is always so for the first. */
  lemma AdmittedIffRoom(c: Config, t: seq<Sys>, es: seq<HttpSystem.Event>, i: nat)
    requires HttpSystem.IsRun(c, t, es) && i < |es| && es[i].Verifies? && es[i].ok && !es[i].destroyed
    requires t[i].audit.Healthy() && !t[i].door.closing
    ensures t[i + 1].open == t[i].open + {|t[i].reqs|} && |t[i + 1].reqs| == |t[i].reqs| + 1
            <==> 3 * (|t[i].open| + 1) <= c.maxPending && |t[i].open| < 2 * c.maxConcurrent
  {
    RunKeepsInv(c, t, es, i);
    assert t[i + 1] == HttpSystem.Next(t[i], es[i]);
  }

  // ----- the audit trail of a request -----

  predicate Owns(d: Ledger<Tag>, w: nat, r: nat) {
    w < |d.events| && w < |d.phases| && d.events[w].owner == r
  }

  lemma TrailPair(d: Ledger<Tag>, r: nat, q: Req, w: nat, x: nat)
    requires ReqOk(d, r, q) && Owns(d, w, r) && Owns(d, x, r)
    ensures d.events[w].kind.Received? ==> w <= x
    ensures d.events[w].kind.Response? && d.events[x].kind.Response? ==> w == x
    ensures d.events[w].kind.Terminal? ==> x <= w && (x < w ==> d.phases[x] != Racing)
  {
    assert EntryOk(q, w, d.events[w].kind) && EntryOk(q, x, d.events[x].kind);
  }

  /** The records of an admitted request: `received` comes first and only once, `response` at
      most once, and a terminal record is the last, hence the only one of its kind; when it is
      there, no other delivery of the request is unsettled. A released request has one. */
  lemma AuditTrail(c: Config, t: seq<Sys>, es: seq<HttpSystem.Event>, i: nat, r: nat)
    requires HttpSystem.IsRun(c, t, es) && i <= |es| && r < |t[i].reqs|
    ensures exists w: nat :: Wrote(t[i].audit, w, r, Received)
    ensures forall w: nat, x: nat | Owns(t[i].audit, w, r) && Owns(t[i].audit, x, r) ::
              && (t[i].audit.events[w].kind.Received? ==> w <= x)
              && (t[i].audit.events[w].kind.Response? && t[i].audit.events[x].kind.Response? ==> w == x)
              && (t[i].audit.events[w].kind.Terminal? ==> x <= w && (x < w ==> t[i].audit.phases[x] != Racing))
    ensures r !in t[i].open ==> exists w: nat :: Wrote(t[i].audit, w, r, Terminal) && t[i].audit.phases[w] != Racing
  {
    RunKeepsInv(c, t, es, i);
    var d, q := t[i].audit, t[i].reqs[r];
    assert ReqOk(d, r, q);
    assert Wrote(d, q.first, r, Received);
    forall w: nat, x: nat | Owns(d, w, r) && Owns(d, x, r)
      ensures d.events[w].kind.Received? ==> w <= x
      ensures d.events[w].kind.Response? && d.events[x].kind.Response? ==> w == x
      ensures d.events[w].kind.Terminal? ==> x <= w && (x < w ==> d.phases[x] != Racing)
    {
      TrailPair(d, r, q, w, x);
    }
    if r !in t[i].open {
      assert Wrote(d, q.term.w, r, Terminal) && d.phases[q.term.w] != Racing;
    }
  }

  lemma OnlyTheLastRoundEnds(q: Req, a: Action, phases: seq<Phase>, live: set<nat>, next: nat,
                             closing: bool, busy: bool)
    requires CanAct(q, a, phases) && Act(q, a, phases, live, next, closing, busy).wrote == Some(Terminal)
    ensures q.term.Draining? && live == {}
  {
  }

  /** The step from `s` to `s'` attempts a terminal record of `r`. */
  predicate AttemptsTerminal(s: Sys, s': Sys, r: nat) {
    var w := |s.audit.events|;
    |s'.audit.events| == w + 1 && s'.audit.events[w] == Tag(r, Terminal)
  }

  lemma MoveAttempts(s: Sys, x: nat, m: Move, last: bool, r: nat)
    requires x < |s.reqs| && (last ==> s.door.requests > 0)
    requires AttemptsTerminal(s, AfterAction(s, x, m, last), r)
    ensures x == r && m.wrote == Some(Terminal)
  {
  }

  lemma OnlyActsAttempt(s: Sys, e: HttpSystem.Event, r: nat)
    requires HttpSystem.Enabled(s, e) && AttemptsTerminal(s, HttpSystem.Next(s, e), r)
    ensures e.Acts? && e.r == r && ActMove(s, r, e.action).wrote == Some(Terminal)
  {
    if e.Acts? { MoveAttempts(s, e.r, ActMove(s, e.r, e.action), e.action.TerminalSettles?, r); }
  }

  lemma TerminalStartsSettled(s: Sys, e: HttpSystem.Event, r: nat)
    requires Inv(s) && HttpSystem.Enabled(s, e) && AttemptsTerminal(s, HttpSystem.Next(s, e), r)
    ensures r < |s.reqs| && Live(s.audit, r) == {} && s.reqs[r].closed && s.reqs[r].main.Ended?
    ensures !s.reqs[r].call.Invoking?
  {
    OnlyActsAttempt(s, e, r);
    assert ReqOk(s.audit, r, s.reqs[r]);
    OnlyTheLastRoundEnds(s.reqs[r], e.action, s.audit.phases, Live(s.audit, r), |s.audit.phases|, s.door.closing,
                         |s.active| >= s.config.maxConcurrent);
  }

  lemma TerminalStartsAt(c: Config, t: seq<Sys>, es: seq<HttpSystem.Event>, i: nat, r: nat)
    requires HttpSystem.IsRun(c, t, es) && i < |es| && AttemptsTerminal(t[i], t[i + 1], r)
    ensures r < |t[i].reqs| && Live(t[i].audit, r) == {} && t[i].reqs[r].closed && t[i].reqs[r].main.Ended?
    ensures !t[i].reqs[r].call.Invoking?
    ensures r < |t[i + 1].reqs| && Wrote(t[i + 1].audit, |t[i].audit.events|, r, Terminal)
  {
    RunKeepsInv(c, t, es, i);
    RunKeepsInv(c, t, es, i + 1);
    TerminalStartsSettled(t[i], es[i], r);
    ReleasesAt(c, t, es, i);
  }

  lemma TerminalStaysLast(c: Config, t: seq<Sys>, es: seq<HttpSystem.Event>, i: nat, j: nat, r: nat, last: nat)
    requires HttpSystem.IsRun(c, t, es) && i <= j <= |es| && r < |t[i].reqs| && Wrote(t[i].audit, last, r, Terminal)
    ensures Wrote(t[j].audit, last, r, Terminal)
    ensures forall w: nat | Owns(t[j].audit, w, r) :: w <= last
  {
    RecordsStayInRun(c, t, es, i, j, last);
    AuditTrail(c, t, es, j, r);
    assert Owns(t[j].audit, last, r);
  }

  /** What `settle` leaves behind is empty and stays so. A terminal record is attempted only when the
      response has closed, the adapter has ended, nobody awaits `run` and no scoped delivery is
      unsettled, those begun while draining included; and in every later state (`j`) it is still the
      last record of its request. */
  lemma TerminalWaitsForScope(c: Config, t: seq<Sys>, es: seq<HttpSystem.Event>, i: nat, j: nat, r: nat)
    requires HttpSystem.IsRun(c, t, es) && i < j <= |es| && AttemptsTerminal(t[i], t[i + 1], r)
    ensures r < |t[i].reqs| && Live(t[i].audit, r) == {} && t[i].reqs[r].closed && t[i].reqs[r].main.Ended?
    ensures !t[i].reqs[r].call.Invoking?
    ensures Wrote(t[j].audit, |t[i].audit.events|, r, Terminal)
    ensures forall w: nat | Owns(t[j].audit, w, r) :: w <= |t[i].audit.events|
  {
    TerminalStartsAt(c, t, es, i, r);
    TerminalStaysLast(c, t, es, i + 1, j, r, |t[i].audit.events|);
  }

  // ----- places are given back exactly once -----

  function ReleasedOf(s: Sys): set<nat> {
    set r | 0 <= r < |s.reqs| && r !in s.open
  }

  function Below(n: nat): (b: set<nat>)
    ensures forall r: nat :: r in b <==> r < n
    ensures |b| == n
  {
    if n == 0 then {} else Below(n - 1) + {n - 1}
  }

  lemma MoveReleases(s: Sys, x: nat, m: Move, last: bool)
    requires x < |s.reqs| && (last ==> s.door.requests > 0)
    ensures AfterAction(s, x, m, last).open <= s.open && |AfterAction(s, x, m, last).reqs| == |s.reqs|
  {
  }

  lemma StepReleases(s: Sys, e: HttpSystem.Event)
    requires HttpSystem.Enabled(s, e)
    ensures HttpSystem.Next(s, e).open <= s.open + {|s.reqs|}
    ensures |s.reqs| <= |HttpSystem.Next(s, e).reqs|
  {
    if e.Acts? { MoveReleases(s, e.r, ActMove(s, e.r, e.action), e.action.TerminalSettles?); }
  }

  lemma ReleasesAt(c: Config, t: seq<Sys>, es: seq<HttpSystem.Event>, i: nat)
    requires HttpSystem.IsRun(c, t, es) && i < |es|
    ensures t[i + 1].open <= t[i].open + {|t[i].reqs|} && |t[i].reqs| <= |t[i + 1].reqs|
  {
    StepReleases(t[i], es[i]);
  }

  lemma {:induction false} ReleasedStays(c: Config, t: seq<Sys>, es: seq<HttpSystem.Event>, i: nat, j: nat)
    requires HttpSystem.IsRun(c, t, es) && i <= j <= |es|
    ensures ReleasedOf(t[i]) <= ReleasedOf(t[j])
    decreases j
  {
    if i < j {
      ReleasedStays(c, t, es, i, j - 1);
      ReleasesAt(c, t, es, j - 1);
    }
  }

  /** Places in use are the admissions less the released requests, and a released request stays
      released: each place is given back exactly once. */
  lemma PlacesAreConserved(c: Config, t: seq<Sys>, es: seq<HttpSystem.Event>, i: nat, j: nat)
    requires HttpSystem.IsRun(c, t, es) && i <= j <= |es|
    ensures t[i].door.requests == t[i].door.admitted - |ReleasedOf(t[i])|
    ensures |t[i].reqs| == t[i].door.admitted
    ensures ReleasedOf(t[i]) <= ReleasedOf(t[j])
  {
    RunKeepsInv(c, t, es, i);
    assert Below(|t[i].reqs|) == t[i].open + ReleasedOf(t[i]);
    ReleasedStays(c, t, es, i, j);
  }

  // ----- what becomes of each arrival -----

  /** The fates of `a` that are decided stay, and no arrival is forgotten. */
  predicate Decided(a: seq<FrontDoor.Fate>, b: seq<FrontDoor.Fate>) {
    |a| <= |b| && forall n | 0 <= n < |a| && a[n] != FrontDoor.Verifying :: b[n] == a[n]
  }

  lemma MoveDecides(s: Sys, r: nat, m: Move, last: bool)
    requires r < |s.reqs| && (last ==> s.door.requests > 0)
    ensures AfterAction(s, r, m, last).door.fates == s.door.fates
  {
  }

  lemma StepDecides(s: Sys, e: HttpSystem.Event)
    requires Inv(s) && HttpSystem.Enabled(s, e)
    ensures Decided(s.door.fates, HttpSystem.Next(s, e).door.fates)
  {
    if e.Acts? {
      var r, a := e.r, e.action;
      MoveDecides(s, r, ActMove(s, r, a), a.TerminalSettles?);
    } else if e.Arrives? {
      var h := e.head;
      FrontDoor.ArriveKeeps(s.door, h, s.config.maxConcurrent);
    } else if e.Verifies? {
      var n, ok, destroyed := e.arrival, e.ok, e.destroyed;
      FrontDoor.VerifiedKeeps(s.door, n, VerdictNow(s, ok, destroyed), s.config.maxConcurrent);
    }
  }

  lemma DecidesAt(c: Config, t: seq<Sys>, es: seq<HttpSystem.Event>, i: nat)
    requires HttpSystem.IsRun(c, t, es) && i < |es|
    ensures Decided(t[i].door.fates, t[i + 1].door.fates)
  {
    RunKeepsInv(c, t, es, i);
    StepDecides(t[i], es[i]);
  }

  /** Each arrival ends in exactly one of answered, refused, departed or admitted, and never leaves
      it; `authenticating` is the number of those not decided yet, each counter the number of its
      refusals, saturated, and each admitted request is one arrival. */
  lemma {:induction false} ArrivalsAreConserved(c: Config, t: seq<Sys>, es: seq<HttpSystem.Event>, i: nat, j: nat)
    requires HttpSystem.IsRun(c, t, es) && i <= j <= |es|
    ensures Decided(t[i].door.fates, t[j].door.fates)
    ensures FrontDoor.Balanced(t[j].door, c.maxConcurrent) && t[j].door.admitted == |t[j].reqs|
    decreases j
  {
    RunKeepsInv(c, t, es, j);
    if i < j {
      ArrivalsAreConserved(c, t, es, i, j - 1);
      DecidesAt(c, t, es, j - 1);
    }
  }
}
