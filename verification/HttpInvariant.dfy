/** The invariant of the composed runtime and the proof that every event keeps it. */
module HttpInvariant {
  import opened Wrappers
  import opened Dispatch
  import opened RequestProgram
  import opened HttpSystem
  import opened RequestInvariant
  import opened Sets
  import FrontDoor

  // ----- the whole runtime -----

  ghost predicate ReqsOk(d: Ledger<Tag>, reqs: seq<Req>) {
    && |d.events| == |d.phases|
    && (forall w | 0 <= w < |d.events| :: d.events[w].owner < |reqs|)
    && (forall r | 0 <= r < |reqs| :: ReqOk(d, r, reqs[r]))
  }

  ghost predicate ActiveOk(s: Sys) {
    && (forall r | r in s.active :: r < |s.reqs|)
    && (forall r | 0 <= r < |s.reqs| :: r in s.active <==> Running(s.reqs[r].task))
    && |s.active| <= s.config.maxConcurrent
  }

  ghost predicate AreOpen(open: set<nat>, reqs: seq<Req>) {
    && (forall r | r in open :: r < |reqs|)
    && (forall r | 0 <= r < |reqs| :: r in open <==> !reqs[r].term.Done?)
  }

  ghost predicate OpenOk(s: Sys) {
    && AreOpen(s.open, s.reqs)
    && s.door.requests == |s.open|
    && s.door.requests <= RequestCapacity(s.config)
    && s.door.admitted == |s.reqs|
  }

  ghost predicate SetsOk(s: Sys) {
    ActiveOk(s) && OpenOk(s)
  }

  ghost predicate ShutdownOk(s: Sys) {
    && (s.door.closing <==> !s.shutdown.Up?)
    && (s.door.closing ==> forall r | r in s.active :: r < |s.reqs| && s.reqs[r].aborted.Some?)
    && (s.shutdown.AwaitingTerminals? ==> s.open <= s.shutdown.snapshot)
    && (s.shutdown.ClosingAudit? || s.shutdown.ClosingSink? || s.shutdown.Down? ==> s.open == {})
    && (s.shutdown.Stopping? && s.shutdown.remaining == 0 ==> s.active == {})
    && (s.shutdown.AwaitingTerminals? && s.shutdown.remaining == 0 ==> s.active == {})
    && (s.disposed ==> s.active == {} && s.door.closing)
    && (s.audit.hookCalls > 0 ==> s.shutdown.ClosingSink? || s.shutdown.Down?)
    && (s.audit.closeFailures > 0 ==> s.shutdown.Down?)
  }

  /** Nothing is ever dropped before a sink call has failed or timed out. */
  ghost predicate AuditOk(d: Ledger<Tag>, maxPending: nat) {
    && d.Valid()
    && d.capacity == maxPending
    && (d.failures == 0 ==> d.dropped == 0)
  }

  ghost predicate Inv(s: Sys) {
    && AuditOk(s.audit, s.config.maxPending)
    && FrontDoor.Balanced(s.door, s.config.maxConcurrent)
    && ReqsOk(s.audit, s.reqs)
    && SetsOk(s)
    && ShutdownOk(s)
  }

  // ----- a record fits while nothing has been lost -----

  lemma ThreeSlots(q: Req)
    requires ShapeOk(q)
    ensures |Slots(q)| <= 3
  {
    var a := if q.main.Receiving? then {q.main.w} else if q.prepared.Preparing? then {q.prepared.w} else {};
    var b := if q.task.Permitting? || q.task.Concluding? then {q.task.w} else {};
    var c := if q.call.Reporting? || q.call.Observing? then {q.call.w} else {};
    Unite(a, b);
    Unite(a + b, c);
  }

  /** Slots of several requests together: at most three for each. */
  lemma {:induction false} ThreeEach(reqs: seq<Req>, p: set<nat>, o: set<nat>)
    requires forall r | r in o :: r < |reqs| && ShapeOk(reqs[r])
    requires forall w | w in p :: exists r :: r in o && w in Slots(reqs[r])
    ensures |p| <= 3 * |o|
    decreases |o|
  {
    if o == {} {
      assert p == {};
    } else {
      var r :| r in o;
      var rest := p - Slots(reqs[r]);
      forall w | w in rest ensures exists r' :: r' in o - {r} && w in Slots(reqs[r']) {
        var r' :| r' in o && w in Slots(reqs[r']);
        assert r' in o - {r};
      }
      ThreeEach(reqs, rest, o - {r});
      ThreeSlots(reqs[r]);
      Unite(rest, Slots(reqs[r]));
      Subset(p, rest + Slots(reqs[r]));
    }
  }

  /** The third place of a request is that of its tool task. */
  lemma TwoAndTheTask(q: Req)
    requires ShapeOk(q)
    ensures |Slots(q)| <= if Running(q.task) then 3 else 2
  {
    var a := if q.main.Receiving? then {q.main.w} else if q.prepared.Preparing? then {q.prepared.w} else {};
    var b := if q.call.Reporting? || q.call.Observing? then {q.call.w} else {};
    if Running(q.task) {
      ThreeSlots(q);
    } else {
      Unite(a, b);
      assert Slots(q) <= a + b || |Slots(q)| <= 1;
      if Slots(q) <= a + b { Subset(Slots(q), a + b); }
    }
  }

  /** Slots of several requests together: two for each, and one for each running tool task. */
  lemma {:induction false} TwoEachAndTheTasks(reqs: seq<Req>, p: set<nat>, o: set<nat>, active: set<nat>)
    requires forall r | r in o :: r < |reqs| && ShapeOk(reqs[r]) && (Running(reqs[r].task) ==> r in active)
    requires forall w | w in p :: exists r :: r in o && w in Slots(reqs[r])
    ensures |p| <= 2 * |o| + |active|
    decreases |o|
  {
    if o == {} {
      assert p == {};
    } else {
      var r :| r in o;
      var rest := p - Slots(reqs[r]);
      forall w | w in rest ensures exists r' :: r' in o - {r} && w in Slots(reqs[r']) {
        var r' :| r' in o && w in Slots(reqs[r']);
        assert r' in o - {r};
      }
      TwoEachAndTheTasks(reqs, rest, o - {r}, active - {r});
      TwoAndTheTask(reqs[r]);
      AddMember(active, r);
      Unite(rest, Slots(reqs[r]));
      Subset(p, rest + Slots(reqs[r]));
    }
  }

  // ----- the events of the runtime -----

  lemma ReqsAfterMove(s: Sys, r: nat, a: Action)
    requires Inv(s) && HttpSystem.Enabled(s, Acts(r, a))
    ensures var s' := AfterMove(s, r, ActMove(s, r, a)); ReqsOk(s'.audit, s'.reqs)
  {
    var m := ActMove(s, r, a);
    var s' := AfterMove(s, r, m);
    if m.wrote.Some? { SubmitAppends(s.audit, Tag(r, m.wrote.value)); }
    forall x | 0 <= x < |s'.reqs| ensures ReqOk(s'.audit, x, s'.reqs[x]) {
      if x == r {
        ActKeeps(s.audit, s'.audit, r, s.reqs[r], a, s.door.closing, |s.active| >= s.config.maxConcurrent);
      } else if m.wrote.Some? {
        OtherRecordKeeps(s.audit, s'.audit, Tag(r, m.wrote.value), x, s.reqs[x]);
      }
    }
  }

  lemma ReqsAfterAdmission(s: Sys, n: nat)
    requires Inv(s) && FrontDoor.InVerification(s.door, n)
    ensures ReqsOk(AfterAdmission(s, n).audit, AfterAdmission(s, n).reqs)
  {
    var t := Tag(|s.reqs|, Received);
    var s' := AfterAdmission(s, n);
    SubmitAppends(s.audit, t);
    forall x | 0 <= x < |s'.reqs| ensures ReqOk(s'.audit, x, s'.reqs[x]) {
      if x == |s.reqs| {
        AdmittedOk(s.audit, s'.audit, x);
      } else {
        OtherRecordKeeps(s.audit, s'.audit, t, x, s.reqs[x]);
      }
    }
  }

  lemma ReqsAfterSettling(s: Sys, d': Ledger<Tag>)
    requires Inv(s) && Settling(s.audit, d')
    ensures ReqsOk(d', s.reqs)
  {
    forall x | 0 <= x < |s.reqs| ensures ReqOk(d', x, s.reqs[x]) {
      SettlingKeeps(s.audit, d', x, s.reqs[x]);
    }
  }

  lemma ReqsAfterAbort(s: Sys)
    requires Inv(s)
    ensures ReqsOk(s.audit, AbortAll(s.reqs, s.active))
  {
    var reqs := AbortAll(s.reqs, s.active);
    forall x | 0 <= x < |reqs| ensures ReqOk(s.audit, x, reqs[x]) {
      if x in s.active && s.reqs[x].aborted.None? { AbortedKeeps(s.audit, x, s.reqs[x]); }
    }
  }

  // ----- no record is refused before a loss -----

  lemma FailedIsCounted(p: seq<Phase>, w: nat)
    requires w < |p| && p[w] == Failed
    ensures multiset(p)[Failed] > 0
  {
    assert p[w] in multiset(p);
  }

  /** Without a failure every held slot belongs to a delivery that an open request waits for. */
  lemma PendingIsAwaited(s: Sys, w: nat)
    requires Inv(s) && s.audit.failures == 0 && w in s.audit.pending
    ensures w < |s.audit.phases| && s.audit.phases[w] == Racing
    ensures var r := s.audit.events[w].owner; r in s.open && w in Slots(s.reqs[r])
  {
    if s.audit.phases[w] == Failed { FailedIsCounted(s.audit.phases, w); }
    var r := s.audit.events[w].owner;
    assert ReqOk(s.audit, r, s.reqs[r]);
  }

  lemma WriteTakesSlot(q: Req, a: Action, phases: seq<Phase>, live: set<nat>, next: nat, closing: bool, busy: bool)
    requires ShapeOk(q) && CanAct(q, a, phases)
    ensures var m := Act(q, a, phases, live, next, closing, busy);
            m.wrote.Some? ==> next in Slots(m.q)
  {
  }

  /** A set of deliveries that fits into the slots of the open requests fits the dispatcher. */
  lemma SlotsFit(c: Config, reqs: seq<Req>, p: set<nat>, o: set<nat>)
    requires forall r | r in o :: r < |reqs| && ShapeOk(reqs[r])
    requires forall w | w in p :: exists r :: r in o && w in Slots(reqs[r])
    requires |o| <= RequestCapacity(c)
    ensures |p| <= c.maxPending
  {
    ThreeEach(reqs, p, o);
  }

  /** What the other requests and the sets of the runtime need to know about a step of `r`. */
  ghost predicate MoveFacts(s: Sys, r: nat, m: Move, last: bool) {
    && MoveTurns(s, r, m, last)
    && (m.wrote.Some? ==> |s.audit.phases| in Slots(m.q))
    && ReqsOk(AfterMove(s, r, m).audit, AfterMove(s, r, m).reqs)
  }

  predicate MoveTurns(s: Sys, r: nat, m: Move, last: bool) {
    && r < |s.reqs|
    && (Running(m.q.task) && !Running(s.reqs[r].task) ==> |s.active| < s.config.maxConcurrent && !s.door.closing)
    && (s.reqs[r].aborted.Some? ==> m.q.aborted.Some?)
    && (last ==> !s.reqs[r].term.Done? && m.wrote.None?)
    && (m.q.term.Done? <==> s.reqs[r].term.Done? || last)
  }

  lemma ActTurns(q: Req, a: Action, phases: seq<Phase>, live: set<nat>, next: nat, closing: bool, busy: bool)
    requires ShapeOk(q) && CanAct(q, a, phases)
    ensures var m := Act(q, a, phases, live, next, closing, busy);
            && (Running(m.q.task) && !Running(q.task) ==> !busy && !closing)
            && (q.aborted.Some? ==> m.q.aborted.Some?)
  {
  }

  lemma ActEnds(q: Req, a: Action, phases: seq<Phase>, live: set<nat>, next: nat, closing: bool, busy: bool)
    requires ShapeOk(q) && CanAct(q, a, phases)
    ensures var m := Act(q, a, phases, live, next, closing, busy);
            && (a.TerminalSettles? ==> !q.term.Done? && m.wrote.None?)
            && (m.q.term.Done? <==> q.term.Done? || a.TerminalSettles?)
  {
  }

  lemma ActionFacts(s: Sys, r: nat, a: Action)
    requires Inv(s) && HttpSystem.Enabled(s, Acts(r, a))
    ensures MoveFacts(s, r, ActMove(s, r, a), a.TerminalSettles?)
  {
    var busy := |s.active| >= s.config.maxConcurrent;
    assert ReqOk(s.audit, r, s.reqs[r]);
    ActTurns(s.reqs[r], a, s.audit.phases, Live(s.audit, r), |s.audit.phases|, s.door.closing, busy);
    ActEnds(s.reqs[r], a, s.audit.phases, Live(s.audit, r), |s.audit.phases|, s.door.closing, busy);
    WriteTakesSlot(s.reqs[r], a, s.audit.phases, Live(s.audit, r), |s.audit.phases|, s.door.closing, busy);
    ReqsAfterMove(s, r, a);
  }

  lemma OwnDeliveryStays(s: Sys, r: nat, m: Move, w: nat)
    requires |s.audit.events| == |s.audit.phases| && MoveFacts(s, r, m, false) && m.wrote.Some?
    requires w < |s.audit.phases| && s.audit.phases[w] == Racing && s.audit.events[w].owner == r
    ensures w in Slots(m.q)
  {
    SubmitAppends(s.audit, Tag(r, m.wrote.value));
    assert LogOk(AfterMove(s, r, m).audit, r, AfterMove(s, r, m).reqs[r]);
  }

  /** After a step that submits a record, the earlier deliveries and the new one are all in
      slots of open requests. */
  lemma MoveFillsSlots(s: Sys, r: nat, m: Move, w: nat)
    requires Inv(s) && MoveFacts(s, r, m, false) && m.wrote.Some? && s.audit.failures == 0
    requires w in s.audit.pending || w == |s.audit.phases|
    ensures exists x :: x in s.open && w in Slots(s.reqs[r := m.q][x])
  {
    var reqs' := s.reqs[r := m.q];
    if w == |s.audit.phases| {
      assert w in Slots(reqs'[r]);
    } else {
      PendingIsAwaited(s, w);
      var x := s.audit.events[w].owner;
      if x == r { OwnDeliveryStays(s, r, m, w); }
      assert w in Slots(reqs'[x]);
    }
  }

  lemma MoveIsNotRefused(s: Sys, r: nat, m: Move)
    requires Inv(s) && MoveFacts(s, r, m, false) && m.wrote.Some? && s.audit.failures == 0
    ensures |s.audit.pending| < s.audit.capacity
  {
    var reqs' := s.reqs[r := m.q];
    var p := s.audit.pending + {|s.audit.phases|};
    forall w | w in p ensures exists x :: x in s.open && w in Slots(reqs'[x]) {
      MoveFillsSlots(s, r, m, w);
    }
    forall x | x in s.open ensures x < |reqs'| && ShapeOk(reqs'[x]) {
      assert ReqOk(s.audit, x, s.reqs[x]);
      assert ReqOk(AfterMove(s, r, m).audit, r, m.q);
    }
    SlotsFit(s.config, reqs', p, s.open);
  }

  lemma AdmissionFillsSlots(s: Sys, n: nat, w: nat)
    requires Inv(s) && s.audit.failures == 0 && FrontDoor.InVerification(s.door, n)
    requires w in s.audit.pending || w == |s.audit.phases|
    ensures exists x :: x in AfterAdmission(s, n).open && w in Slots(AfterAdmission(s, n).reqs[x])
  {
    var s' := AfterAdmission(s, n);
    if w == |s.audit.phases| {
      assert |s.reqs| in s'.open && w in Slots(s'.reqs[|s.reqs|]);
    } else {
      PendingIsAwaited(s, w);
      var x := s.audit.events[w].owner;
      assert x in s'.open && w in Slots(s'.reqs[x]);
    }
  }

  lemma AdmissionIsNotRefused(s: Sys, n: nat)
    requires Inv(s) && s.audit.failures == 0 && s.door.requests < RequestCapacity(s.config)
    requires FrontDoor.InVerification(s.door, n)
    ensures |s.audit.pending| < s.audit.capacity
  {
    var s' := AfterAdmission(s, n);
    var p := s.audit.pending + {|s.audit.phases|};
    AdmissionKeepsOpen(s, n);
    forall x | x in s'.open ensures x < |s'.reqs| && ShapeOk(s'.reqs[x]) {
      if x < |s.reqs| { assert ReqOk(s.audit, x, s.reqs[x]); }
    }
    forall w | w in p ensures exists x :: x in s'.open && w in Slots(s'.reqs[x]) {
      AdmissionFillsSlots(s, n, w);
    }
    SlotsFit(s.config, s'.reqs, p, s'.open);
  }

  // ----- every event keeps the invariant -----

  lemma AddMember(a: set<nat>, r: nat)
    ensures |a + {r}| == if r in a then |a| else |a| + 1
    ensures |a - {r}| == if r in a then |a| - 1 else |a|
  {
    if r in a {
      assert a + {r} == a;
    } else {
      assert a - {r} == a;
    }
  }

  lemma MoveKeepsSets(s: Sys, r: nat, m: Move, last: bool)
    requires SetsOk(s) && MoveTurns(s, r, m, last)
    ensures last ==> s.door.requests > 0
    ensures SetsOk(AfterAction(s, r, m, last))
  {
    AddMember(s.active, r);
    AddMember(s.open, r);
  }

  lemma MoveKeepsShutdown(s: Sys, r: nat, m: Move, last: bool)
    requires SetsOk(s) && ShutdownOk(s) && MoveTurns(s, r, m, last) && (last ==> s.door.requests > 0)
    ensures ShutdownOk(AfterAction(s, r, m, last))
  {
  }

  lemma MoveKeepsAudit(s: Sys, r: nat, m: Move, last: bool)
    requires Inv(s) && MoveFacts(s, r, m, last)
    ensures AuditOk(AfterMove(s, r, m).audit, s.config.maxPending)
  {
    if m.wrote.Some? {
      SubmitKeeps(s.audit, Tag(r, m.wrote.value));
      if s.audit.failures == 0 { MoveIsNotRefused(s, r, m); }
    }
  }

  lemma MoveKeeps(s: Sys, r: nat, m: Move, last: bool)
    requires Inv(s) && MoveFacts(s, r, m, last) && (last ==> s.door.requests > 0)
    ensures Inv(AfterAction(s, r, m, last))
  {
    var s' := AfterAction(s, r, m, last);
    MoveKeepsSets(s, r, m, last);
    MoveKeepsShutdown(s, r, m, last);
    MoveKeepsAudit(s, r, m, last);
    assert s'.audit == AfterMove(s, r, m).audit && s'.reqs == AfterMove(s, r, m).reqs;
    assert FrontDoor.Balanced(s'.door, s.config.maxConcurrent);
  }

  lemma ActionKeeps(s: Sys, r: nat, a: Action)
    requires Inv(s) && HttpSystem.Enabled(s, Acts(r, a))
    ensures Inv(HttpSystem.Next(s, Acts(r, a)))
  {
    ActionFacts(s, r, a);
    MoveKeeps(s, r, ActMove(s, r, a), a.TerminalSettles?);
  }

  lemma ArrivalKeeps(s: Sys, h: FrontDoor.Head)
    requires Inv(s)
    ensures Inv(HttpSystem.Next(s, Arrives(h)))
  {
    FrontDoor.ArriveKeeps(s.door, h, s.config.maxConcurrent);
  }

  lemma AdmissionKeepsAudit(s: Sys, n: nat)
    requires Inv(s) && s.door.requests < RequestCapacity(s.config) && FrontDoor.InVerification(s.door, n)
    ensures AuditOk(AfterAdmission(s, n).audit, s.config.maxPending)
  {
    SubmitKeeps(s.audit, Tag(|s.reqs|, Received));
    if s.audit.failures == 0 { AdmissionIsNotRefused(s, n); }
  }

  lemma AdmissionKeepsActive(s: Sys, n: nat)
    requires ActiveOk(s) && FrontDoor.InVerification(s.door, n)
    ensures ActiveOk(AfterAdmission(s, n))
  {
  }

  lemma OneMoreIsOpen(open: set<nat>, reqs: seq<Req>, q: Req)
    requires AreOpen(open, reqs) && !q.term.Done?
    ensures AreOpen(open + {|reqs|}, reqs + [q])
  {
  }

  lemma AdmissionKeepsOpen(s: Sys, n: nat)
    requires OpenOk(s) && s.door.requests < RequestCapacity(s.config) && FrontDoor.InVerification(s.door, n)
    ensures OpenOk(AfterAdmission(s, n))
  {
    AddMember(s.open, |s.reqs|);
    OneMoreIsOpen(s.open, s.reqs, Admitted(|s.audit.phases|));
  }

  lemma AdmissionKeepsShutdown(s: Sys, n: nat)
    requires ShutdownOk(s) && FrontDoor.InVerification(s.door, n) && !s.door.closing
    ensures ShutdownOk(AfterAdmission(s, n))
  {
  }

  lemma VerificationKeeps(s: Sys, n: nat, ok: bool, destroyed: bool)
    requires Inv(s) && FrontDoor.InVerification(s.door, n)
    ensures Inv(HttpSystem.Next(s, Verifies(n, ok, destroyed)))
  {
    var v := VerdictNow(s, ok, destroyed);
    FrontDoor.VerifiedKeeps(s.door, n, v, s.config.maxConcurrent);
    if v == FrontDoor.Admit {
      ReqsAfterAdmission(s, n);
      AdmissionKeepsAudit(s, n);
      AdmissionKeepsActive(s, n);
      AdmissionKeepsOpen(s, n);
      AdmissionKeepsShutdown(s, n);
    }
  }

  lemma AuditChangeKeeps(s: Sys, d': Ledger<Tag>, s': Sys)
    requires Inv(s) && Settling(s.audit, d') && AuditOk(d', s.config.maxPending)
    requires d'.hookCalls == s.audit.hookCalls && d'.closeFailures == s.audit.closeFailures
    requires s' == s.(audit := d')
    ensures Inv(s')
  {
    ReqsAfterSettling(s, d');
  }

  lemma AcceptKeeps(s: Sys, w: nat)
    requires Inv(s) && w in s.audit.pending && w < |s.audit.phases|
    ensures Inv(HttpSystem.Next(s, SinkAccepts(w)))
  {
    ResolveKeeps(s.audit, w);
    AuditChangeKeeps(s, Resolve(s.audit, w), HttpSystem.Next(s, SinkAccepts(w)));
  }

  lemma FailKeeps(s: Sys, w: nat)
    requires Inv(s) && w in s.audit.pending && w < |s.audit.phases|
    ensures Inv(HttpSystem.Next(s, SinkFails(w)))
  {
    RejectKeeps(s.audit, w);
    AuditChangeKeeps(s, Reject(s.audit, w), HttpSystem.Next(s, SinkFails(w)));
  }

  lemma TimeoutKeeps(s: Sys, w: nat)
    requires Inv(s) && w < |s.audit.phases| && s.audit.phases[w] == Racing
    ensures Inv(HttpSystem.Next(s, DeliveryTimesOut(w)))
  {
    ExpireKeeps(s.audit, w);
    AuditChangeKeeps(s, Expire(s.audit, w), HttpSystem.Next(s, DeliveryTimesOut(w)));
  }

  lemma AbortOnlyAborts(reqs: seq<Req>, active: set<nat>)
    ensures |AbortAll(reqs, active)| == |reqs|
    ensures forall r | 0 <= r < |reqs| ::
              && AbortAll(reqs, active)[r].task == reqs[r].task
              && AbortAll(reqs, active)[r].term == reqs[r].term
              && (r in active ==> AbortAll(reqs, active)[r].aborted.Some?)
  {
  }

  lemma AfterCloseHolds(s: Sys, reqs: seq<Req>)
    requires Inv(s) && s.shutdown.Up? && |reqs| == |s.reqs| && ReqsOk(s.audit, reqs)
    requires forall r | 0 <= r < |s.reqs| :: reqs[r].task == s.reqs[r].task && reqs[r].term == s.reqs[r].term
    requires forall r | r in s.active && r < |s.reqs| :: reqs[r].aborted.Some?
    ensures Inv(AfterClose(s, reqs))
  {
    var s' := AfterClose(s, reqs);
    assert SetsOk(s');
    assert ShutdownOk(s');
  }

  lemma CloseKeeps(s: Sys)
    requires Inv(s) && s.shutdown.Up?
    ensures Inv(AfterClose(s, AbortAll(s.reqs, s.active)))
  {
    AbortOnlyAborts(s.reqs, s.active);
    ReqsAfterAbort(s);
    AfterCloseHolds(s, AbortAll(s.reqs, s.active));
  }

  lemma DrainKeeps(s: Sys)
    requires Inv(s) && s.shutdown.DrainingTools?
    ensures Inv(HttpSystem.Next(s, ToolsDrain))
  {
  }

  lemma ListingKeeps(s: Sys)
    requires Inv(s) && s.shutdown.Stopping?
    ensures Inv(HttpSystem.Next(s, TerminalsListed))
  {
  }

  lemma TerminalsKeep(s: Sys)
    requires Inv(s) && HttpSystem.Enabled(s, TerminalsSettle)
    ensures Inv(HttpSystem.Next(s, TerminalsSettle))
  {
    assert s.open == {};
  }

  lemma SinkCloseKeeps(s: Sys)
    requires Inv(s) && s.shutdown.ClosingAudit?
    ensures Inv(HttpSystem.Next(s, SinkCloses))
  {
    ReqsAfterSettling(s, CallHook(s.audit));
  }

  lemma CloseEndKeeps(s: Sys, ok: bool)
    requires Inv(s) && s.shutdown.ClosingSink?
    ensures Inv(HttpSystem.Next(s, CloseEnds(ok)))
  {
    ReqsAfterSettling(s, HookFails(s.audit));
  }

  lemma EventKeeps(s: Sys, e: HttpSystem.Event)
    requires Inv(s) && HttpSystem.Enabled(s, e)
    ensures Inv(HttpSystem.Next(s, e))
  {
    match e
    case Arrives(h) => ArrivalKeeps(s, h);
    case Verifies(n, ok, destroyed) => VerificationKeeps(s, n, ok, destroyed);
    case Acts(r, a) => ActionKeeps(s, r, a);
    case SinkAccepts(w) => AcceptKeeps(s, w);
    case SinkFails(w) => FailKeeps(s, w);
    case DeliveryTimesOut(w) => TimeoutKeeps(s, w);
    case CloseBegins => CloseKeeps(s);
    case ToolsDrain => DrainKeeps(s);
    case TerminalsListed => ListingKeeps(s);
    case TerminalsSettle => TerminalsKeep(s);
    case SinkCloses => SinkCloseKeeps(s);
    case CloseEnds(ok) => CloseEndKeeps(s, ok);
  }

  lemma BootHolds(c: Config)
    ensures Inv(Boot(c))
  {
    FrontDoor.OpenedBalanced(c.maxConcurrent);
  }

  lemma ConfigStays(s: Sys, e: HttpSystem.Event)
    requires HttpSystem.Enabled(s, e)
    ensures HttpSystem.Next(s, e).config == s.config
  {
    if e.Acts? {
      var r, a := e.r, e.action;
      assert AfterAction(s, r, ActMove(s, r, a), a.TerminalSettles?).config == s.config;
    }
  }

  lemma {:induction false} RunKeepsInv(c: Config, t: seq<Sys>, es: seq<HttpSystem.Event>, i: nat)
    requires HttpSystem.IsRun(c, t, es) && i <= |es|
    ensures Inv(t[i]) && t[i].config == c
    decreases i
  {
    if i == 0 {
      BootHolds(c);
    } else {
      RunKeepsInv(c, t, es, i - 1);
      EventKeeps(t[i - 1], es[i - 1]);
      ConfigStays(t[i - 1], es[i - 1]);
    }
  }

  // ----- what stays for good -----

  lemma MoveRecords(s: Sys, r: nat, m: Move, last: bool, w: nat)
    requires r < |s.reqs| && (last ==> s.door.requests > 0)
    requires w < |s.audit.events| && w < |s.audit.phases|
    ensures var d := AfterAction(s, r, m, last).audit;
            w < |d.events| && w < |d.phases| && d.events[w] == s.audit.events[w]
  {
  }

  lemma RecordsStay(s: Sys, e: HttpSystem.Event, w: nat)
    requires HttpSystem.Enabled(s, e) && w < |s.audit.events| && w < |s.audit.phases|
    ensures var s' := HttpSystem.Next(s, e);
            && |s'.reqs| >= |s.reqs|
            && w < |s'.audit.events| && w < |s'.audit.phases| && s'.audit.events[w] == s.audit.events[w]
  {
    if e.Acts? { MoveRecords(s, e.r, ActMove(s, e.r, e.action), e.action.TerminalSettles?, w); }
  }

  lemma RecordsStayAt(c: Config, t: seq<Sys>, es: seq<HttpSystem.Event>, i: nat, w: nat)
    requires HttpSystem.IsRun(c, t, es) && i < |es| && w < |t[i].audit.events| && w < |t[i].audit.phases|
    ensures |t[i + 1].reqs| >= |t[i].reqs|
    ensures w < |t[i + 1].audit.events| && w < |t[i + 1].audit.phases|
    ensures t[i + 1].audit.events[w] == t[i].audit.events[w]
  {
    RecordsStay(t[i], es[i], w);
  }

  lemma {:induction false} RecordsStayInRun(c: Config, t: seq<Sys>, es: seq<HttpSystem.Event>, i: nat, j: nat, w: nat)
    requires HttpSystem.IsRun(c, t, es) && i <= j <= |es| && w < |t[i].audit.events| && w < |t[i].audit.phases|
    ensures |t[j].reqs| >= |t[i].reqs|
    ensures w < |t[j].audit.events| && w < |t[j].audit.phases| && t[j].audit.events[w] == t[i].audit.events[w]
    decreases j
  {
    if i < j {
      RecordsStayInRun(c, t, es, i, j - 1, w);
      RecordsStayAt(c, t, es, j - 1, w);
    }
  }
}
