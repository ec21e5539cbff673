/** What the records and answers of a request say, in every run: the exact step behind each record,
    each start and each answer, and from a handler's result to what the client is sent. */
module RecordTheorems {
  import opened Wrappers
  import opened Dispatch
  import opened RequestProgram
  import opened HttpSystem
  import opened RequestInvariant
  import opened HttpInvariant
  import opened Runs

  // ----- the step behind each record -----

  /** The reason for which `invoke` and `run` refuse a call, before anything is started. */
  predicate RefusedAs(g: Gate, closing: bool, busy: bool, code: Code) {
    match code
    case Denied => !(g.known && g.permitted)
    case InvalidInput => g.known && g.permitted && !(g.withinElements && g.withinBytes)
    case ShuttingDown => g.known && g.permitted && g.withinElements && g.withinBytes && closing
    case Cancelled => g.known && g.permitted && g.withinElements && g.withinBytes && !closing && g.callerAborted
    case Busy =>
      g.known && g.permitted && g.withinElements && g.withinBytes && !closing && !g.callerAborted && busy
    case _ => false
  }

  predicate LetIn(g: Gate, closing: bool, busy: bool) {
    g.known && g.permitted && g.withinElements && g.withinBytes && !closing && !g.callerAborted && !busy
  }

  /** The code with which an operation that has not been aborted ends without a result. */
  predicate EndsWith(a: Action, code: Code) {
    || (a == Parses(false) && code == InvalidInput)
    || (a == HandlerEnds(Threw(code)) && code != AuditUnavailable)
    || (a == HandlerEnds(Oversized) && code == OutputTooLarge)
  }

  /** Request `q` does `a` and thereby asks for a record of kind `k`. */
  predicate Asks(q: Req, a: Action, live: set<nat>, closing: bool, busy: bool, k: Kind) {
    match k
    case Received => false
    case Allowed => a == Parses(true) && q.aborted.None?
    case Outcome(isError) => a == HandlerEnds(Value(isError)) && q.aborted.None?
    case Failure(code) =>
      || (a.Invoke? && RefusedAs(a.gate, closing, busy, code))
      || (EndsWith(a, code) && q.aborted.None?)
      || (a == RunRejects && q.aborted == Some(code))
    case Protocol => a == RejectMessage || (a == Sends && q.call == Returned(true) && q.recorded.None?)
    case Response => a == Prepares
    case Terminal => a == DrainRound && live == {}
  }

  lemma RefusalIs(g: Gate, closing: bool, busy: bool, code: Code)
    ensures Refusal(g, closing, busy) == Some(code) <==> RefusedAs(g, closing, busy, code)
    ensures Refusal(g, closing, busy) == None <==> LetIn(g, closing, busy)
  {
  }

  lemma ActAsks(q: Req, a: Action, phases: seq<Phase>, live: set<nat>, next: nat, closing: bool, busy: bool, k: Kind)
    requires CanAct(q, a, phases)
    ensures Act(q, a, phases, live, next, closing, busy).wrote == Some(k) <==> Asks(q, a, live, closing, busy, k)
  {
    if a.Invoke? { RefusalIs(a.gate, closing, busy, if k.Failure? then k.code else Internal); }
  }

  /** The step from `s` to `s'` submits one record, `tag`. */
  predicate Submits(s: Sys, s': Sys, tag: Tag) {
    var w := |s.audit.events|;
    |s'.audit.events| == w + 1 && s'.audit.events[w] == tag
  }

  /** The event `e` in state `s` asks for the record `tag`. */
  predicate Causes(s: Sys, e: HttpSystem.Event, tag: Tag) {
    if tag.kind.Received? then
      && tag.owner == |s.reqs| && e.Verifies? && e.ok && !e.destroyed
      && !s.door.closing && s.audit.Healthy() && s.door.requests < RequestCapacity(s.config)
    else
      && e.Acts? && e.r == tag.owner < |s.reqs|
      && Asks(s.reqs[e.r], e.action, Live(s.audit, e.r), s.door.closing, |s.active| >= s.config.maxConcurrent, tag.kind)
  }

  lemma MoveSubmits(s: Sys, x: nat, m: Move, last: bool, tag: Tag)
    requires x < |s.reqs| && (last ==> s.door.requests > 0)
    ensures Submits(s, AfterAction(s, x, m, last), tag) <==> m.wrote == Some(tag.kind) && tag.owner == x
  {
  }

  lemma ActionSubmits(s: Sys, r: nat, a: Action, tag: Tag)
    requires HttpSystem.Enabled(s, Acts(r, a))
    ensures Submits(s, HttpSystem.Next(s, Acts(r, a)), tag) <==> Causes(s, Acts(r, a), tag)
  {
    MoveSubmits(s, r, ActMove(s, r, a), a.TerminalSettles?, tag);
    ActAsks(s.reqs[r], a, s.audit.phases, Live(s.audit, r), |s.audit.phases|, s.door.closing,
            |s.active| >= s.config.maxConcurrent, tag.kind);
  }

  lemma StepSubmits(s: Sys, e: HttpSystem.Event, tag: Tag)
    requires HttpSystem.Enabled(s, e)
    ensures Submits(s, HttpSystem.Next(s, e), tag) <==> Causes(s, e, tag)
  {
    if e.Acts? { ActionSubmits(s, e.r, e.action, tag); }
  }

  /** A step submits a record if and only if it is the one that asks for it. */
  lemma RecordsAreExact(c: Config, t: seq<Sys>, es: seq<HttpSystem.Event>, i: nat, tag: Tag)
    requires HttpSystem.IsRun(c, t, es) && i < |es|
    ensures Submits(t[i], t[i + 1], tag) <==> Causes(t[i], es[i], tag)
  {
    StepSubmits(t[i], es[i], tag);
  }

  lemma OneRecordAtMost(s: Sys, e: HttpSystem.Event)
    requires HttpSystem.Enabled(s, e)
    ensures |s.audit.events| <= |HttpSystem.Next(s, e).audit.events| <= |s.audit.events| + 1
  {
    if e.Acts? { MoveWritesOne(s, e.r, ActMove(s, e.r, e.action), e.action.TerminalSettles?); }
  }

  lemma MoveWritesOne(s: Sys, x: nat, m: Move, last: bool)
    requires x < |s.reqs| && (last ==> s.door.requests > 0)
    ensures |s.audit.events| <= |AfterAction(s, x, m, last).audit.events| <= |s.audit.events| + 1
  {
  }

  lemma OneRecordAt(c: Config, t: seq<Sys>, es: seq<HttpSystem.Event>, i: nat)
    requires HttpSystem.IsRun(c, t, es) && i < |es|
    ensures |t[i].audit.events| <= |t[i + 1].audit.events| <= |t[i].audit.events| + 1
  {
    OneRecordAtMost(t[i], es[i]);
  }

  lemma StartsEmpty(c: Config, t: seq<Sys>, es: seq<HttpSystem.Event>)
    requires HttpSystem.IsRun(c, t, es)
    ensures t[0].audit.events == []
  {
  }

  /** Every record of the log was asked for by one earlier step, at which the log ended before it. */
  lemma RecordHasItsStep(c: Config, t: seq<Sys>, es: seq<HttpSystem.Event>, i: nat, w: nat) returns (h: nat)
    requires HttpSystem.IsRun(c, t, es) && i <= |es| && w < |t[i].audit.events|
    ensures h < i && |t[h].audit.events| == w && Causes(t[h], es[h], t[i].audit.events[w])
  {
    StartsEmpty(c, t, es);
    h := Turn(seq(|t|, j requires 0 <= j < |t| => w < |t[j].audit.events|), i);
    OneRecordAt(c, t, es, h);
    RunKeepsInv(c, t, es, h + 1);
    RecordsStayInRun(c, t, es, h + 1, i, w);
    RecordsAreExact(c, t, es, h, t[i].audit.events[w]);
  }

  // ----- the step behind each stage of a call -----

  predicate BeginIsExact(q: Req, a: Action, phases: seq<Phase>, q': Req) {
    !q.main.Serving? && q'.main.Serving? <==>
      a == ReceivedSettles(false) && q.main.Receiving? && Acknowledged(phases, q.main.w)
  }

  /** What the request's surroundings do to it in the step `a`. */
  predicate SignalIsExact(q: Req, a: Action, q': Req) {
    && (q'.aborted == if a.Abort? then Some(a.code) else q.aborted)
    && (q'.closed <==> q.closed || a == ResponseCloses)
  }

  /** How far the operation gets in the step `a`. */
  predicate StageIsExact(q: Req, a: Action, phases: seq<Phase>, closing: bool, busy: bool, q': Req) {
    && (!q.task.Queued? && q'.task.Queued? <==> a.Invoke? && LetIn(a.gate, closing, busy))
    && (!q.task.Parsing? && q'.task.Parsing? <==> a == TaskStarts && q.aborted.None?)
    && (!q.task.Handling? && q'.task.Handling? <==>
          a == PermitSettles && q.task.Permitting? && Acknowledged(phases, q.task.w) && q.aborted.None?)
  }

  lemma ActBegins(q: Req, a: Action, phases: seq<Phase>, live: set<nat>, next: nat, closing: bool, busy: bool)
    requires CanAct(q, a, phases)
    ensures BeginIsExact(q, a, phases, Act(q, a, phases, live, next, closing, busy).q)
  {
    if a.Invoke? { RefusalIs(a.gate, closing, busy, Internal); }
  }

  lemma ActSignals(q: Req, a: Action, phases: seq<Phase>, live: set<nat>, next: nat, closing: bool, busy: bool)
    requires CanAct(q, a, phases)
    ensures SignalIsExact(q, a, Act(q, a, phases, live, next, closing, busy).q)
  {
    if a.Invoke? { RefusalIs(a.gate, closing, busy, Internal); }
  }

  lemma ActStages(q: Req, a: Action, phases: seq<Phase>, live: set<nat>, next: nat, closing: bool, busy: bool)
    requires ShapeOk(q) && CanAct(q, a, phases)
    ensures StageIsExact(q, a, phases, closing, busy, Act(q, a, phases, live, next, closing, busy).q)
  {
    if a.Invoke? { RefusalIs(a.gate, closing, busy, Internal); }
  }

  /** The call returns to the SDK, with an error or not. */
  predicate Returns(q: Req, a: Action, phases: seq<Phase>, isError: bool) {
    || (a == OutcomeSettles && q.task.Concluding? && Acknowledged(phases, q.task.w)
        && q.aborted.None? && isError == q.task.isError)
    || (isError && a == FailureSettles)
    || (isError && q.aborted.None?
        && (|| (a == PermitSettles && q.task.Permitting? && !Acknowledged(phases, q.task.w))
            || (a == OutcomeSettles && q.task.Concluding? && !Acknowledged(phases, q.task.w))
            || a == HandlerEnds(Threw(AuditUnavailable))))
  }

  /** The client is sent `reply`. */
  predicate Sent(q: Req, a: Action, phases: seq<Phase>, reply: Reply) {
    match reply
    case PlainSent => a == AnswerPlainly
    case ResultSent => a == Sends && q.call == Returned(false)
    case ErrorSent(w) =>
      || (a == Sends && q.call == Returned(true) && q.recorded == Some(w))
      || (a == ObservationSettles && q.call == Observing(w) && Acknowledged(phases, w))
    case UnavailableSent => a == ObservationSettles && q.call.Observing? && !Acknowledged(phases, q.call.w)
  }

  lemma ActReturns(q: Req, a: Action, phases: seq<Phase>, live: set<nat>, next: nat, closing: bool, busy: bool,
                   isError: bool)
    requires ShapeOk(q) && CanAct(q, a, phases)
    ensures var q' := Act(q, a, phases, live, next, closing, busy).q;
            q.call != Returned(isError) && q'.call == Returned(isError) <==> Returns(q, a, phases, isError)
  {
    if a.Invoke? { RefusalIs(a.gate, closing, busy, Internal); }
  }

  lemma ActSends(q: Req, a: Action, phases: seq<Phase>, live: set<nat>, next: nat, closing: bool, busy: bool,
                 reply: Reply)
    requires ShapeOk(q) && CanAct(q, a, phases)
    ensures var q' := Act(q, a, phases, live, next, closing, busy).q;
            q.call != Answered(reply) && q'.call == Answered(reply) <==> Sent(q, a, phases, reply)
  {
    if a.Invoke? { RefusalIs(a.gate, closing, busy, Internal); }
  }

  /** In every run each step of a request changes its stage exactly as the step says: the delivery
      begins after the `received` record was acknowledged, an operation is let in past every gate, a
      handler starts when its `allowed` record was acknowledged and nothing was aborted, the call
      returns and the client is sent what was recorded. */
  lemma StagesAreExact(c: Config, t: seq<Sys>, es: seq<HttpSystem.Event>, i: nat, r: nat, a: Action)
    requires HttpSystem.IsRun(c, t, es) && i < |es| && es[i] == Acts(r, a)
    ensures r < |t[i].reqs| == |t[i + 1].reqs|
    ensures var q, q', s := t[i].reqs[r], t[i + 1].reqs[r], t[i];
            && BeginIsExact(q, a, s.audit.phases, q')
            && SignalIsExact(q, a, q')
            && StageIsExact(q, a, s.audit.phases, s.door.closing, |s.active| >= c.maxConcurrent, q')
            && (forall isError ::
                  q.call != Returned(isError) && q'.call == Returned(isError)
                  <==> Returns(q, a, s.audit.phases, isError))
            && (forall reply ::
                  q.call != Answered(reply) && q'.call == Answered(reply) <==> Sent(q, a, s.audit.phases, reply))
  {
    var s := t[i];
    var q, busy := s.reqs[r], |s.active| >= s.config.maxConcurrent;
    RunKeepsInv(c, t, es, i);
    assert ReqOk(s.audit, r, q);
    ActedOn(c, t, es, i, r, a);
    ActBegins(q, a, s.audit.phases, Live(s.audit, r), |s.audit.phases|, s.door.closing, busy);
    ActSignals(q, a, s.audit.phases, Live(s.audit, r), |s.audit.phases|, s.door.closing, busy);
    ActStages(q, a, s.audit.phases, Live(s.audit, r), |s.audit.phases|, s.door.closing, busy);
    forall isError
      ensures q.call != Returned(isError) && t[i + 1].reqs[r].call == Returned(isError)
         <==> Returns(q, a, s.audit.phases, isError)
    {
      ActReturns(q, a, s.audit.phases, Live(s.audit, r), |s.audit.phases|, s.door.closing, busy, isError);
    }
    forall reply
      ensures q.call != Answered(reply) && t[i + 1].reqs[r].call == Answered(reply)
         <==> Sent(q, a, s.audit.phases, reply)
    {
      ActSends(q, a, s.audit.phases, Live(s.audit, r), |s.audit.phases|, s.door.closing, busy, reply);
    }
  }

  lemma ActedOn(c: Config, t: seq<Sys>, es: seq<HttpSystem.Event>, i: nat, r: nat, a: Action)
    requires HttpSystem.IsRun(c, t, es) && i < |es| && es[i] == Acts(r, a)
    ensures r < |t[i].reqs| == |t[i + 1].reqs| && CanAct(t[i].reqs[r], a, t[i].audit.phases)
    ensures t[i + 1].reqs[r] == ActMove(t[i], r, a).q
  {
  }

  // ----- where a request waits -----

  predicate EndIsExact(q: Req, a: Action, phases: seq<Phase>, q': Req) {
    !q.main.Ended? && q'.main.Ended? <==>
      a == AdapterEnds || a == ReceivedSettles(true)
      || (a == ReceivedSettles(false) && q.main.Receiving? && !Acknowledged(phases, q.main.w))
  }

  /** The response record and the terminal record. */
  predicate ScopeIsExact(q: Req, a: Action, live: set<nat>, next: nat, q': Req) {
    && q'.prepared == (if a == Prepares then Preparing(next)
                       else if a == PreparationSettles && q.prepared.Preparing? then Prepared(q.prepared.w)
                       else q.prepared)
    && q'.term == (if a == DrainBegins || (a == DrainRound && live != {}) then Draining(live)
                   else if a == DrainRound then Closing(next)
                   else if a == TerminalSettles && q.term.Closing? then Done(q.term.w)
                   else q.term)
  }

  /** A failure of the call is recorded before the call returns. */
  predicate Fails(q: Req, a: Action, closing: bool, busy: bool) {
    || (a.Invoke? && !LetIn(a.gate, closing, busy))
    || (q.aborted.None? && (a == Parses(false) || a == HandlerEnds(Oversized)))
    || (q.aborted.None? && a.HandlerEnds? && a.end.Threw? && a.end.code != AuditUnavailable)
    || a == RunRejects
  }

  /** What the call waits for. */
  predicate CallIsExact(q: Req, a: Action, next: nat, closing: bool, busy: bool, q': Req) {
    && (!q.call.Invoking? && q'.call.Invoking? <==> a.Invoke? && LetIn(a.gate, closing, busy))
    && (!q.call.Reporting? && q'.call.Reporting? <==> Fails(q, a, closing, busy))
    && (!q.call.Reporting? && q'.call.Reporting? ==> q'.call.w == next)
  }

  predicate SendIsExact(q: Req, a: Action, next: nat, q': Req) {
    && (!q.call.Observing? && q'.call.Observing? <==>
          a == RejectMessage || (a == Sends && q.call == Returned(true) && q.recorded.None?))
    && (!q.call.Observing? && q'.call.Observing? ==> q'.call.w == next)
  }

  /** Which acknowledged record says what became of the call. */
  predicate EvidenceIsExact(q: Req, a: Action, phases: seq<Phase>, q': Req) {
    q'.recorded ==
      if a == FailureSettles && q.call.Reporting? && Acknowledged(phases, q.call.w) then Some(q.call.w)
      else if a == OutcomeSettles && q.task.Concluding? && Acknowledged(phases, q.task.w) then Some(q.task.w)
      else q.recorded
  }

  /** The operation is over. */
  predicate Stops(q: Req, a: Action, phases: seq<Phase>) {
    || (a == TaskStarts && q.aborted.Some?)
    || a == Parses(false) || (a == Parses(true) && q.aborted.Some?)
    || (a == PermitSettles && q.task.Permitting? && (!Acknowledged(phases, q.task.w) || q.aborted.Some?))
    || (a.HandlerEnds? && (!a.end.Value? || q.aborted.Some?))
    || a == OutcomeSettles
  }

  predicate StopIsExact(q: Req, a: Action, phases: seq<Phase>, q': Req) {
    !q.task.Finished? && q'.task.Finished? <==> Stops(q, a, phases)
  }

  predicate TaskIsExact(q: Req, a: Action, next: nat, q': Req) {
    && (!q.task.Permitting? && q'.task.Permitting? <==> a == Parses(true) && q.aborted.None?)
    && (!q.task.Concluding? && q'.task.Concluding? <==> a.HandlerEnds? && a.end.Value? && q.aborted.None?)
    && (q'.task != q.task && q'.task.Permitting? ==> q'.task.w == next)
    && (q'.task != q.task && q'.task.Concluding? ==>
          q'.task.w == next && a == HandlerEnds(Value(q'.task.isError)))
  }

  lemma ActEnds(q: Req, a: Action, phases: seq<Phase>, live: set<nat>, next: nat, closing: bool, busy: bool)
    requires ShapeOk(q) && CanAct(q, a, phases)
    ensures EndIsExact(q, a, phases, Act(q, a, phases, live, next, closing, busy).q)
  {
    if a.Invoke? { RefusalIs(a.gate, closing, busy, Internal); }
  }

  lemma ActScopes(q: Req, a: Action, phases: seq<Phase>, live: set<nat>, next: nat, closing: bool, busy: bool)
    requires ShapeOk(q) && CanAct(q, a, phases)
    ensures ScopeIsExact(q, a, live, next, Act(q, a, phases, live, next, closing, busy).q)
  {
    if a.Invoke? { RefusalIs(a.gate, closing, busy, Internal); }
  }

  lemma ActBacks(q: Req, a: Action, phases: seq<Phase>, live: set<nat>, next: nat, closing: bool, busy: bool)
    requires ShapeOk(q) && CanAct(q, a, phases)
    ensures EvidenceIsExact(q, a, phases, Act(q, a, phases, live, next, closing, busy).q)
  {
    if a.Invoke? { RefusalIs(a.gate, closing, busy, Internal); }
  }

  lemma ActCalls(q: Req, a: Action, phases: seq<Phase>, live: set<nat>, next: nat, closing: bool, busy: bool)
    requires ShapeOk(q) && CanAct(q, a, phases)
    ensures CallIsExact(q, a, next, closing, busy, Act(q, a, phases, live, next, closing, busy).q)
  {
    if a.Invoke? { RefusalIs(a.gate, closing, busy, Internal); }
  }

  lemma ActObserves(q: Req, a: Action, phases: seq<Phase>, live: set<nat>, next: nat, closing: bool, busy: bool)
    requires ShapeOk(q) && CanAct(q, a, phases)
    ensures SendIsExact(q, a, next, Act(q, a, phases, live, next, closing, busy).q)
  {
    if a.Invoke? { RefusalIs(a.gate, closing, busy, Internal); }
  }

  lemma ActStops(q: Req, a: Action, phases: seq<Phase>, live: set<nat>, next: nat, closing: bool, busy: bool)
    requires ShapeOk(q) && CanAct(q, a, phases)
    ensures StopIsExact(q, a, phases, Act(q, a, phases, live, next, closing, busy).q)
  {
    if a.Invoke? { RefusalIs(a.gate, closing, busy, Internal); }
  }

  lemma ActTasks(q: Req, a: Action, phases: seq<Phase>, live: set<nat>, next: nat, closing: bool, busy: bool)
    requires ShapeOk(q) && CanAct(q, a, phases)
    ensures TaskIsExact(q, a, next, Act(q, a, phases, live, next, closing, busy).q)
  {
    if a.Invoke? { RefusalIs(a.gate, closing, busy, Internal); }
  }

  /** In every run each step of a request changes the places where it waits exactly as the step says:
      it waits for the record it has just asked for, drains the deliveries that are then unsettled, and
      keeps the record whose acknowledgement lets an error pass. */
  lemma PlacesAreExact(c: Config, t: seq<Sys>, es: seq<HttpSystem.Event>, i: nat, r: nat, a: Action)
    requires HttpSystem.IsRun(c, t, es) && i < |es| && es[i] == Acts(r, a)
    ensures r < |t[i].reqs| == |t[i + 1].reqs|
    ensures var q, q', s, next := t[i].reqs[r], t[i + 1].reqs[r], t[i], |t[i].audit.events|;
            && EndIsExact(q, a, s.audit.phases, q')
            && ScopeIsExact(q, a, Live(s.audit, r), next, q')
            && EvidenceIsExact(q, a, s.audit.phases, q')
            && CallIsExact(q, a, next, s.door.closing, |s.active| >= c.maxConcurrent, q')
            && SendIsExact(q, a, next, q')
            && StopIsExact(q, a, s.audit.phases, q')
            && TaskIsExact(q, a, next, q')
  {
    var s := t[i];
    var q, busy := s.reqs[r], |s.active| >= s.config.maxConcurrent;
    RunKeepsInv(c, t, es, i);
    assert ReqOk(s.audit, r, q);
    ActedOn(c, t, es, i, r, a);
    ActEnds(q, a, s.audit.phases, Live(s.audit, r), |s.audit.phases|, s.door.closing, busy);
    ActScopes(q, a, s.audit.phases, Live(s.audit, r), |s.audit.phases|, s.door.closing, busy);
    ActBacks(q, a, s.audit.phases, Live(s.audit, r), |s.audit.phases|, s.door.closing, busy);
    ActCalls(q, a, s.audit.phases, Live(s.audit, r), |s.audit.phases|, s.door.closing, busy);
    ActObserves(q, a, s.audit.phases, Live(s.audit, r), |s.audit.phases|, s.door.closing, busy);
    ActStops(q, a, s.audit.phases, Live(s.audit, r), |s.audit.phases|, s.door.closing, busy);
    ActTasks(q, a, s.audit.phases, Live(s.audit, r), |s.audit.phases|, s.door.closing, busy);
  }

  // ----- from the handler's result to the answer -----

  /** The call has an acknowledged outcome, and returns or has sent it. */
  predicate Concluded(q: Req, w: nat, isError: bool) {
    && q.task.Finished? && q.recorded == Some(w)
    && (q.call == Returned(isError) || q.call == Answered(if isError then ErrorSent(w) else ResultSent))
  }

  lemma ActKeepsConclusion(q: Req, a: Action, phases: seq<Phase>, live: set<nat>, next: nat,
                           closing: bool, busy: bool, w: nat, isError: bool)
    requires CanAct(q, a, phases) && Concluded(q, w, isError)
    ensures Concluded(Act(q, a, phases, live, next, closing, busy).q, w, isError)
  {
  }

  lemma MoveTouchesOnly(s: Sys, x: nat, m: Move, last: bool, r: nat)
    requires x < |s.reqs| && r < |s.reqs| && (last ==> s.door.requests > 0)
    ensures |AfterAction(s, x, m, last).reqs| == |s.reqs|
    ensures AfterAction(s, x, m, last).reqs[r] == if r == x then m.q else s.reqs[r]
  {
  }

  lemma StepKeepsConclusion(s: Sys, e: HttpSystem.Event, r: nat, w: nat, isError: bool)
    requires Inv(s) && HttpSystem.Enabled(s, e) && r < |s.reqs| && Concluded(s.reqs[r], w, isError)
    ensures r < |HttpSystem.Next(s, e).reqs| && Concluded(HttpSystem.Next(s, e).reqs[r], w, isError)
  {
    if e.Acts? {
      var x, a := e.r, e.action;
      MoveTouchesOnly(s, x, ActMove(s, x, a), a.TerminalSettles?, r);
      if x == r {
        ActKeepsConclusion(s.reqs[r], a, s.audit.phases, Live(s.audit, r), |s.audit.phases|, s.door.closing,
                           |s.active| >= s.config.maxConcurrent, w, isError);
      }
    }
  }

  lemma ConclusionStaysAt(c: Config, t: seq<Sys>, es: seq<HttpSystem.Event>, i: nat, r: nat, w: nat, isError: bool)
    requires HttpSystem.IsRun(c, t, es) && i < |es| && r < |t[i].reqs| && Concluded(t[i].reqs[r], w, isError)
    ensures r < |t[i + 1].reqs| && Concluded(t[i + 1].reqs[r], w, isError)
  {
    RunKeepsInv(c, t, es, i);
    StepKeepsConclusion(t[i], es[i], r, w, isError);
  }

  lemma {:induction false} ConclusionStays(c: Config, t: seq<Sys>, es: seq<HttpSystem.Event>, i: nat, j: nat,
                                           r: nat, w: nat, isError: bool)
    requires HttpSystem.IsRun(c, t, es) && i <= j <= |es| && r < |t[i].reqs| && Concluded(t[i].reqs[r], w, isError)
    ensures r < |t[j].reqs| && Concluded(t[j].reqs[r], w, isError)
    decreases j
  {
    if i < j {
      ConclusionStays(c, t, es, i, j - 1, r, w, isError);
      ConclusionStaysAt(c, t, es, j - 1, r, w, isError);
    }
  }

  /** The state in which an acknowledged outcome concludes a call that was not aborted. */
  lemma ConcludesAt(c: Config, t: seq<Sys>, es: seq<HttpSystem.Event>, j: nat, r: nat)
    requires HttpSystem.IsRun(c, t, es) && j < |es| && es[j] == Acts(r, OutcomeSettles)
    requires r < |t[j].reqs| && t[j].reqs[r].aborted.None?
    requires t[j].reqs[r].task.Concluding? && Delivers(t[j].audit, t[j].reqs[r].task.w)
    ensures var task := t[j].reqs[r].task;
            && Wrote(t[j].audit, task.w, r, Outcome(task.isError))
            && r < |t[j + 1].reqs| && Concluded(t[j + 1].reqs[r], task.w, task.isError)
  {
    RunKeepsInv(c, t, es, j);
    assert ReqOk(t[j].audit, r, t[j].reqs[r]);
    ActedOn(c, t, es, j, r, OutcomeSettles);
  }

  /** An outcome record was submitted when a handler returned that value. */
  lemma WrittenOutcome(c: Config, t: seq<Sys>, es: seq<HttpSystem.Event>, i: nat, r: nat, w: nat, isError: bool)
    returns (h: nat)
    requires HttpSystem.IsRun(c, t, es) && i <= |es|
    requires w < |t[i].audit.events| && t[i].audit.events[w] == Tag(r, Outcome(isError))
    ensures h < i && es[h] == Acts(r, HandlerEnds(Value(isError))) && |t[h].audit.events| == w
  {
    h := RecordHasItsStep(c, t, es, i, w);
  }

  /** When the outcome record of a call that was not aborted is acknowledged (`j`), a handler returned
      before (`h`) with a value that was an error or not, as recorded; and from then on the call
      returns that and nothing else: a success is sent as a result, an error with that record as its
      evidence. */
  lemma OutcomeDecidesAnswer(c: Config, t: seq<Sys>, es: seq<HttpSystem.Event>, j: nat, i: nat, r: nat)
    returns (h: nat, w: nat, isError: bool)
    requires HttpSystem.IsRun(c, t, es) && j < i <= |es| && es[j] == Acts(r, OutcomeSettles)
    requires r < |t[j].reqs| && t[j].reqs[r].aborted.None?
    requires t[j].reqs[r].task.Concluding? && Delivers(t[j].audit, t[j].reqs[r].task.w)
    ensures h < j && es[h] == Acts(r, HandlerEnds(Value(isError))) && |t[h].audit.events| == w
    ensures Wrote(t[j].audit, w, r, Outcome(isError)) && Delivers(t[j].audit, w)
    ensures r < |t[i].reqs| && Concluded(t[i].reqs[r], w, isError)
  {
    w, isError := t[j].reqs[r].task.w, t[j].reqs[r].task.isError;
    ConcludesAt(c, t, es, j, r);
    ConclusionStays(c, t, es, j + 1, i, r, w, isError);
    h := WrittenOutcome(c, t, es, j, r, w, isError);
  }
}
