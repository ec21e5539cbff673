/** What holds of one admitted request in every reachable state, and the proof that its own
    steps, and the steps of the others, keep it. */
module RequestInvariant {
  import opened Wrappers
  import opened Dispatch
  import opened RequestProgram
  import opened HttpSystem

  // ----- one request -----

  /** The combinations of program positions that can occur. */
  predicate ShapeOk(q: Req) {
    && (q.main.Receiving? ==> q.task.NoTask? && q.call.Idle? && q.prepared.Unprepared? && q.term.Waiting?)
    && (!q.term.Waiting? ==> q.main.Ended? && q.closed)
    && (q.call.Idle? ==> q.task.NoTask?)
    && (Running(q.task) && q.aborted.None? ==> q.call.Invoking?)
    && (q.call.Invoking? ==>
          !q.task.NoTask? && (q.main.Serving? || q.aborted.Some?) && (q.task.Finished? ==> q.aborted.Some?))
    && (q.term.Closing? || q.term.Done? ==> !q.call.Invoking?)
    && (Running(q.task) ==> q.gated)
  }

  /** The places of the program that can hold an unsettled delivery: at most three. */
  function Slots(q: Req): set<nat> {
    if q.term.Done? then {}
    else if q.term.Closing? then {q.term.w}
    else
      (if q.main.Receiving? then {q.main.w} else if q.prepared.Preparing? then {q.prepared.w} else {})
      + (if q.task.Permitting? || q.task.Concluding? then {q.task.w} else {})
      + (if q.call.Reporting? || q.call.Observing? then {q.call.w} else {})
  }

  predicate Wrote(d: Ledger<Tag>, w: nat, r: nat, k: Kind) {
    w < |d.events| && w < |d.phases| && d.events[w] == Tag(r, k)
  }

  predicate WroteOutcome(d: Ledger<Tag>, w: nat, r: nat) {
    w < |d.events| && w < |d.phases| && d.events[w].owner == r && d.events[w].kind.Outcome?
  }

  predicate WroteFailure(d: Ledger<Tag>, w: nat, r: nat) {
    w < |d.events| && w < |d.phases| && d.events[w].owner == r && d.events[w].kind.Failure?
  }

  predicate Delivers(d: Ledger<Tag>, w: nat) {
    w < |d.phases| && d.phases[w] == Delivered
  }

  /** Every record the program waits for is its own and of the right kind. */
  predicate PlacesOk(d: Ledger<Tag>, r: nat, q: Req) {
    && Wrote(d, q.first, r, Received)
    && (q.main.Receiving? ==> q.main.w == q.first)
    && (q.task.Permitting? ==> q.allowed == Some(q.task.w) && Wrote(d, q.task.w, r, Allowed))
    && (q.task.Concluding? ==> q.outcome == Some(q.task.w) && Wrote(d, q.task.w, r, Outcome(q.task.isError)))
    && (q.call.Reporting? ==> WroteFailure(d, q.call.w, r))
    && (q.call.Observing? ==> Wrote(d, q.call.w, r, Protocol))
    && (q.prepared.Preparing? || q.prepared.Prepared? ==> Wrote(d, q.prepared.w, r, Response))
    && (q.term.Closing? || q.term.Done? ==> Wrote(d, q.term.w, r, Terminal))
  }

  /** What the request's entry `w` of the audit log may be, given how far the request is. */
  predicate EntryOk(q: Req, w: nat, k: Kind) {
    && q.first <= w
    && (k.Received? ==> w == q.first)
    && (k.Response? ==> (q.prepared.Preparing? || q.prepared.Prepared?) && q.prepared.w == w)
    && (k.Terminal? ==> q.term.Closing? || q.term.Done?)
    && (q.term.Closing? || q.term.Done? ==> w <= q.term.w && (k.Terminal? ==> w == q.term.w))
    && (k.Allowed? ==> q.allowed == Some(w))
    && (k.Outcome? ==> q.outcome == Some(w))
  }

  /** All log entries of the request are accounted for, and the unsettled ones are in its slots. */
  predicate LogOk(d: Ledger<Tag>, r: nat, q: Req) {
    forall w | 0 <= w < |d.events| && w < |d.phases| && d.events[w].owner == r ::
      EntryOk(q, w, d.events[w].kind) && (d.phases[w] == Racing ==> w in Slots(q))
  }

  /** The history fields are backed by acknowledged records. */
  predicate EvidenceOk(d: Ledger<Tag>, r: nat, q: Req) {
    && (q.main.Serving? || !q.call.Idle? ==> Delivers(d, q.first))
    && (q.allowed.Some? ==> q.gated && q.parsed && Wrote(d, q.allowed.value, r, Allowed))
    && (q.task.Queued? || q.task.Parsing? ==> q.allowed.None?)
    && (q.started ==> q.allowed.Some? && Delivers(d, q.allowed.value))
    && (q.task.Handling? || q.outcome.Some? ==> q.started)
    && (q.task.Queued? || q.task.Parsing? || q.task.Permitting? || q.task.Handling? || q.task.NoTask? ==>
          q.outcome.None?)
    && (q.task.NoTask? ==> q.allowed.None?)
    && (q.outcome.Some? ==> q.allowed.value < q.outcome.value && WroteOutcome(d, q.outcome.value, r))
    && (q.recorded.Some? ==> Delivers(d, q.recorded.value)
                             && (WroteOutcome(d, q.recorded.value, r) || WroteFailure(d, q.recorded.value, r)))
    && ReplyOk(d, r, q)
  }

  predicate ReplyOk(d: Ledger<Tag>, r: nat, q: Req) {
    && (q.call == Returned(false) || q.call == Answered(ResultSent) ==>
          q.outcome.Some? && Delivers(d, q.outcome.value) && Wrote(d, q.outcome.value, r, Outcome(false)))
    && (q.call.Answered? && q.call.reply.ErrorSent? ==>
          Delivers(d, q.call.reply.evidence)
          && (WroteOutcome(d, q.call.reply.evidence, r) || WroteFailure(d, q.call.reply.evidence, r)
              || Wrote(d, q.call.reply.evidence, r, Protocol)))
  }

  predicate ReqOk(d: Ledger<Tag>, r: nat, q: Req) {
    && ShapeOk(q)
    && PlacesOk(d, r, q)
    && LogOk(d, r, q)
    && EvidenceOk(d, r, q)
  }

  // ----- a request's own steps keep its part of the invariant -----

  /** `d'` has one more record than `d`, asked for by `t`. */
  ghost predicate Appended(d: Ledger<Tag>, d': Ledger<Tag>, t: Tag) {
    && |d.events| == |d.phases|
    && |d'.events| == |d'.phases| == |d.events| + 1
    && d'.events[|d.events|] == t
    && (forall w | 0 <= w < |d.events| :: d'.events[w] == d.events[w])
    && (forall w | 0 <= w < |d.events| :: d'.phases[w] == d.phases[w])
  }

  lemma SubmitAppends(d: Ledger<Tag>, t: Tag)
    requires |d.events| == |d.phases|
    ensures Appended(d, Submit(d, t), t)
  {
  }

  ghost predicate Follows(d: Ledger<Tag>, d': Ledger<Tag>, r: nat, m: Move) {
    && |d.events| == |d.phases|
    && if m.wrote.Some? then Appended(d, d', Tag(r, m.wrote.value)) else d' == d
  }

  /** The task ends without another record. */
  lemma TaskStopsKeeps(d: Ledger<Tag>, r: nat, q: Req, call: Call)
    requires |d.events| == |d.phases| && ReqOk(d, r, q) && Running(q.task)
    requires q.task.Permitting? || q.task.Concluding? ==> Settled(d.phases, q.task.w)
    requires if q.aborted.Some? then call == q.call else call == Returned(true)
    ensures ReqOk(d, r, q.(task := Finished, call := call))
  {
  }

  /** `invoke` records a failure, with its task over or never started or aborted. */
  lemma ReportKeeps(d: Ledger<Tag>, d': Ledger<Tag>, r: nat, q: Req, task: Task, code: Code)
    requires ReqOk(d, r, q) && Appended(d, d', Tag(r, Failure(code)))
    requires (q.call.Idle? && q.main.Serving?) || (q.call.Invoking? && !q.main.Receiving?)
    requires if task == q.task then q.call.Invoking? ==> q.aborted.Some?
             else
               && task == Finished && Running(q.task)
               && (q.task.Permitting? || q.task.Concluding? ==> Settled(d.phases, q.task.w))
    ensures ReqOk(d', r, q.(task := task, call := Reporting(|d.phases|)))
  {
  }

  /** The wrapped send records a protocol error or a rejected tool call. */
  lemma ObserveKeeps(d: Ledger<Tag>, d': Ledger<Tag>, r: nat, q: Req)
    requires ReqOk(d, r, q) && Appended(d, d', Tag(r, Protocol))
    requires q.main.Serving? && (q.call.Idle? || q.call.Returned?)
    ensures ReqOk(d', r, q.(call := Observing(|d.phases|)))
  {
  }

  /** The response record is begun. */
  lemma RespondKeeps(d: Ledger<Tag>, d': Ledger<Tag>, r: nat, q: Req)
    requires ReqOk(d, r, q) && Appended(d, d', Tag(r, Response))
    requires q.main.Serving? && q.prepared.Unprepared?
    ensures ReqOk(d', r, q.(prepared := Preparing(|d.phases|)))
  {
  }

  /** The wrapped send passes the result of the call on. */
  lemma AnswerKeeps(d: Ledger<Tag>, r: nat, q: Req, reply: Reply)
    requires ReqOk(d, r, q) && q.call.Returned?
    requires if q.call.isError then q.recorded.Some? && reply == ErrorSent(q.recorded.value) else reply == ResultSent
    ensures ReqOk(d, r, q.(call := Answered(reply)))
  {
  }

  /** The terminal record is begun: no delivery of the request is unsettled. */
  lemma TerminalKeeps(d: Ledger<Tag>, d': Ledger<Tag>, r: nat, q: Req)
    requires ReqOk(d, r, q) && Appended(d, d', Tag(r, Terminal))
    requires q.term.Draining? && !RejectionReady(q) && Live(d, r) == {}
    ensures ReqOk(d', r, q.(term := Closing(|d.phases|)))
  {
    forall w | 0 <= w < |d.events| && d.events[w].owner == r ensures d.phases[w] != Racing {
      assert w !in Live(d, r);
    }
  }

  /** Failing is fine wherever the task has no delivery outstanding. */
  lemma TaskFailsKeeps(d: Ledger<Tag>, d': Ledger<Tag>, r: nat, q: Req, code: Code)
    requires ReqOk(d, r, q) && Running(q.task)
    requires q.task.Permitting? || q.task.Concluding? ==> Settled(d.phases, q.task.w)
    requires Follows(d, d', r, TaskFails(q, code, |d.phases|))
    ensures ReqOk(d', r, TaskFails(q, code, |d.phases|).q)
  {
    if q.aborted.Some? {
      TaskStopsKeeps(d, r, q, q.call);
    } else if code == AuditUnavailable {
      TaskStopsKeeps(d, r, q, Returned(true));
    } else {
      ReportKeeps(d, d', r, q, Finished, code);
    }
  }

  lemma ResponseClosesKeeps(d: Ledger<Tag>, d': Ledger<Tag>, r: nat, q: Req, a: Action, closing: bool, busy: bool)
    requires a.ResponseCloses? && ReqOk(d, r, q) && CanAct(q, a, d.phases)
    requires Follows(d, d', r, Act(q, a, d.phases, Live(d, r), |d.phases|, closing, busy))
    ensures ReqOk(d', r, Act(q, a, d.phases, Live(d, r), |d.phases|, closing, busy).q)
  {
  }

  lemma ReceivedSettlesKeeps(d: Ledger<Tag>, d': Ledger<Tag>, r: nat, q: Req, a: Action, closing: bool, busy: bool)
    requires a.ReceivedSettles? && ReqOk(d, r, q) && CanAct(q, a, d.phases)
    requires Follows(d, d', r, Act(q, a, d.phases, Live(d, r), |d.phases|, closing, busy))
    ensures ReqOk(d', r, Act(q, a, d.phases, Live(d, r), |d.phases|, closing, busy).q)
  {
  }

  lemma InvokeKeeps(d: Ledger<Tag>, d': Ledger<Tag>, r: nat, q: Req, a: Action, closing: bool, busy: bool)
    requires a.Invoke? && ReqOk(d, r, q) && CanAct(q, a, d.phases)
    requires Follows(d, d', r, Act(q, a, d.phases, Live(d, r), |d.phases|, closing, busy))
    ensures ReqOk(d', r, Act(q, a, d.phases, Live(d, r), |d.phases|, closing, busy).q)
  {
    match Refusal(a.gate, closing, busy)
    case Some(code) => ReportKeeps(d, d', r, q, q.task, code);
    case None =>
  }

  lemma RejectMessageKeeps(d: Ledger<Tag>, d': Ledger<Tag>, r: nat, q: Req, a: Action, closing: bool, busy: bool)
    requires a.RejectMessage? && ReqOk(d, r, q) && CanAct(q, a, d.phases)
    requires Follows(d, d', r, Act(q, a, d.phases, Live(d, r), |d.phases|, closing, busy))
    ensures ReqOk(d', r, Act(q, a, d.phases, Live(d, r), |d.phases|, closing, busy).q)
  {
    ObserveKeeps(d, d', r, q);
  }

  lemma AnswerPlainlyKeeps(d: Ledger<Tag>, d': Ledger<Tag>, r: nat, q: Req, a: Action, closing: bool, busy: bool)
    requires a.AnswerPlainly? && ReqOk(d, r, q) && CanAct(q, a, d.phases)
    requires Follows(d, d', r, Act(q, a, d.phases, Live(d, r), |d.phases|, closing, busy))
    ensures ReqOk(d', r, Act(q, a, d.phases, Live(d, r), |d.phases|, closing, busy).q)
  {
  }

  lemma TaskStartsKeeps(d: Ledger<Tag>, d': Ledger<Tag>, r: nat, q: Req, a: Action, closing: bool, busy: bool)
    requires a.TaskStarts? && ReqOk(d, r, q) && CanAct(q, a, d.phases)
    requires Follows(d, d', r, Act(q, a, d.phases, Live(d, r), |d.phases|, closing, busy))
    ensures ReqOk(d', r, Act(q, a, d.phases, Live(d, r), |d.phases|, closing, busy).q)
  {
  }

  lemma ParsesKeeps(d: Ledger<Tag>, d': Ledger<Tag>, r: nat, q: Req, a: Action, closing: bool, busy: bool)
    requires a.Parses? && ReqOk(d, r, q) && CanAct(q, a, d.phases)
    requires Follows(d, d', r, Act(q, a, d.phases, Live(d, r), |d.phases|, closing, busy))
    ensures ReqOk(d', r, Act(q, a, d.phases, Live(d, r), |d.phases|, closing, busy).q)
  {
    if q.aborted.Some? || !a.ok { TaskFailsKeeps(d, d', r, q, InvalidInput); }
  }

  lemma PermitSettlesKeeps(d: Ledger<Tag>, d': Ledger<Tag>, r: nat, q: Req, a: Action, closing: bool, busy: bool)
    requires a.PermitSettles? && ReqOk(d, r, q) && CanAct(q, a, d.phases)
    requires Follows(d, d', r, Act(q, a, d.phases, Live(d, r), |d.phases|, closing, busy))
    ensures ReqOk(d', r, Act(q, a, d.phases, Live(d, r), |d.phases|, closing, busy).q)
  {
    if !Acknowledged(d.phases, q.task.w) || q.aborted.Some? { TaskFailsKeeps(d, d', r, q, AuditUnavailable); }
  }

  lemma HandlerEndsKeeps(d: Ledger<Tag>, d': Ledger<Tag>, r: nat, q: Req, a: Action, closing: bool, busy: bool)
    requires a.HandlerEnds? && ReqOk(d, r, q) && CanAct(q, a, d.phases)
    requires Follows(d, d', r, Act(q, a, d.phases, Live(d, r), |d.phases|, closing, busy))
    ensures ReqOk(d', r, Act(q, a, d.phases, Live(d, r), |d.phases|, closing, busy).q)
  {
    match a.end
    case Threw(code) => TaskFailsKeeps(d, d', r, q, code);
    case Oversized => TaskFailsKeeps(d, d', r, q, OutputTooLarge);
    case Value(isError) =>
  }

  lemma OutcomeAcknowledgedKeeps(d: Ledger<Tag>, r: nat, q: Req)
    requires |d.events| == |d.phases| && ReqOk(d, r, q) && q.task.Concluding? && Acknowledged(d.phases, q.task.w)
    ensures var q1 := q.(task := Finished, recorded := Some(q.task.w));
            ReqOk(d, r, if q.aborted.Some? then q1 else q1.(call := Returned(q.task.isError)))
  {
  }

  lemma OutcomeSettlesKeeps(d: Ledger<Tag>, d': Ledger<Tag>, r: nat, q: Req, a: Action, closing: bool, busy: bool)
    requires a.OutcomeSettles? && ReqOk(d, r, q) && CanAct(q, a, d.phases)
    requires Follows(d, d', r, Act(q, a, d.phases, Live(d, r), |d.phases|, closing, busy))
    ensures ReqOk(d', r, Act(q, a, d.phases, Live(d, r), |d.phases|, closing, busy).q)
  {
    if !Acknowledged(d.phases, q.task.w) {
      TaskFailsKeeps(d, d', r, q, AuditUnavailable);
    } else {
      OutcomeAcknowledgedKeeps(d, r, q);
    }
  }

  lemma AbortKeeps(d: Ledger<Tag>, d': Ledger<Tag>, r: nat, q: Req, a: Action, closing: bool, busy: bool)
    requires a.Abort? && ReqOk(d, r, q) && CanAct(q, a, d.phases)
    requires Follows(d, d', r, Act(q, a, d.phases, Live(d, r), |d.phases|, closing, busy))
    ensures ReqOk(d', r, Act(q, a, d.phases, Live(d, r), |d.phases|, closing, busy).q)
  {
  }

  lemma RunRejectsKeeps(d: Ledger<Tag>, d': Ledger<Tag>, r: nat, q: Req, a: Action, closing: bool, busy: bool)
    requires a.RunRejects? && ReqOk(d, r, q) && CanAct(q, a, d.phases)
    requires Follows(d, d', r, Act(q, a, d.phases, Live(d, r), |d.phases|, closing, busy))
    ensures ReqOk(d', r, Act(q, a, d.phases, Live(d, r), |d.phases|, closing, busy).q)
  {
    ReportKeeps(d, d', r, q, q.task, q.aborted.value);
  }

  lemma FailureSettlesKeeps(d: Ledger<Tag>, d': Ledger<Tag>, r: nat, q: Req, a: Action, closing: bool, busy: bool)
    requires a.FailureSettles? && ReqOk(d, r, q) && CanAct(q, a, d.phases)
    requires Follows(d, d', r, Act(q, a, d.phases, Live(d, r), |d.phases|, closing, busy))
    ensures ReqOk(d', r, Act(q, a, d.phases, Live(d, r), |d.phases|, closing, busy).q)
  {
  }

  lemma SendsKeeps(d: Ledger<Tag>, d': Ledger<Tag>, r: nat, q: Req, a: Action, closing: bool, busy: bool)
    requires a.Sends? && ReqOk(d, r, q) && CanAct(q, a, d.phases)
    requires Follows(d, d', r, Act(q, a, d.phases, Live(d, r), |d.phases|, closing, busy))
    ensures ReqOk(d', r, Act(q, a, d.phases, Live(d, r), |d.phases|, closing, busy).q)
  {
    if !q.call.isError {
      AnswerKeeps(d, r, q, ResultSent);
    } else if q.recorded.Some? {
      AnswerKeeps(d, r, q, ErrorSent(q.recorded.value));
    } else {
      ObserveKeeps(d, d', r, q);
    }
  }

  lemma ObservationSettlesKeeps(d: Ledger<Tag>, d': Ledger<Tag>, r: nat, q: Req, a: Action, closing: bool, busy: bool)
    requires a.ObservationSettles? && ReqOk(d, r, q) && CanAct(q, a, d.phases)
    requires Follows(d, d', r, Act(q, a, d.phases, Live(d, r), |d.phases|, closing, busy))
    ensures ReqOk(d', r, Act(q, a, d.phases, Live(d, r), |d.phases|, closing, busy).q)
  {
  }

  lemma PreparesKeeps(d: Ledger<Tag>, d': Ledger<Tag>, r: nat, q: Req, a: Action, closing: bool, busy: bool)
    requires a.Prepares? && ReqOk(d, r, q) && CanAct(q, a, d.phases)
    requires Follows(d, d', r, Act(q, a, d.phases, Live(d, r), |d.phases|, closing, busy))
    ensures ReqOk(d', r, Act(q, a, d.phases, Live(d, r), |d.phases|, closing, busy).q)
  {
    RespondKeeps(d, d', r, q);
  }

  lemma PreparationSettlesKeeps(d: Ledger<Tag>, d': Ledger<Tag>, r: nat, q: Req, a: Action, closing: bool, busy: bool)
    requires a.PreparationSettles? && ReqOk(d, r, q) && CanAct(q, a, d.phases)
    requires Follows(d, d', r, Act(q, a, d.phases, Live(d, r), |d.phases|, closing, busy))
    ensures ReqOk(d', r, Act(q, a, d.phases, Live(d, r), |d.phases|, closing, busy).q)
  {
  }

  lemma AdapterEndsKeeps(d: Ledger<Tag>, d': Ledger<Tag>, r: nat, q: Req, a: Action, closing: bool, busy: bool)
    requires a.AdapterEnds? && ReqOk(d, r, q) && CanAct(q, a, d.phases)
    requires Follows(d, d', r, Act(q, a, d.phases, Live(d, r), |d.phases|, closing, busy))
    ensures ReqOk(d', r, Act(q, a, d.phases, Live(d, r), |d.phases|, closing, busy).q)
  {
  }

  lemma DrainBeginsKeeps(d: Ledger<Tag>, d': Ledger<Tag>, r: nat, q: Req, a: Action, closing: bool, busy: bool)
    requires a.DrainBegins? && ReqOk(d, r, q) && CanAct(q, a, d.phases)
    requires Follows(d, d', r, Act(q, a, d.phases, Live(d, r), |d.phases|, closing, busy))
    ensures ReqOk(d', r, Act(q, a, d.phases, Live(d, r), |d.phases|, closing, busy).q)
  {
  }

  lemma DrainRoundKeeps(d: Ledger<Tag>, d': Ledger<Tag>, r: nat, q: Req, a: Action, closing: bool, busy: bool)
    requires a.DrainRound? && ReqOk(d, r, q) && CanAct(q, a, d.phases)
    requires Follows(d, d', r, Act(q, a, d.phases, Live(d, r), |d.phases|, closing, busy))
    ensures ReqOk(d', r, Act(q, a, d.phases, Live(d, r), |d.phases|, closing, busy).q)
  {
    if Live(d, r) == {} { TerminalKeeps(d, d', r, q); }
  }

  lemma TerminalSettlesKeeps(d: Ledger<Tag>, d': Ledger<Tag>, r: nat, q: Req, a: Action, closing: bool, busy: bool)
    requires a.TerminalSettles? && ReqOk(d, r, q) && CanAct(q, a, d.phases)
    requires Follows(d, d', r, Act(q, a, d.phases, Live(d, r), |d.phases|, closing, busy))
    ensures ReqOk(d', r, Act(q, a, d.phases, Live(d, r), |d.phases|, closing, busy).q)
  {
  }

  lemma ActKeeps(d: Ledger<Tag>, d': Ledger<Tag>, r: nat, q: Req, a: Action, closing: bool, busy: bool)
    requires ReqOk(d, r, q) && CanAct(q, a, d.phases)
    requires Follows(d, d', r, Act(q, a, d.phases, Live(d, r), |d.phases|, closing, busy))
    ensures ReqOk(d', r, Act(q, a, d.phases, Live(d, r), |d.phases|, closing, busy).q)
  {
    match a
    case ResponseCloses => ResponseClosesKeeps(d, d', r, q, a, closing, busy);
    case ReceivedSettles(_) => ReceivedSettlesKeeps(d, d', r, q, a, closing, busy);
    case Invoke(_) => InvokeKeeps(d, d', r, q, a, closing, busy);
    case RejectMessage => RejectMessageKeeps(d, d', r, q, a, closing, busy);
    case AnswerPlainly => AnswerPlainlyKeeps(d, d', r, q, a, closing, busy);
    case TaskStarts => TaskStartsKeeps(d, d', r, q, a, closing, busy);
    case Parses(_) => ParsesKeeps(d, d', r, q, a, closing, busy);
    case PermitSettles => PermitSettlesKeeps(d, d', r, q, a, closing, busy);
    case HandlerEnds(_) => HandlerEndsKeeps(d, d', r, q, a, closing, busy);
    case OutcomeSettles => OutcomeSettlesKeeps(d, d', r, q, a, closing, busy);
    case Abort(_) => AbortKeeps(d, d', r, q, a, closing, busy);
    case RunRejects => RunRejectsKeeps(d, d', r, q, a, closing, busy);
    case FailureSettles => FailureSettlesKeeps(d, d', r, q, a, closing, busy);
    case Sends => SendsKeeps(d, d', r, q, a, closing, busy);
    case ObservationSettles => ObservationSettlesKeeps(d, d', r, q, a, closing, busy);
    case Prepares => PreparesKeeps(d, d', r, q, a, closing, busy);
    case PreparationSettles => PreparationSettlesKeeps(d, d', r, q, a, closing, busy);
    case AdapterEnds => AdapterEndsKeeps(d, d', r, q, a, closing, busy);
    case DrainBegins => DrainBeginsKeeps(d, d', r, q, a, closing, busy);
    case DrainRound => DrainRoundKeeps(d, d', r, q, a, closing, busy);
    case TerminalSettles => TerminalSettlesKeeps(d, d', r, q, a, closing, busy);
  }

  // ----- what does not concern a request leaves its part alone -----

  lemma OtherRecordKeeps(d: Ledger<Tag>, d': Ledger<Tag>, t: Tag, r: nat, q: Req)
    requires ReqOk(d, r, q) && Appended(d, d', t) && t.owner != r
    ensures ReqOk(d', r, q)
  {
  }

  /** `d'` differs from `d` at most in that some racing deliveries have settled. */
  ghost predicate Settling(d: Ledger<Tag>, d': Ledger<Tag>) {
    && |d.events| == |d.phases| == |d'.phases|
    && d'.events == d.events
    && forall w | 0 <= w < |d.phases| :: d.phases[w] != Racing ==> d'.phases[w] == d.phases[w]
  }

  lemma SettlingKeeps(d: Ledger<Tag>, d': Ledger<Tag>, r: nat, q: Req)
    requires ReqOk(d, r, q) && Settling(d, d')
    ensures ReqOk(d', r, q)
  {
  }

  lemma AbortedKeeps(d: Ledger<Tag>, r: nat, q: Req)
    requires ReqOk(d, r, q) && Running(q.task) && q.aborted.None?
    ensures ReqOk(d, r, q.(aborted := Some(ShuttingDown)))
  {
  }

  lemma AdmittedOk(d: Ledger<Tag>, d': Ledger<Tag>, r: nat)
    requires |d.events| == |d.phases|
    requires forall w | 0 <= w < |d.events| :: d.events[w].owner < r
    requires Appended(d, d', Tag(r, Received))
    ensures ReqOk(d', r, Admitted(|d.phases|))
  {
  }
}
