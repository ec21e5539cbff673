/** One admitted HTTP request as the small concurrent program it is in the source: the HTTP
    delivery (src/http.ts), the tool task run by the execution controller (src/execution.ts),
    the invocation that awaits it (src/runtime.ts), the wrapped transport send (src/audit.ts)
    and the terminal record. A stretch of code between two suspensions is one step. */
module RequestProgram {
  import opened Wrappers
  import opened Dispatch

  datatype Code =
    | Denied | InvalidInput | Busy | Timeout | Cancelled | ShuttingDown
    | OutputTooLarge | NotFound | UpstreamFailed | AuditUnavailable | Internal

  /** What a request asks the dispatcher to record. `Allowed` and `Outcome` come from the tool
      task, `Failure` from the invocation, `Protocol` from the wrapped send. */
  datatype Kind =
    | Received | Allowed | Outcome(isError: bool) | Failure(code: Code) | Protocol | Response | Terminal

  /** The audited HTTP delivery: awaiting the `received` record, inside the adapter, or settled. */
  datatype Main = Receiving(w: nat) | Serving | Ended

  /** The operation handed to `ExecutionController.run`. */
  datatype Task =
    | NoTask
    | Queued
    | Parsing
    | Permitting(w: nat)
    | Handling
    | Concluding(w: nat, isError: bool)
    | Finished

  /** What the client is sent; an error keeps the record whose acknowledgement let it pass. */
  datatype Reply = PlainSent | ResultSent | ErrorSent(evidence: nat) | UnavailableSent

  /** `SecureRuntime.invoke` around the operation, then the wrapped send of its result. */
  datatype Call =
    | Idle
    | Invoking
    | Reporting(w: nat)
    | Returned(isError: bool)
    | Observing(w: nat)
    | Answered(reply: Reply)

  /** The response record written before the response is handed to Node. */
  datatype Prepared = Unprepared | Preparing(w: nat) | Prepared(w: nat)

  datatype Term = Waiting | Draining(snapshot: set<nat>) | Closing(w: nat) | Done(w: nat)

  /** `recorded` is the source's `toolOutcomeRecorded`, kept together with the record that set it.
      `first`, `gated`, `parsed`, `allowed`, `started` and `outcome` are history. */
  datatype Req = Req(
    main: Main,
    task: Task,
    call: Call,
    prepared: Prepared,
    term: Term,
    closed: bool,
    aborted: Option<Code>,
    recorded: Option<nat>,
    first: nat,
    gated: bool,
    parsed: bool,
    allowed: Option<nat>,
    started: bool,
    outcome: Option<nat>)

  /** The request as admission leaves it: its `received` record, with id `w`, has been submitted. */
  function Admitted(w: nat): Req {
    Req(Receiving(w), NoTask, Idle, Unprepared, Waiting, false, None, None, w, false, false, None, false, None)
  }

  /** The facts the gates of `invoke` and `run` look at. */
  datatype Gate = Gate(known: bool, permitted: bool, withinElements: bool, withinBytes: bool, callerAborted: bool)

  function Refusal(g: Gate, closing: bool, busy: bool): Option<Code> {
    if !g.known || !g.permitted then Some(Denied)
    else if !g.withinElements then Some(InvalidInput)
    else if !g.withinBytes then Some(InvalidInput)
    else if closing then Some(ShuttingDown)
    else if g.callerAborted then Some(Cancelled)
    else if busy then Some(Busy)
    else None
  }

  datatype HandlerEnd = Threw(code: Code) | Oversized | Value(isError: bool)

  datatype Action =
    | ResponseCloses
    | ReceivedSettles(destroyed: bool)
    | Invoke(gate: Gate)
    | RejectMessage
    | AnswerPlainly
    | TaskStarts
    | Parses(ok: bool)
    | PermitSettles
    | HandlerEnds(end: HandlerEnd)
    | OutcomeSettles
    | Abort(code: Code)
    | RunRejects
    | FailureSettles
    | Sends
    | ObservationSettles
    | Prepares
    | PreparationSettles
    | AdapterEnds
    | DrainBegins
    | DrainRound
    | TerminalSettles

  predicate Running(t: Task) {
    !t.NoTask? && !t.Finished?
  }

  function PhaseOf(phases: seq<Phase>, w: nat): Phase {
    if w < |phases| then phases[w] else Racing
  }

  predicate Settled(phases: seq<Phase>, w: nat) {
    PhaseOf(phases, w) != Racing
  }

  predicate Acknowledged(phases: seq<Phase>, w: nat) {
    PhaseOf(phases, w) == Delivered
  }

  /** `run` has been aborted while `invoke` awaits it: its rejection is a microtask that is ready. */
  predicate RejectionReady(q: Req) {
    q.call.Invoking? && q.aborted.Some?
  }

  /** Which steps the event loop can take next. The adapter's promise does not settle while `run` is
      awaited, unless the call has been aborted; after it, deliveries may be pending and others begin.
      The SDK passes nothing to the wrapped send once that promise has settled. A rejection of `run`
      that is ready runs before `settle` looks at the scope again. */
  predicate CanAct(q: Req, a: Action, phases: seq<Phase>) {
    match a
    case ResponseCloses => !q.closed
    case ReceivedSettles(destroyed) => q.main.Receiving? && Settled(phases, q.main.w) && (q.closed ==> destroyed)
    case Invoke(_) => q.main.Serving? && q.call.Idle?
    case RejectMessage => q.main.Serving? && q.call.Idle?
    case AnswerPlainly => q.main.Serving? && q.call.Idle?
    case TaskStarts => q.task.Queued?
    case Parses(_) => q.task.Parsing?
    case PermitSettles => q.task.Permitting? && Settled(phases, q.task.w)
    case HandlerEnds(_) => q.task.Handling?
    case OutcomeSettles => q.task.Concluding? && Settled(phases, q.task.w)
    case Abort(code) =>
      Running(q.task) && q.aborted.None? && (code == Timeout || code == Cancelled || code == ShuttingDown)
    case RunRejects => RejectionReady(q)
    case FailureSettles => q.call.Reporting? && Settled(phases, q.call.w)
    case Sends => q.call.Returned? && q.main.Serving?
    case ObservationSettles => q.call.Observing? && Settled(phases, q.call.w)
    case Prepares => q.main.Serving? && q.prepared.Unprepared?
    case PreparationSettles => q.prepared.Preparing? && Settled(phases, q.prepared.w)
    case AdapterEnds => q.main.Serving? && (q.call.Invoking? ==> q.aborted.Some?)
    case DrainBegins => q.term.Waiting? && q.closed && q.main.Ended?
    case DrainRound => q.term.Draining? && !RejectionReady(q) && forall w | w in q.term.snapshot :: Settled(phases, w)
    case TerminalSettles => q.term.Closing? && Settled(phases, q.term.w)
  }

  /** The request after a step, and the record the step submits, if any. */
  datatype Move = Move(q: Req, wrote: Option<Kind>)

  function Quiet(q: Req): Move {
    Move(q, None)
  }

  /** The operation throws: once the signal is aborted nobody is listening; otherwise `invoke`
      catches and records the code, except for an audit failure, which it does not record. */
  function TaskFails(q: Req, code: Code, next: nat): Move {
    if q.aborted.Some? then Quiet(q.(task := Finished))
    else if code == AuditUnavailable then Quiet(q.(task := Finished, call := Returned(true)))
    else Move(q.(task := Finished, call := Reporting(next)), Some(Failure(code)))
  }

  /** `next` is the id the dispatcher gives to a record submitted by this step; `live` is the
      request's audit scope, the deliveries it has begun that have not settled. */
  function Act(q: Req, a: Action, phases: seq<Phase>, live: set<nat>, next: nat, closing: bool, busy: bool): Move
    requires CanAct(q, a, phases)
  {
    match a
    case ResponseCloses => Quiet(q.(closed := true))
    case ReceivedSettles(destroyed) =>
      Quiet(q.(main := if Acknowledged(phases, q.main.w) && !destroyed then Serving else Ended))
    case Invoke(gate) =>
      (match Refusal(gate, closing, busy)
       case Some(code) => Move(q.(call := Reporting(next)), Some(Failure(code)))
       case None => Quiet(q.(task := Queued, call := Invoking, gated := true)))
    case RejectMessage => Move(q.(call := Observing(next)), Some(Protocol))
    case AnswerPlainly => Quiet(q.(call := Answered(PlainSent)))
    case TaskStarts => Quiet(q.(task := if q.aborted.Some? then Finished else Parsing))
    case Parses(ok) =>
      if q.aborted.Some? || !ok then TaskFails(q, InvalidInput, next)
      else Move(q.(task := Permitting(next), parsed := true, allowed := Some(next)), Some(Allowed))
    case PermitSettles =>
      if !Acknowledged(phases, q.task.w) || q.aborted.Some? then TaskFails(q, AuditUnavailable, next)
      else Quiet(q.(task := Handling, started := true))
    case HandlerEnds(end) =>
      (match end
       case Threw(code) => TaskFails(q, code, next)
       case Oversized => TaskFails(q, OutputTooLarge, next)
       case Value(isError) =>
         if q.aborted.Some? then Quiet(q.(task := Finished))
         else Move(q.(task := Concluding(next, isError), outcome := Some(next)), Some(Outcome(isError))))
    case OutcomeSettles =>
      if !Acknowledged(phases, q.task.w) then TaskFails(q, AuditUnavailable, next)
      else
        var r := q.(task := Finished, recorded := Some(q.task.w));
        Quiet(if q.aborted.Some? then r else r.(call := Returned(q.task.isError)))
    case Abort(code) => Quiet(q.(aborted := Some(code)))
    case RunRejects => Move(q.(call := Reporting(next)), Some(Failure(q.aborted.value)))
    case FailureSettles =>
      Quiet(q.(call := Returned(true),
               recorded := if Acknowledged(phases, q.call.w) then Some(q.call.w) else q.recorded))
    case Sends =>
      if !q.call.isError then Quiet(q.(call := Answered(ResultSent)))
      else if q.recorded.Some? then Quiet(q.(call := Answered(ErrorSent(q.recorded.value))))
      else Move(q.(call := Observing(next)), Some(Protocol))
    case ObservationSettles =>
      Quiet(q.(call := Answered(if Acknowledged(phases, q.call.w) then ErrorSent(q.call.w) else UnavailableSent)))
    case Prepares => Move(q.(prepared := Preparing(next)), Some(Response))
    case PreparationSettles => Quiet(q.(prepared := Prepared(q.prepared.w)))
    case AdapterEnds => Quiet(q.(main := Ended))
    case DrainBegins => Quiet(q.(term := Draining(live)))
    case DrainRound =>
      if live != {} then Quiet(q.(term := Draining(live)))
      else Move(q.(term := Closing(next)), Some(Terminal))
    case TerminalSettles => Quiet(q.(term := Done(q.term.w)))
  }
}
