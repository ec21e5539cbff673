/** The whole HTTP runtime as one state machine: admission and shutdown (src/http.ts), the audit
    dispatcher (src/audit.ts), the execution controller (src/execution.ts) and one
    `RequestProgram` per admitted request. Events interleave freely. */
module HttpSystem {
  import opened Wrappers
  import opened Dispatch
  import opened RequestProgram
  import FrontDoor

  datatype Config = Config(maxConcurrent: nat, maxPending: nat)

  /** The bound on admitted requests. */
  function RequestCapacity(c: Config): nat {
    if c.maxConcurrent * 2 <= c.maxPending / 3 then c.maxConcurrent * 2 else c.maxPending / 3
  }

  /** Who asked for a record, and which record. */
  datatype Tag = Tag(owner: nat, kind: Kind)

  /** How far `close` has come. `remaining` is what the drain of the execution controller found. */
  datatype Shutdown =
    | Up
    | DrainingTools
    | Stopping(remaining: nat)
    | AwaitingTerminals(remaining: nat, snapshot: set<nat>)
    | ClosingAudit(remaining: nat)
    | ClosingSink
    | Down

  /** `active` is the controller's set of unsettled works, `open` the set of terminal promises,
      both by request. Requests are numbered in the order of admission. */
  datatype Sys = Sys(
    config: Config,
    door: FrontDoor.Door,
    audit: Ledger<Tag>,
    reqs: seq<Req>,
    active: set<nat>,
    open: set<nat>,
    shutdown: Shutdown,
    disposed: bool)

  function Boot(c: Config): Sys {
    Sys(c, FrontDoor.Opened(), Start(c.maxPending), [], {}, {}, Up, false)
  }

  /** The unsettled deliveries of request `r`: its audit scope, and its terminal record. */
  function Live(d: Ledger<Tag>, r: nat): set<nat> {
    set w | 0 <= w < |d.events| && w < |d.phases| && d.events[w].owner == r && d.phases[w] == Racing
  }

  datatype Event =
    | Arrives(head: FrontDoor.Head)
    | Verifies(arrival: nat, ok: bool, destroyed: bool)
    | Acts(r: nat, action: Action)
    | SinkAccepts(w: nat)
    | SinkFails(w: nat)
    | DeliveryTimesOut(w: nat)
    | CloseBegins
    | ToolsDrain
    | TerminalsListed
    | TerminalsSettle
    | SinkCloses
    | CloseEnds(ok: bool)

  function VerdictNow(s: Sys, ok: bool, destroyed: bool): FrontDoor.Verdict {
    FrontDoor.VerdictOf(ok, destroyed, s.door.closing, s.audit.Healthy(), s.door.requests >= RequestCapacity(s.config))
  }

  predicate Enabled(s: Sys, e: Event) {
    match e
    case Arrives(_) => true
    case Verifies(n, _, _) => FrontDoor.InVerification(s.door, n)
    case Acts(r, a) =>
      r < |s.reqs| && CanAct(s.reqs[r], a, s.audit.phases) && (a.TerminalSettles? ==> s.door.requests > 0)
    case SinkAccepts(w) => w in s.audit.pending && w < |s.audit.phases|
    case SinkFails(w) => w in s.audit.pending && w < |s.audit.phases|
    case DeliveryTimesOut(w) => w < |s.audit.phases| && s.audit.phases[w] == Racing
    case CloseBegins => s.shutdown.Up?
    case ToolsDrain => s.shutdown.DrainingTools?
    case TerminalsListed => s.shutdown.Stopping?
    case TerminalsSettle => s.shutdown.AwaitingTerminals? && s.shutdown.snapshot !! s.open
    case SinkCloses => s.shutdown.ClosingAudit?
    case CloseEnds(_) => s.shutdown.ClosingSink?
  }

  function ActMove(s: Sys, r: nat, a: Action): Move
    requires r < |s.reqs| && CanAct(s.reqs[r], a, s.audit.phases)
  {
    Act(s.reqs[r], a, s.audit.phases, Live(s.audit, r), |s.audit.phases|, s.door.closing,
        |s.active| >= s.config.maxConcurrent)
  }

  function AfterMove(s: Sys, r: nat, m: Move): Sys
    requires r < |s.reqs|
  {
    s.(reqs := s.reqs[r := m.q],
       audit := if m.wrote.Some? then Submit(s.audit, Tag(r, m.wrote.value)) else s.audit,
       active := if Running(m.q.task) then s.active + {r} else s.active - {r})
  }

  /** The settled terminal record gives the request's place back. */
  function AfterAction(s: Sys, r: nat, m: Move, last: bool): Sys
    requires r < |s.reqs| && (last ==> s.door.requests > 0)
  {
    if last then AfterMove(s, r, m).(door := FrontDoor.Release(s.door), open := s.open - {r})
    else AfterMove(s, r, m)
  }

  /** Admission takes a request slot, registers the terminal and submits `received`. */
  function AfterAdmission(s: Sys, arrival: nat): Sys
    requires FrontDoor.InVerification(s.door, arrival)
  {
    s.(door := FrontDoor.Verified(s.door, arrival, FrontDoor.Admit),
       reqs := s.reqs + [Admitted(|s.audit.phases|)],
       audit := Submit(s.audit, Tag(|s.reqs|, Received)),
       open := s.open + {|s.reqs|})
  }

  /** The drain aborts every entry that is still active; the first reason of an abort stays. */
  function AbortAll(reqs: seq<Req>, active: set<nat>): seq<Req> {
    seq(|reqs|, i requires 0 <= i < |reqs| =>
      if i in active && reqs[i].aborted.None? then reqs[i].(aborted := Some(ShuttingDown)) else reqs[i])
  }

  function AfterClose(s: Sys, reqs: seq<Req>): Sys {
    s.(door := s.door.(closing := true), reqs := reqs, shutdown := DrainingTools)
  }

  function Next(s: Sys, e: Event): Sys
    requires Enabled(s, e)
  {
    match e
    case Arrives(h) => s.(door := FrontDoor.Arrive(s.door, h, s.config.maxConcurrent))
    case Verifies(n, ok, destroyed) =>
      (var v := VerdictNow(s, ok, destroyed);
       if v == FrontDoor.Admit then AfterAdmission(s, n) else s.(door := FrontDoor.Verified(s.door, n, v)))
    case Acts(r, a) => AfterAction(s, r, ActMove(s, r, a), a.TerminalSettles?)
    case SinkAccepts(w) => s.(audit := Resolve(s.audit, w))
    case SinkFails(w) => s.(audit := Reject(s.audit, w))
    case DeliveryTimesOut(w) => s.(audit := Expire(s.audit, w))
    case CloseBegins => AfterClose(s, AbortAll(s.reqs, s.active))
    case ToolsDrain => s.(shutdown := Stopping(|s.active|))
    case TerminalsListed => s.(shutdown := AwaitingTerminals(s.shutdown.remaining, s.open))
    case TerminalsSettle =>
      s.(disposed := s.shutdown.remaining == 0, shutdown := ClosingAudit(s.shutdown.remaining))
    case SinkCloses => s.(audit := CallHook(s.audit), shutdown := ClosingSink)
    case CloseEnds(ok) => s.(audit := if ok then s.audit else HookFails(s.audit), shutdown := Down)
  }

  /** `t` is a run of the runtime started with configuration `c`. */
  ghost predicate IsRun(c: Config, t: seq<Sys>, es: seq<Event>) {
    && |t| == |es| + 1
    && t[0] == Boot(c)
    && forall i {:trigger es[i]} | 0 <= i < |es| :: Enabled(t[i], es[i]) && t[i + 1] == Next(t[i], es[i])
  }
}
