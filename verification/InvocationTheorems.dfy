/** What a tool call guarantees, as ordered events of every run: a handler is started only after
    its gates, its schema and the acknowledgement of its `allowed` record, and what the client is
    told is backed by acknowledged records. */
module InvocationTheorems {
  import opened Wrappers
  import opened Runs
  import opened Dispatch
  import opened RequestProgram
  import opened HttpSystem
  import opened RequestInvariant
  import opened HttpInvariant
  import R = RecordTheorems

  // ----- where each fact comes from -----

  /** The state of request `r`, or of a request that has not begun. */
  function ReqAt(s: Sys, r: nat): Req {
    if r < |s.reqs| then s.reqs[r] else Admitted(0)
  }

  lemma ActOrigins(q: Req, a: Action, phases: seq<Phase>, live: set<nat>, next: nat, closing: bool, busy: bool)
    requires CanAct(q, a, phases)
    ensures var q' := Act(q, a, phases, live, next, closing, busy).q;
            && (q'.gated && !q.gated ==> a.Invoke? && Refusal(a.gate, closing, busy).None?)
            && (q'.started && !q.started ==>
                  a == PermitSettles && q.task.Permitting? && Acknowledged(phases, q.task.w) && q.aborted.None?)
  {
  }

  lemma ActAllows(q: Req, a: Action, phases: seq<Phase>, live: set<nat>, next: nat, closing: bool, busy: bool)
    requires CanAct(q, a, phases)
    ensures var q' := Act(q, a, phases, live, next, closing, busy).q;
            q'.allowed != q.allowed ==> a == Parses(true) && q'.allowed == Some(next)
  {
    match a
    case ResponseCloses =>
    case ReceivedSettles(_) =>
    case Invoke(_) =>
    case RejectMessage =>
    case AnswerPlainly =>
    case TaskStarts =>
    case Parses(_) =>
    case PermitSettles =>
    case HandlerEnds(_) =>
    case OutcomeSettles =>
    case Abort(_) =>
    case RunRejects =>
    case FailureSettles =>
    case Sends =>
    case ObservationSettles =>
    case Prepares =>
    case PreparationSettles =>
    case AdapterEnds =>
    case DrainBegins =>
    case DrainRound =>
    case TerminalSettles =>
  }

  /** `e` happens to request `r` as action `a`. */
  predicate Does(e: HttpSystem.Event, r: nat, a: Action) {
    e == Acts(r, a)
  }

  lemma StepOrigins(s: Sys, e: HttpSystem.Event, r: nat)
    requires HttpSystem.Enabled(s, e)
    ensures var q, q' := ReqAt(s, r), ReqAt(HttpSystem.Next(s, e), r);
            && (q'.gated && !q.gated ==>
                  e.Acts? && e.r == r && e.action.Invoke?
                  && Refusal(e.action.gate, s.door.closing, |s.active| >= s.config.maxConcurrent).None?)
            && (q'.allowed != q.allowed ==> Does(e, r, Parses(true)) && q'.allowed == Some(|s.audit.phases|))
            && (q'.started && !q.started ==>
                  Does(e, r, PermitSettles) && q.task.Permitting? && Delivers(s.audit, q.task.w) && q.aborted.None?)
  {
    if e.Acts? {
      var x, a := e.r, e.action;
      ActOrigins(s.reqs[x], a, s.audit.phases, Live(s.audit, x), |s.audit.phases|, s.door.closing,
                 |s.active| >= s.config.maxConcurrent);
      ActAllows(s.reqs[x], a, s.audit.phases, Live(s.audit, x), |s.audit.phases|, s.door.closing,
                |s.active| >= s.config.maxConcurrent);
      MoveTouchesOne(s, x, ActMove(s, x, a), a.TerminalSettles?, r);
    }
  }

  /** `StepOrigins` between two states of a run. */
  lemma OriginsAt(c: Config, t: seq<Sys>, es: seq<HttpSystem.Event>, i: nat, r: nat)
    requires HttpSystem.IsRun(c, t, es) && i < |es|
    ensures var q, q', s, e := ReqAt(t[i], r), ReqAt(t[i + 1], r), t[i], es[i];
            && (q'.gated && !q.gated ==>
                  e.Acts? && e.r == r && e.action.Invoke?
                  && Refusal(e.action.gate, s.door.closing, |s.active| >= s.config.maxConcurrent).None?)
            && (q'.allowed != q.allowed ==> Does(e, r, Parses(true)) && q'.allowed == Some(|s.audit.phases|))
            && (q'.started && !q.started ==>
                  Does(e, r, PermitSettles) && q.task.Permitting? && Delivers(s.audit, q.task.w) && q.aborted.None?)
  {
    StepOrigins(t[i], es[i], r);
  }

  lemma AllowedAt(c: Config, t: seq<Sys>, es: seq<HttpSystem.Event>, i: nat, r: nat)
    requires HttpSystem.IsRun(c, t, es) && i < |es| && ReqAt(t[i + 1], r).allowed != ReqAt(t[i], r).allowed
    ensures es[i] == Acts(r, Parses(true)) && ReqAt(t[i + 1], r).allowed == Some(|t[i].audit.phases|)
  {
    OriginsAt(c, t, es, i, r);
  }

  lemma MoveTouchesOne(s: Sys, x: nat, m: Move, last: bool, r: nat)
    requires x < |s.reqs| && (last ==> s.door.requests > 0)
    ensures ReqAt(AfterAction(s, x, m, last), r) == if r == x then m.q else ReqAt(s, r)
  {
  }

  lemma AckOrigin(s: Sys, e: HttpSystem.Event, w: nat)
    requires HttpSystem.Enabled(s, e) && Delivers(HttpSystem.Next(s, e).audit, w) && !Delivers(s.audit, w)
    ensures e == SinkAccepts(w) && w < |s.audit.phases|
  {
    if e.Acts? { MovePhases(s, e.r, ActMove(s, e.r, e.action), e.action.TerminalSettles?, w); }
  }

  lemma MovePhases(s: Sys, r: nat, m: Move, last: bool, w: nat)
    requires r < |s.reqs| && (last ==> s.door.requests > 0)
    ensures Delivers(AfterAction(s, r, m, last).audit, w) == Delivers(s.audit, w)
  {
  }

  // ----- the event behind each fact, found in the run -----

  lemma GatedAt(c: Config, t: seq<Sys>, es: seq<HttpSystem.Event>, i: nat, r: nat) returns (g: Gate)
    requires HttpSystem.IsRun(c, t, es) && i < |es| && ReqAt(t[i + 1], r).gated && !ReqAt(t[i], r).gated
    ensures es[i] == Acts(r, Invoke(g))
    ensures Refusal(g, t[i].door.closing, |t[i].active| >= t[i].config.maxConcurrent).None?
  {
    OriginsAt(c, t, es, i, r);
    g := es[i].action.gate;
  }

  lemma GateHistory(c: Config, t: seq<Sys>, es: seq<HttpSystem.Event>, i: nat, r: nat) returns (k: nat, g: Gate)
    requires HttpSystem.IsRun(c, t, es) && i <= |es| && ReqAt(t[i], r).gated
    ensures k < i && es[k] == Acts(r, Invoke(g))
    ensures Refusal(g, t[k].door.closing, |t[k].active| >= t[k].config.maxConcurrent).None?
  {
    k := Turn(seq(|t|, j requires 0 <= j < |t| => ReqAt(t[j], r).gated), i);
    g := GatedAt(c, t, es, k, r);
  }

  lemma PermitHistory(c: Config, t: seq<Sys>, es: seq<HttpSystem.Event>, i: nat, r: nat, w: nat) returns (k: nat)
    requires HttpSystem.IsRun(c, t, es) && i <= |es| && ReqAt(t[i], r).allowed == Some(w)
    ensures k < i && es[k] == Acts(r, Parses(true)) && w == |t[k].audit.phases|
  {
    k := Turn(seq(|t|, j requires 0 <= j < |t| => ReqAt(t[j], r).allowed == Some(w)), i);
    AllowedAt(c, t, es, k, r);
  }

  lemma AckOriginAt(c: Config, t: seq<Sys>, es: seq<HttpSystem.Event>, i: nat, w: nat)
    requires HttpSystem.IsRun(c, t, es) && i < |es| && Delivers(t[i + 1].audit, w) && !Delivers(t[i].audit, w)
    ensures es[i] == SinkAccepts(w) && w < |t[i].audit.phases|
  {
    AckOrigin(t[i], es[i], w);
  }

  lemma AckHistory(c: Config, t: seq<Sys>, es: seq<HttpSystem.Event>, i: nat, w: nat) returns (k: nat)
    requires HttpSystem.IsRun(c, t, es) && i <= |es| && Delivers(t[i].audit, w)
    ensures k < i && es[k] == SinkAccepts(w) && w < |t[k].audit.phases|
  {
    k := Turn(seq(|t|, j requires 0 <= j < |t| => Delivers(t[j].audit, w)), i);
    AckOriginAt(c, t, es, k, w);
  }

  lemma MoveLogs(s: Sys, r: nat, m: Move, last: bool)
    requires r < |s.reqs| && (last ==> s.door.requests > 0)
    ensures |s.audit.phases| <= |AfterAction(s, r, m, last).audit.phases|
  {
  }

  lemma LogGrows(s: Sys, e: HttpSystem.Event)
    requires HttpSystem.Enabled(s, e)
    ensures |s.audit.phases| <= |HttpSystem.Next(s, e).audit.phases|
  {
    if e.Acts? { MoveLogs(s, e.r, ActMove(s, e.r, e.action), e.action.TerminalSettles?); }
  }

  lemma LogGrowsAt(c: Config, t: seq<Sys>, es: seq<HttpSystem.Event>, i: nat)
    requires HttpSystem.IsRun(c, t, es) && i < |es|
    ensures |t[i].audit.phases| <= |t[i + 1].audit.phases|
  {
    LogGrows(t[i], es[i]);
  }

  /** A record that exists at step `m` and was submitted at step `p` was submitted before `m`. */
  lemma {:induction false} SubmittedBefore(c: Config, t: seq<Sys>, es: seq<HttpSystem.Event>, m: nat, p: nat)
    requires HttpSystem.IsRun(c, t, es) && m <= |es| && p <= |es|
    requires |t[p].audit.phases| < |t[m].audit.phases|
    ensures p < m
    decreases p
  {
    if m < p {
      LogGrowsAt(c, t, es, p - 1);
      SubmittedBefore(c, t, es, m, p - 1);
    }
  }

  // ----- the guarantees -----

  /** The state in which a handler is started, from the invariant. */
  lemma StartState(c: Config, t: seq<Sys>, es: seq<HttpSystem.Event>, i: nat, r: nat)
    requires HttpSystem.IsRun(c, t, es) && i < |es|
    requires ReqAt(t[i + 1], r).started && !ReqAt(t[i], r).started
    ensures var q := ReqAt(t[i], r);
            && q.task.Permitting? && q.allowed == Some(q.task.w) && Delivers(t[i].audit, q.task.w)
            && q.aborted.None? && !t[i].door.closing && !t[i].disposed
  {
    OriginsAt(c, t, es, i, r);
    RunKeepsInv(c, t, es, i);
    assert ReqOk(t[i].audit, r, t[i].reqs[r]);
    assert r in t[i].active;
  }

  /** A schema is accepted only for a task that went through the gates. */
  lemma ParsedIsGated(c: Config, t: seq<Sys>, es: seq<HttpSystem.Event>, p: nat, r: nat)
    requires HttpSystem.IsRun(c, t, es) && p < |es| && es[p] == Acts(r, Parses(true))
    ensures ReqAt(t[p], r).gated
  {
    RunKeepsInv(c, t, es, p);
    assert HttpSystem.Enabled(t[p], es[p]);
    assert ReqOk(t[p].audit, r, t[p].reqs[r]);
  }

  /** A gate is passed only by a delivery whose `received` record has been acknowledged. */
  lemma InvokedIsReceived(c: Config, t: seq<Sys>, es: seq<HttpSystem.Event>, k: nat, r: nat, g: Gate) returns (n: nat)
    requires HttpSystem.IsRun(c, t, es) && k < |es| && es[k] == Acts(r, Invoke(g))
    ensures r < |t[k].reqs| && n < k && es[n] == SinkAccepts(t[k].reqs[r].first)
    ensures Wrote(t[k].audit, t[k].reqs[r].first, r, Received)
  {
    RunKeepsInv(c, t, es, k);
    assert HttpSystem.Enabled(t[k], es[k]);
    assert ReqOk(t[k].audit, r, t[k].reqs[r]);
    n := AckHistory(c, t, es, k, t[k].reqs[r].first);
  }

  /** A handler is started only after, in this order: the `received` record was acknowledged (`n`),
      the policy held and the input limits and every other gate passed (`k`), the schema passed (`p`),
      and the sink acknowledged the `allowed` record submitted then (`m`); at that moment the signal is
      not aborted and the runtime is not closing. */
  lemma HandlerStartsBehindGates(c: Config, t: seq<Sys>, es: seq<HttpSystem.Event>, i: nat, r: nat)
    returns (n: nat, g: Gate, k: nat, p: nat, m: nat)
    requires HttpSystem.IsRun(c, t, es) && i < |es|
    requires ReqAt(t[i + 1], r).started && !ReqAt(t[i], r).started
    ensures n < k < p < m < i
    ensures r < |t[k].reqs| && Wrote(t[k].audit, t[k].reqs[r].first, r, Received)
    ensures es[n] == SinkAccepts(t[k].reqs[r].first)
    ensures es[k] == Acts(r, Invoke(g)) && g == Gate(true, true, true, true, false)
    ensures !t[k].door.closing && |t[k].active| < c.maxConcurrent
    ensures es[p] == Acts(r, Parses(true))
    ensures es[m] == SinkAccepts(|t[p].audit.phases|)
    ensures ReqAt(t[i], r).aborted.None? && !t[i].door.closing && !t[i].disposed
  {
    StartState(c, t, es, i, r);
    var w := ReqAt(t[i], r).task.w;
    p := PermitHistory(c, t, es, i, r, w);
    m := AckHistory(c, t, es, i, w);
    SubmittedBefore(c, t, es, m, p);
    ParsedIsGated(c, t, es, p, r);
    k, g := GateHistory(c, t, es, p, r);
    n := InvokedIsReceived(c, t, es, k, r, g);
    RunKeepsInv(c, t, es, k);
  }

  /** A successful result reaches the client only after the sink acknowledged the `allowed` record
      (`m`), then the handler returned a value that is not an error and the outcome record was
      submitted (`h`), and then the sink acknowledged that one too (`n`). */
  lemma SuccessIsOnRecord(c: Config, t: seq<Sys>, es: seq<HttpSystem.Event>, i: nat, r: nat)
    returns (a: nat, o: nat, m: nat, h: nat, n: nat)
    requires HttpSystem.IsRun(c, t, es) && i <= |es| && r < |t[i].reqs|
    requires t[i].reqs[r].call == Answered(ResultSent)
    ensures m < h < n < i
    ensures es[m] == SinkAccepts(a) && Wrote(t[i].audit, a, r, Allowed)
    ensures es[h] == Acts(r, HandlerEnds(Value(false))) && o == |t[h].audit.events|
    ensures es[n] == SinkAccepts(o) && Wrote(t[i].audit, o, r, Outcome(false))
  {
    RunKeepsInv(c, t, es, i);
    var q := t[i].reqs[r];
    assert ReqOk(t[i].audit, r, q);
    o := q.outcome.value;
    h := R.WrittenOutcome(c, t, es, i, r, o, false);
    n := AckHistory(c, t, es, i, o);
    a, m := HandledIsAllowed(c, t, es, h, r);
    SubmittedBefore(c, t, es, n, h);
    AllowedStays(c, t, es, h, i, r);
  }

  /** While a handler runs, its `allowed` record has been acknowledged. */
  lemma HandledIsAllowed(c: Config, t: seq<Sys>, es: seq<HttpSystem.Event>, h: nat, r: nat) returns (a: nat, m: nat)
    requires HttpSystem.IsRun(c, t, es) && h < |es| && es[h].Acts? && es[h].r == r && es[h].action.HandlerEnds?
    ensures r < |t[h].reqs| && t[h].reqs[r].allowed == Some(a) && m < h && es[m] == SinkAccepts(a)
    ensures |t[h].audit.events| == |t[h].audit.phases|
  {
    RunKeepsInv(c, t, es, h);
    assert HttpSystem.Enabled(t[h], es[h]);
    assert ReqOk(t[h].audit, r, t[h].reqs[r]);
    a := t[h].reqs[r].allowed.value;
    m := AckHistory(c, t, es, h, a);
  }

  lemma AllowedStays(c: Config, t: seq<Sys>, es: seq<HttpSystem.Event>, h: nat, i: nat, r: nat)
    requires HttpSystem.IsRun(c, t, es) && h <= i <= |es| && r < |t[h].reqs| && t[h].reqs[r].allowed.Some?
    ensures r < |t[i].reqs| && Wrote(t[i].audit, t[h].reqs[r].allowed.value, r, Allowed)
  {
    RunKeepsInv(c, t, es, h);
    assert ReqOk(t[h].audit, r, t[h].reqs[r]);
    RecordsStayInRun(c, t, es, h, i, t[h].reqs[r].allowed.value);
  }

  /** An error reaches the client unchanged only if some record of the request other than
      `received`, `allowed` and `response` was acknowledged, under any race of the tool task's own
      record with a timeout or a cancellation. */
  lemma ErrorIsOnRecord(c: Config, t: seq<Sys>, es: seq<HttpSystem.Event>, i: nat, r: nat)
    returns (w: nat, n: nat)
    requires HttpSystem.IsRun(c, t, es) && i <= |es| && r < |t[i].reqs|
    requires t[i].reqs[r].call.Answered? && t[i].reqs[r].call.reply.ErrorSent?
    ensures n < i && es[n] == SinkAccepts(w)
    ensures w < |t[i].audit.events| && t[i].audit.events[w].owner == r
    ensures var k := t[i].audit.events[w].kind; k.Outcome? || k.Failure? || k.Protocol?
  {
    RunKeepsInv(c, t, es, i);
    assert ReqOk(t[i].audit, r, t[i].reqs[r]);
    w := t[i].reqs[r].call.reply.evidence;
    n := AckHistory(c, t, es, i, w);
  }

  // ----- one answer -----

  lemma ActKeepsAnswer(q: Req, a: Action, phases: seq<Phase>, live: set<nat>, next: nat, closing: bool, busy: bool)
    requires ShapeOk(q) && CanAct(q, a, phases) && q.call.Answered?
    ensures Act(q, a, phases, live, next, closing, busy).q.call == q.call
  {
  }

  lemma StepKeepsAnswer(s: Sys, e: HttpSystem.Event, r: nat)
    requires Inv(s) && HttpSystem.Enabled(s, e) && ReqAt(s, r).call.Answered?
    ensures ReqAt(HttpSystem.Next(s, e), r).call == ReqAt(s, r).call
  {
    if e.Acts? {
      var x, a := e.r, e.action;
      MoveTouchesOne(s, x, ActMove(s, x, a), a.TerminalSettles?, r);
      if x == r {
        assert ReqOk(s.audit, r, s.reqs[r]);
        ActKeepsAnswer(s.reqs[r], a, s.audit.phases, Live(s.audit, r), |s.audit.phases|, s.door.closing,
                       |s.active| >= s.config.maxConcurrent);
      }
    }
  }

  /** A call is answered once: whatever settles, times out or is aborted later, the answer stays. */
  lemma {:induction false} AnswerIsFinal(c: Config, t: seq<Sys>, es: seq<HttpSystem.Event>, i: nat, j: nat, r: nat)
    requires HttpSystem.IsRun(c, t, es) && i <= j <= |es| && ReqAt(t[i], r).call.Answered?
    ensures ReqAt(t[j], r).call == ReqAt(t[i], r).call
    decreases j
  {
    if i < j {
      AnswerIsFinal(c, t, es, i, j - 1, r);
      AnswerStays(c, t, es, j - 1, r);
    }
  }

  lemma AnswerStays(c: Config, t: seq<Sys>, es: seq<HttpSystem.Event>, i: nat, r: nat)
    requires HttpSystem.IsRun(c, t, es) && i < |es| && ReqAt(t[i], r).call.Answered?
    ensures ReqAt(t[i + 1], r).call == ReqAt(t[i], r).call
  {
    RunKeepsInv(c, t, es, i);
    StepKeepsAnswer(t[i], es[i], r);
  }

  // ----- the generic error -----

  predicate IsUnavailable(q: Req) {
    q.call == Answered(UnavailableSent)
  }

  lemma ActDenies(q: Req, a: Action, phases: seq<Phase>, live: set<nat>, next: nat, closing: bool, busy: bool)
    requires CanAct(q, a, phases) && !IsUnavailable(q)
    requires IsUnavailable(Act(q, a, phases, live, next, closing, busy).q)
    ensures q.call.Observing? && Settled(phases, q.call.w) && !Acknowledged(phases, q.call.w)
  {
  }

  lemma UnsettledIsLoss(d: Ledger<Tag>, w: nat)
    requires d.Valid() && w < |d.phases| && d.phases[w] != Racing && d.phases[w] != Delivered
    ensures !d.Healthy()
  {
    assert d.phases[w] in multiset(d.phases);
  }

  lemma MoveKeepsLoss(s: Sys, r: nat, m: Move, last: bool)
    requires r < |s.reqs| && (last ==> s.door.requests > 0) && !s.audit.Healthy()
    ensures !AfterAction(s, r, m, last).audit.Healthy()
  {
  }

  lemma LossStays(s: Sys, e: HttpSystem.Event)
    requires HttpSystem.Enabled(s, e) && !s.audit.Healthy()
    ensures !HttpSystem.Next(s, e).audit.Healthy()
  {
    if e.Acts? { MoveKeepsLoss(s, e.r, ActMove(s, e.r, e.action), e.action.TerminalSettles?); }
  }

  lemma StepDenies(s: Sys, e: HttpSystem.Event, r: nat)
    requires Inv(s) && HttpSystem.Enabled(s, e)
    requires !IsUnavailable(ReqAt(s, r)) && IsUnavailable(ReqAt(HttpSystem.Next(s, e), r))
    ensures !s.audit.Healthy()
  {
    if e.Acts? {
      var x, a := e.r, e.action;
      MoveTouchesOne(s, x, ActMove(s, x, a), a.TerminalSettles?, r);
      ActDenies(s.reqs[r], a, s.audit.phases, Live(s.audit, r), |s.audit.phases|, s.door.closing,
                |s.active| >= s.config.maxConcurrent);
      assert ReqOk(s.audit, r, s.reqs[r]);
      UnsettledIsLoss(s.audit, s.reqs[r].call.w);
    }
  }

  lemma DenialAt(c: Config, t: seq<Sys>, es: seq<HttpSystem.Event>, i: nat, r: nat)
    requires HttpSystem.IsRun(c, t, es) && i < |es|
    ensures !t[i].audit.Healthy() ==> !t[i + 1].audit.Healthy()
    ensures IsUnavailable(ReqAt(t[i + 1], r)) && !IsUnavailable(ReqAt(t[i], r)) ==> !t[i].audit.Healthy()
  {
    RunKeepsInv(c, t, es, i);
    if !t[i].audit.Healthy() {
      LossStays(t[i], es[i]);
    } else if IsUnavailable(ReqAt(t[i + 1], r)) && !IsUnavailable(ReqAt(t[i], r)) {
      StepDenies(t[i], es[i], r);
    }
  }

  /** The generic error takes the place of an answer only when records are being lost. */
  lemma {:induction false} UnavailableMeansLoss(c: Config, t: seq<Sys>, es: seq<HttpSystem.Event>, i: nat, r: nat)
    requires HttpSystem.IsRun(c, t, es) && i <= |es| && IsUnavailable(ReqAt(t[i], r))
    ensures !t[i].audit.Healthy()
  {
    DenialAt(c, t, es, i - 1, r);
    if IsUnavailable(ReqAt(t[i - 1], r)) { UnavailableMeansLoss(c, t, es, i - 1, r); }
  }
}
