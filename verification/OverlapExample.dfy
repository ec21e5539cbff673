/** Three runs under any valid configuration: one request that needs all of its three slots, one whose
    scope gains a record while it is being drained, and one whose tool call is carried out. */
module OverlapExample {
  import opened Wrappers
  import opened Dispatch
  import opened RequestProgram
  import opened HttpSystem
  import FrontDoor

  const POST_MCP := FrontDoor.Head(true, true, FrontDoor.NoOrigin, FrontDoor.Mcp, FrontDoor.Post, true)

  predicate Allowing(c: Config) {
    c.maxConcurrent >= 1 && c.maxPending >= 3
  }

  /** The front door after the one arrival has been admitted. */
  function AloneDoor(c: Config): FrontDoor.Door
    requires Allowing(c)
  {
    FrontDoor.Verified(FrontDoor.Arrive(FrontDoor.Opened(), POST_MCP, c.maxConcurrent), 0, FrontDoor.Admit)
  }

  /** The runtime with one admitted request `q` and nothing lost. */
  function Alone(c: Config, q: Req, pending: set<nat>, events: seq<Tag>, phases: seq<Phase>): Sys
    requires Allowing(c)
  {
    Sys(c, AloneDoor(c), Ledger(c.maxPending, pending, events, phases, 0, 0, 0, 0),
        [q], if Running(q.task) then {0} else {}, {0}, Up, false)
  }

  predicate Leads(a: Sys, e: HttpSystem.Event, b: Sys) {
    HttpSystem.Enabled(a, e) && HttpSystem.Next(a, e) == b
  }

  /** A step of the one request, with `live` as its scope. */
  function AloneMove(q: Req, a: Action, phases: seq<Phase>, live: set<nat>): Move
    requires CanAct(q, a, phases)
  {
    Act(q, a, phases, live, |phases|, false, Running(q.task))
  }

  predicate Ordinary(c: Config, q: Req, a: Action, phases: seq<Phase>) {
    CanAct(q, a, phases) && !a.TerminalSettles? && (a.Invoke? ==> c.maxConcurrent >= 1 && !Running(q.task))
  }

  lemma BusyMatters(q: Req, a: Action, phases: seq<Phase>, live: set<nat>, busy: bool)
    requires CanAct(q, a, phases) && !a.Invoke?
    ensures Act(q, a, phases, live, |phases|, false, busy) == AloneMove(q, a, phases, live)
  {
  }

  lemma AloneActs(c: Config, q: Req, a: Action, pending: set<nat>, events: seq<Tag>, phases: seq<Phase>)
    requires Allowing(c) && Ordinary(c, q, a, phases)
    ensures var s := Alone(c, q, pending, events, phases);
            ActMove(s, 0, a) == AloneMove(q, a, phases, Live(s.audit, 0))
  {
    var s := Alone(c, q, pending, events, phases);
    if !a.Invoke? { BusyMatters(q, a, phases, Live(s.audit, 0), |s.active| >= c.maxConcurrent); }
  }

  lemma AloneKeepsQuiet(c: Config, q: Req, a: Action, pending: set<nat>, events: seq<Tag>, phases: seq<Phase>)
    requires Allowing(c) && Ordinary(c, q, a, phases)
    requires AloneMove(q, a, phases, Live(Alone(c, q, pending, events, phases).audit, 0)).wrote.None?
    ensures Leads(Alone(c, q, pending, events, phases), Acts(0, a),
                  Alone(c, AloneMove(q, a, phases, Live(Alone(c, q, pending, events, phases).audit, 0)).q,
                        pending, events, phases))
  {
    AloneActs(c, q, a, pending, events, phases);
  }

  lemma AloneWrites(c: Config, q: Req, a: Action, k: Kind, pending: set<nat>, events: seq<Tag>, phases: seq<Phase>)
    requires Allowing(c) && Ordinary(c, q, a, phases)
    requires AloneMove(q, a, phases, Live(Alone(c, q, pending, events, phases).audit, 0)).wrote == Some(k)
    requires |pending| < 3
    ensures Leads(Alone(c, q, pending, events, phases), Acts(0, a),
                  Alone(c, AloneMove(q, a, phases, Live(Alone(c, q, pending, events, phases).audit, 0)).q,
                        pending + {|phases|}, events + [Tag(0, k)], phases + [Racing]))
  {
    AloneActs(c, q, a, pending, events, phases);
  }

  lemma AloneAccepts(c: Config, q: Req, w: nat, pending: set<nat>, events: seq<Tag>, phases: seq<Phase>)
    requires Allowing(c) && w in pending && w < |phases| && phases[w] == Racing
    ensures Leads(Alone(c, q, pending, events, phases), SinkAccepts(w),
                  Alone(c, q, pending - {w}, events, phases[w := Delivered]))
  {
  }

  // ----- a run, one event at a time -----

  ghost predicate Reached(c: Config, t: seq<Sys>, es: seq<HttpSystem.Event>, s: Sys) {
    HttpSystem.IsRun(c, t, es) && t[|es|] == s
  }

  lemma Further(c: Config, t: seq<Sys>, es: seq<HttpSystem.Event>, s: Sys, e: HttpSystem.Event, next: Sys)
    requires Reached(c, t, es, s) && Leads(s, e, next)
    ensures Reached(c, t + [next], es + [e], next)
  {
    var more, u := es + [e], t + [next];
    forall i {:trigger more[i]} | 0 <= i < |more|
      ensures HttpSystem.Enabled(u[i], more[i]) && u[i + 1] == HttpSystem.Next(u[i], more[i])
    {
      if i < |es| { assert more[i] == es[i]; }
    }
  }

  lemma Quietly(c: Config, t: seq<Sys>, es: seq<HttpSystem.Event>, q: Req, a: Action, to: Req,
                pending: set<nat>, events: seq<Tag>, phases: seq<Phase>)
    returns (t': seq<Sys>, es': seq<HttpSystem.Event>)
    requires Allowing(c) && Ordinary(c, q, a, phases) && Reached(c, t, es, Alone(c, q, pending, events, phases))
    requires AloneMove(q, a, phases, Live(Alone(c, q, pending, events, phases).audit, 0)) == Move(to, None)
    ensures Reached(c, t', es', Alone(c, to, pending, events, phases))
    ensures t' == t + [Alone(c, to, pending, events, phases)] && es' == es + [Acts(0, a)]
  {
    var s, s' := Alone(c, q, pending, events, phases), Alone(c, to, pending, events, phases);
    AloneKeepsQuiet(c, q, a, pending, events, phases);
    Further(c, t, es, s, Acts(0, a), s');
    t', es' := t + [s'], es + [Acts(0, a)];
  }

  lemma Writing(c: Config, t: seq<Sys>, es: seq<HttpSystem.Event>, q: Req, a: Action, to: Req, k: Kind,
                pending: set<nat>, events: seq<Tag>, phases: seq<Phase>)
    returns (t': seq<Sys>, es': seq<HttpSystem.Event>)
    requires Allowing(c) && Ordinary(c, q, a, phases) && Reached(c, t, es, Alone(c, q, pending, events, phases))
    requires AloneMove(q, a, phases, Live(Alone(c, q, pending, events, phases).audit, 0)) == Move(to, Some(k))
    requires |pending| < 3
    ensures Reached(c, t', es', Alone(c, to, pending + {|phases|}, events + [Tag(0, k)], phases + [Racing]))
    ensures t' == t + [Alone(c, to, pending + {|phases|}, events + [Tag(0, k)], phases + [Racing])]
    ensures es' == es + [Acts(0, a)]
  {
    var s := Alone(c, q, pending, events, phases);
    var s' := Alone(c, to, pending + {|phases|}, events + [Tag(0, k)], phases + [Racing]);
    AloneWrites(c, q, a, k, pending, events, phases);
    Further(c, t, es, s, Acts(0, a), s');
    t', es' := t + [s'], es + [Acts(0, a)];
  }

  // ----- a tool call whose `allowed` record is in flight when it is cancelled -----

  const Q_SERVING := Admitted(0).(main := Serving)
  const Q_QUEUED := Q_SERVING.(task := Queued, call := Invoking, gated := true)
  const Q_PARSING := Q_QUEUED.(task := Parsing)
  const Q_PERMITTING := Q_PARSING.(task := Permitting(1), parsed := true, allowed := Some(1))
  const Q_ABORTED := Q_PERMITTING.(aborted := Some(Cancelled))

  const E1: seq<Tag> := [Tag(0, Received)]
  const E2: seq<Tag> := E1 + [Tag(0, Allowed)]
  const E3: seq<Tag> := E2 + [Tag(0, Failure(Cancelled))]
  const P2: seq<Phase> := [Delivered] + [Racing]

  lemma Opening(c: Config) returns (t: seq<Sys>, es: seq<HttpSystem.Event>)
    requires Allowing(c)
    ensures Reached(c, t, es, Alone(c, Admitted(0), {}, E1, [Delivered]))
  {
    var s0 := Boot(c);
    var s1 := HttpSystem.Next(s0, Arrives(POST_MCP));
    var s2 := Alone(c, Admitted(0), {0}, E1, [Racing]);
    AloneAccepts(c, Admitted(0), 0, {0}, E1, [Racing]);
    assert {0} - {0} == {} && [Racing][0 := Delivered] == [Delivered];
    assert Leads(s1, Verifies(0, true, false), s2) by { Admits(c, s1, s2); }
    var s3 := Alone(c, Admitted(0), {}, E1, [Delivered]);
    t, es := [s0], [];
    Further(c, [s0], [], s0, Arrives(POST_MCP), s1);
    Further(c, [s0] + [s1], [] + [Arrives(POST_MCP)], s1, Verifies(0, true, false), s2);
    Further(c, [s0] + [s1] + [s2], [] + [Arrives(POST_MCP)] + [Verifies(0, true, false)], s2, SinkAccepts(0), s3);
    t, es := [s0] + [s1] + [s2] + [s3], [] + [Arrives(POST_MCP)] + [Verifies(0, true, false)] + [SinkAccepts(0)];
  }

  lemma Admits(c: Config, s1: Sys, s2: Sys)
    requires Allowing(c) && s1 == HttpSystem.Next(Boot(c), Arrives(POST_MCP))
    requires s2 == Alone(c, Admitted(0), {0}, E1, [Racing])
    ensures Leads(s1, Verifies(0, true, false), s2)
  {
    assert s1.door == FrontDoor.Arrive(FrontDoor.Opened(), POST_MCP, c.maxConcurrent);
    assert s1.door.fates == [FrontDoor.Verifying];
    assert VerdictNow(s1, true, false) == FrontDoor.Admit;
    assert {} + {0} == {0} && [] + [Tag(0, Received)] == E1;
  }

  lemma Queueing(c: Config) returns (t: seq<Sys>, es: seq<HttpSystem.Event>)
    requires Allowing(c)
    ensures Reached(c, t, es, Alone(c, Q_QUEUED, {}, E1, [Delivered]))
  {
    t, es := Opening(c);
    t, es := Quietly(c, t, es, Admitted(0), ReceivedSettles(false), Q_SERVING, {}, E1, [Delivered]);
    t, es := Quietly(c, t, es, Q_SERVING, Invoke(Gate(true, true, true, true, false)), Q_QUEUED, {}, E1, [Delivered]);
  }

  lemma Permitting1(c: Config) returns (t: seq<Sys>, es: seq<HttpSystem.Event>)
    requires Allowing(c)
    ensures Reached(c, t, es, Alone(c, Q_PERMITTING, {} + {1}, E2, P2))
  {
    t, es := Queueing(c);
    t, es := Quietly(c, t, es, Q_QUEUED, TaskStarts, Q_PARSING, {}, E1, [Delivered]);
    t, es := Writing(c, t, es, Q_PARSING, Parses(true), Q_PERMITTING, Allowed, {}, E1, [Delivered]);
  }

  lemma Cancelling(c: Config) returns (t: seq<Sys>, es: seq<HttpSystem.Event>)
    requires Allowing(c)
    ensures Reached(c, t, es, Alone(c, Q_ABORTED, {} + {1}, E2, P2))
  {
    t, es := Permitting1(c);
    t, es := Quietly(c, t, es, Q_PERMITTING, Abort(Cancelled), Q_ABORTED, {} + {1}, E2, P2);
  }

  // ----- three slots for one request -----

  const Q_REPORTING := Q_ABORTED.(call := Reporting(2))
  const Q_FULL := Q_REPORTING.(prepared := Preparing(3))

  /** Three slots for one request are not too many: under every valid configuration some healthy run
      has one request that fills three. */
  lemma ThreeAreNeeded(c: Config) returns (t: seq<Sys>, es: seq<HttpSystem.Event>)
    requires Allowing(c)
    ensures HttpSystem.IsRun(c, t, es)
    ensures t[|es|].audit.Healthy() && |t[|es|].reqs| == 1 && Live(t[|es|].audit, 0) == {1, 2, 3}
  {
    t, es := Cancelling(c);
    t, es := Writing(c, t, es, Q_ABORTED, RunRejects, Q_REPORTING, Failure(Cancelled), {} + {1}, E2, P2);
    t, es := Writing(c, t, es, Q_REPORTING, Prepares, Q_FULL, Response, {} + {1} + {2}, E3, P2 + [Racing]);
  }

  // ----- a record begun while its scope is drained -----

  const Q_CLOSED := Q_ABORTED.(closed := true)
  const Q_ENDED := Q_CLOSED.(main := Ended)
  const Q_DRAINING := Q_ENDED.(term := Draining({1}))
  const Q_JOINED := Q_DRAINING.(call := Reporting(2))
  const Q_AGAIN := Q_JOINED.(term := Draining({2}))

  /** The adapter has ended and `settle` is waiting for the `allowed` record. */
  lemma Draining1(c: Config) returns (t: seq<Sys>, es: seq<HttpSystem.Event>)
    requires Allowing(c)
    ensures Reached(c, t, es, Alone(c, Q_DRAINING, {} + {1}, E2, P2))
  {
    t, es := Cancelling(c);
    t, es := Quietly(c, t, es, Q_ABORTED, ResponseCloses, Q_CLOSED, {} + {1}, E2, P2);
    t, es := Quietly(c, t, es, Q_CLOSED, AdapterEnds, Q_ENDED, {} + {1}, E2, P2);
    assert Live(Alone(c, Q_ENDED, {} + {1}, E2, P2).audit, 0) == {1};
    t, es := Quietly(c, t, es, Q_ENDED, DrainBegins, Q_DRAINING, {} + {1}, E2, P2);
  }

  /** The cancellation record joins the scope that is being drained (it does not exist at `k`), and
      when the record waited for has settled, `settle` finds it there and waits again (at `i`). */
  lemma DescendantIsAwaited(c: Config) returns (t: seq<Sys>, es: seq<HttpSystem.Event>, k: nat, i: nat)
    requires Allowing(c)
    ensures HttpSystem.IsRun(c, t, es) && k < i < |es| && t[i].audit.Healthy()
    ensures |t[k].reqs| == 1 && t[k].reqs[0].term == Draining({1}) && |t[k].audit.events| == 2
    ensures |t[i].audit.events| == 3 && |t[i + 1].reqs| == 1
    ensures es[i] == Acts(0, DrainRound) && Live(t[i].audit, 0) == {2}
    ensures t[i].audit.events[2] == Tag(0, Failure(Cancelled)) && t[i + 1].reqs[0].term == Draining({2})
  {
    t, es := Draining1(c);
    k := |es|;
    t, es := Writing(c, t, es, Q_DRAINING, RunRejects, Q_JOINED, Failure(Cancelled), {} + {1}, E2, P2);
    var s := Alone(c, Q_JOINED, {} + {1} + {2}, E3, P2 + [Racing]);
    var p, phases := {} + {1} + {2} - {1}, (P2 + [Racing])[1 := Delivered];
    AloneAccepts(c, Q_JOINED, 1, {} + {1} + {2}, E3, P2 + [Racing]);
    Further(c, t, es, s, SinkAccepts(1), Alone(c, Q_JOINED, p, E3, phases));
    t, es := t + [Alone(c, Q_JOINED, p, E3, phases)], es + [SinkAccepts(1)];
    assert Live(Alone(c, Q_JOINED, p, E3, phases).audit, 0) == {2};
    i := |es|;
    t, es := Quietly(c, t, es, Q_JOINED, DrainRound, Q_AGAIN, p, E3, phases);
  }

  // ----- a tool call to its end -----

  lemma Accepted(c: Config, t: seq<Sys>, es: seq<HttpSystem.Event>, q: Req, w: nat,
                 pending: set<nat>, events: seq<Tag>, phases: seq<Phase>)
    returns (t': seq<Sys>, es': seq<HttpSystem.Event>)
    requires Allowing(c) && w in pending && w < |phases| && phases[w] == Racing
    requires Reached(c, t, es, Alone(c, q, pending, events, phases))
    ensures Reached(c, t', es', Alone(c, q, pending - {w}, events, phases[w := Delivered]))
  {
    var s, s' := Alone(c, q, pending, events, phases), Alone(c, q, pending - {w}, events, phases[w := Delivered]);
    AloneAccepts(c, q, w, pending, events, phases);
    Further(c, t, es, s, SinkAccepts(w), s');
    t', es' := t + [s'], es + [SinkAccepts(w)];
  }

  const Q_HANDLING := Q_PERMITTING.(task := Handling, started := true)

  lemma Handling1(c: Config) returns (t: seq<Sys>, es: seq<HttpSystem.Event>)
    requires Allowing(c)
    ensures Reached(c, t, es, Alone(c, Q_HANDLING, {}, E2, [Delivered, Delivered]))
  {
    t, es := Permitting1(c);
    t, es := Accepted(c, t, es, Q_PERMITTING, 1, {} + {1}, E2, P2);
    assert {} + {1} - {1} == {} && P2[1 := Delivered] == [Delivered, Delivered];
    t, es := Quietly(c, t, es, Q_PERMITTING, PermitSettles, Q_HANDLING, {}, E2, [Delivered, Delivered]);
  }

  function Concluded(isError: bool): Req {
    Q_HANDLING.(task := Concluding(2, isError), outcome := Some(2))
  }

  function Finished1(isError: bool): Req {
    Concluded(isError).(task := Finished, recorded := Some(2), call := Returned(isError))
  }

  const P3: seq<Phase> := [Delivered, Delivered, Delivered]

  lemma Concluding1(c: Config, isError: bool) returns (t: seq<Sys>, es: seq<HttpSystem.Event>)
    requires Allowing(c)
    ensures Reached(c, t, es, Alone(c, Finished1(isError), {}, E2 + [Tag(0, Outcome(isError))], P3))
  {
    var events, phases := E2 + [Tag(0, Outcome(isError))], [Delivered, Delivered] + [Racing];
    t, es := Handling1(c);
    t, es := Writing(c, t, es, Q_HANDLING, HandlerEnds(Value(isError)), Concluded(isError), Outcome(isError),
                     {}, E2, [Delivered, Delivered]);
    t, es := Accepted(c, t, es, Concluded(isError), 2, {} + {2}, events, phases);
    assert {} + {2} - {2} == {} && phases[2 := Delivered] == P3;
    t, es := Quietly(c, t, es, Concluded(isError), OutcomeSettles, Finished1(isError), {}, events, P3);
  }

  /** Under every valid configuration some healthy run ends with the value of a handler sent to the
      client, an error or not. */
  lemma CallsCanBeAnswered(c: Config, isError: bool) returns (t: seq<Sys>, es: seq<HttpSystem.Event>)
    requires Allowing(c)
    ensures HttpSystem.IsRun(c, t, es) && t[|es|].audit.Healthy() && |t[|es|].reqs| == 1
    ensures t[|es|].reqs[0].call == Answered(if isError then ErrorSent(2) else ResultSent)
    ensures t[|es|].audit.events == [Tag(0, Received), Tag(0, Allowed), Tag(0, Outcome(isError))]
    ensures t[|es|].audit.phases == [Delivered, Delivered, Delivered]
  {
    t, es := Concluding1(c, isError);
    var to := Finished1(isError).(call := Answered(if isError then ErrorSent(2) else ResultSent));
    t, es := Quietly(c, t, es, Finished1(isError), Sends, to, {}, E2 + [Tag(0, Outcome(isError))], P3);
  }
}
