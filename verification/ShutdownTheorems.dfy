/** What shutdown guarantees, over every run: nothing begins once it has begun, disposers run only
    when no tool task is left, and the sink is closed after the last terminal record. */
module ShutdownTheorems {
  import opened Dispatch
  import opened RequestProgram
  import opened HttpSystem
  import opened RequestInvariant
  import opened HttpInvariant
  import opened Runs
  import opened Wrappers

  /** From `a` to `b` no request was admitted, no operation began and no handler was started. */
  ghost predicate NoneBegins(a: seq<Req>, b: seq<Req>) {
    && |a| == |b|
    && forall r | 0 <= r < |a| ::
         && (b[r].started ==> a[r].started)
         && (Running(b[r].task) ==> Running(a[r].task))
         && (b[r].task.Parsing? ==> a[r].task.Parsing?)
         && (b[r].task.Handling? ==> a[r].task.Handling?)
  }

  lemma ActBeginsNothing(q: Req, a: Action, phases: seq<Phase>, live: set<nat>, next: nat, busy: bool)
    requires CanAct(q, a, phases) && (Running(q.task) ==> q.aborted.Some?)
    ensures var q' := Act(q, a, phases, live, next, true, busy).q;
            && (q'.started ==> q.started)
            && (q'.task.Handling? ==> q.task.Handling?)
  {
  }

  lemma ActRunsNothing(q: Req, a: Action, phases: seq<Phase>, live: set<nat>, next: nat, busy: bool)
    requires CanAct(q, a, phases) && (Running(q.task) ==> q.aborted.Some?)
    ensures var q' := Act(q, a, phases, live, next, true, busy).q;
            && (Running(q'.task) ==> Running(q.task))
            && (q'.task.Parsing? ==> q.task.Parsing?)
  {
  }

  lemma MoveBeginsNothing(s: Sys, r: nat, m: Move, last: bool)
    requires r < |s.reqs| && (last ==> s.door.requests > 0)
    requires NoneBegins([s.reqs[r]], [m.q])
    ensures NoneBegins(s.reqs, AfterAction(s, r, m, last).reqs)
    ensures AfterAction(s, r, m, last).door.closing == s.door.closing
  {
    assert [s.reqs[r]][0] == s.reqs[r] && [m.q][0] == m.q;
  }

  lemma ActsBeginNothing(s: Sys, r: nat, a: Action)
    requires Inv(s) && HttpSystem.Enabled(s, Acts(r, a)) && s.door.closing
    ensures HttpSystem.Next(s, Acts(r, a)).door.closing
    ensures NoneBegins(s.reqs, HttpSystem.Next(s, Acts(r, a)).reqs)
  {
    ActBeginsNothing(s.reqs[r], a, s.audit.phases, Live(s.audit, r), |s.audit.phases|,
                     |s.active| >= s.config.maxConcurrent);
    ActRunsNothing(s.reqs[r], a, s.audit.phases, Live(s.audit, r), |s.audit.phases|,
                   |s.active| >= s.config.maxConcurrent);
    MoveBeginsNothing(s, r, ActMove(s, r, a), a.TerminalSettles?);
  }

  lemma ClosedStep(s: Sys, e: HttpSystem.Event)
    requires Inv(s) && HttpSystem.Enabled(s, e) && s.door.closing
    ensures HttpSystem.Next(s, e).door.closing
    ensures NoneBegins(s.reqs, HttpSystem.Next(s, e).reqs)
  {
    if e.Acts? { ActsBeginNothing(s, e.r, e.action); }
  }

  lemma ClosedAt(c: Config, t: seq<Sys>, es: seq<HttpSystem.Event>, i: nat)
    requires HttpSystem.IsRun(c, t, es) && i < |es| && t[i].door.closing
    ensures t[i + 1].door.closing && NoneBegins(t[i].reqs, t[i + 1].reqs)
  {
    RunKeepsInv(c, t, es, i);
    ClosedStep(t[i], es[i]);
  }

  /** After `close` has begun: no admission, no operation and no handler begins, ever. In
      particular the list of terminals taken during shutdown misses no request. */
  lemma {:induction false} NothingBeginsAfterClose(c: Config, t: seq<Sys>, es: seq<HttpSystem.Event>, i: nat, j: nat)
    requires HttpSystem.IsRun(c, t, es) && i <= j <= |es| && t[i].door.closing
    ensures t[j].door.closing && NoneBegins(t[i].reqs, t[j].reqs)
    decreases j
  {
    if i < j {
      NothingBeginsAfterClose(c, t, es, i, j - 1);
      ClosedAt(c, t, es, j - 1);
    }
  }

  /** The sink's close hook is called, at most once, when no place is in use, every admitted
      request has settled its terminal record and no delivery at all is unsettled. */
  lemma SinkClosesLast(c: Config, t: seq<Sys>, es: seq<HttpSystem.Event>, i: nat)
    requires HttpSystem.IsRun(c, t, es) && i < |es| && es[i] == SinkCloses
    ensures t[i].door.requests == 0 && t[i].door.closing && t[i].audit.hookCalls == 0
    ensures forall r | 0 <= r < |t[i].reqs| :: t[i].reqs[r].term.Done?
    ensures forall w | 0 <= w < |t[i].audit.phases| :: t[i].audit.phases[w] != Racing
  {
    RunKeepsInv(c, t, es, i);
    var s := t[i];
    assert HttpSystem.Enabled(s, es[i]);
    forall w | 0 <= w < |s.audit.phases| ensures s.audit.phases[w] != Racing {
      var r := s.audit.events[w].owner;
      assert ReqOk(s.audit, r, s.reqs[r]);
      assert s.reqs[r].term.Done?;
    }
  }

  /** Disposers run only when no tool task is unsettled, and from then on none ever is: no handler
      uses a disposed resource. */
  lemma DisposalIsFinal(c: Config, t: seq<Sys>, es: seq<HttpSystem.Event>, i: nat, j: nat, r: nat)
    requires HttpSystem.IsRun(c, t, es) && i <= j <= |es| && t[i].disposed
    ensures t[i].active == {} && t[j].active == {}
    ensures r < |t[j].reqs| ==> !Running(t[j].reqs[r].task) && !t[j].reqs[r].task.Handling?
  {
    RunKeepsInv(c, t, es, i);
    RunKeepsInv(c, t, es, j);
    NothingBeginsAfterClose(c, t, es, i, j);
    assert t[j].active <= t[i].active;
  }

  /** The controller's `active` is exactly the set of tool tasks that have not settled, whether or
      not anybody still waits for them, and it never exceeds the configured concurrency. */
  lemma ActiveIsUnsettled(c: Config, t: seq<Sys>, es: seq<HttpSystem.Event>, i: nat)
    requires HttpSystem.IsRun(c, t, es) && i <= |es|
    ensures t[i].active == set r | 0 <= r < |t[i].reqs| && Running(t[i].reqs[r].task)
    ensures |t[i].active| <= c.maxConcurrent
    ensures forall r | 0 <= r < |t[i].reqs| && Running(t[i].reqs[r].task) && !t[i].reqs[r].call.Invoking? ::
              t[i].reqs[r].aborted.Some?
  {
    RunKeepsInv(c, t, es, i);
    forall r | 0 <= r < |t[i].reqs| && Running(t[i].reqs[r].task) && !t[i].reqs[r].call.Invoking?
      ensures t[i].reqs[r].aborted.Some?
    {
      assert ReqOk(t[i].audit, r, t[i].reqs[r]);
    }
  }

  // ----- what each step of shutdown does -----

  /** `close` turns arrivals away and aborts exactly the operations in progress; a call that was aborted
      before keeps its reason, and nothing else about any request changes. */
  lemma CloseAborts(c: Config, t: seq<Sys>, es: seq<HttpSystem.Event>, i: nat)
    requires HttpSystem.IsRun(c, t, es) && i < |es| && es[i].CloseBegins?
    ensures !t[i].door.closing && t[i + 1].door == t[i].door.(closing := true)
    ensures |t[i + 1].reqs| == |t[i].reqs| && t[i + 1].audit == t[i].audit
    ensures forall r | 0 <= r < |t[i].reqs| ::
              var q := t[i].reqs[r];
              t[i + 1].reqs[r] ==
                if Running(q.task) && q.aborted.None? then q.(aborted := Some(ShuttingDown)) else q
  {
    RunKeepsInv(c, t, es, i);
    assert t[i + 1] == HttpSystem.Next(t[i], es[i]);
  }

  predicate Drained(s: Sys) {
    !s.shutdown.Up? && !s.shutdown.DrainingTools?
  }

  predicate Remembers(s: Sys, n: nat) {
    s.shutdown.Stopping? || s.shutdown.AwaitingTerminals? ==> s.shutdown.remaining == n
  }

  lemma MoveLeavesShutdown(s: Sys, r: nat, m: Move, last: bool)
    requires r < |s.reqs| && (last ==> s.door.requests > 0)
    ensures AfterAction(s, r, m, last).shutdown == s.shutdown
  {
  }

  lemma StepDrains(s: Sys, e: HttpSystem.Event)
    requires HttpSystem.Enabled(s, e)
    ensures !Drained(s) && Drained(HttpSystem.Next(s, e)) ==>
              e.ToolsDrain? && Remembers(HttpSystem.Next(s, e), |s.active|)
    ensures Drained(s) ==> Drained(HttpSystem.Next(s, e))
    ensures Drained(s) ==> forall n | Remembers(s, n) :: Remembers(HttpSystem.Next(s, e), n)
  {
    if e.Acts? { MoveLeavesShutdown(s, e.r, ActMove(s, e.r, e.action), e.action.TerminalSettles?); }
  }

  lemma StepDrainsAt(c: Config, t: seq<Sys>, es: seq<HttpSystem.Event>, i: nat)
    requires HttpSystem.IsRun(c, t, es) && i < |es|
    ensures !Drained(t[i]) && Drained(t[i + 1]) ==> es[i].ToolsDrain? && Remembers(t[i + 1], |t[i].active|)
    ensures Drained(t[i]) ==> Drained(t[i + 1])
    ensures Drained(t[i]) ==> forall n | Remembers(t[i], n) :: Remembers(t[i + 1], n)
  {
    StepDrains(t[i], es[i]);
  }

  lemma {:induction false} StillRemembers(c: Config, t: seq<Sys>, es: seq<HttpSystem.Event>, i: nat, j: nat, n: nat)
    requires HttpSystem.IsRun(c, t, es) && i <= j <= |es| && Drained(t[i]) && Remembers(t[i], n)
    ensures Drained(t[j]) && Remembers(t[j], n)
    decreases j
  {
    if i < j {
      StillRemembers(c, t, es, i, j - 1, n);
      StepDrainsAt(c, t, es, j - 1);
    }
  }

  /** Disposers run if and only if no operation was in progress when the drain of the execution
      controller ended (`k`): neither sooner nor never. */
  lemma DisposesIff(c: Config, t: seq<Sys>, es: seq<HttpSystem.Event>, i: nat) returns (k: nat)
    requires HttpSystem.IsRun(c, t, es) && i < |es| && es[i].TerminalsSettle?
    ensures k < i && es[k].ToolsDrain?
    ensures t[i + 1].disposed <==> t[k].active == {}
  {
    assert HttpSystem.Enabled(t[i], es[i]) && t[i + 1] == HttpSystem.Next(t[i], es[i]);
    k := Turn(seq(|t|, j requires 0 <= j < |t| => Drained(t[j])), i);
    StepDrainsAt(c, t, es, k);
    StillRemembers(c, t, es, k + 1, i, |t[k].active|);
  }

  /** The close hook is called then, and a failing one is one failure more. */
  lemma HookIsCalled(c: Config, t: seq<Sys>, es: seq<HttpSystem.Event>, i: nat)
    requires HttpSystem.IsRun(c, t, es) && i < |es|
    ensures es[i].SinkCloses? ==> t[i].audit.hookCalls == 0 && t[i + 1].audit == t[i].audit.(hookCalls := 1)
    ensures es[i].CloseEnds? && es[i].ok ==> t[i + 1].audit == t[i].audit
    ensures es[i].CloseEnds? && !es[i].ok ==>
              t[i + 1].audit.failures == t[i].audit.failures + 1 && t[i + 1].audit.phases == t[i].audit.phases
  {
    RunKeepsInv(c, t, es, i);
    assert t[i + 1] == HttpSystem.Next(t[i], es[i]);
  }
}
