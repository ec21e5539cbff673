/** The `AuditDispatcher` of src/audit.ts in its own form: a set of unsettled sink calls and three
    fields, changed by `deliver`, by the reactions of the promises it waits for, and by `close`.
    Every one of them is proved against Dispatch. */
module AuditDispatchers {
  import opened Dispatch

  predicate Waits(racing: set<nat>, phases: seq<Phase>) {
    && (forall w | w in racing :: w < |phases| && phases[w] == Racing)
    && (forall w | 0 <= w < |phases| && phases[w] == Racing :: w in racing)
  }

  lemma WaitsWithOneMore(racing: set<nat>, phases: seq<Phase>, p: Phase)
    requires Waits(racing, phases)
    ensures Waits(if p == Racing then racing + {|phases|} else racing, phases + [p])
  {
  }

  /** Sink calls are numbered by `works`; `racing` are the deliveries suspended at their race. */
  class AuditDispatcher<E> {
    const capacity: nat
    var pending: set<nat>
    var failures: nat
    var dropped: nat
    var sinkClosing: bool
    var racing: set<nat>
    ghost var events: seq<E>
    ghost var phases: seq<Phase>
    ghost var closeFailures: nat
    var works: nat

    ghost predicate Indexed()
      reads this
    {
      && works == |phases|
      && (forall w | w in pending :: w < works)
      && Waits(racing, phases)
    }

    ghost function View(): Ledger<E>
      reads this
    {
      Ledger(capacity, pending, events, phases, failures, dropped, closeFailures, if sinkClosing then 1 else 0)
    }

    constructor (slots: nat)
      ensures Indexed() && View() == Start<E>(slots)
    {
      capacity, pending, racing, failures, dropped, sinkClosing, works := slots, {}, {}, 0, 0, false, 0;
      events, phases, closeFailures := [], [], 0;
    }

    predicate Healthy()
      reads this
    {
      failures == 0 && dropped == 0
    }

    /** Refused without a sink call, or one more sink call with the id `w`. */
    method Deliver(event: E) returns (refused: bool, w: nat)
      requires Indexed()
      modifies this
      ensures Indexed() && View() == Submit(old(View()), event)
      ensures w == |old(phases)| && (refused <==> dropped > old(dropped))
    {
      w := works;
      refused := !Healthy() || |pending| >= capacity;
      if refused {
        Drop(event);
      } else {
        Begin(event);
      }
    }

    method Drop(ghost event: E)
      requires Indexed()
      modifies `dropped, `works, `phases, `events
      ensures Indexed() && dropped == old(dropped) + 1
      ensures phases == old(phases) + [Refused] && events == old(events) + [event]
    {
      WaitsWithOneMore(racing, phases, Refused);
      dropped, works := dropped + 1, works + 1;
      phases, events := phases + [Refused], events + [event];
    }

    method Begin(ghost event: E)
      requires Indexed()
      modifies `pending, `racing, `works, `phases, `events
      ensures Indexed() && pending == old(pending) + {|old(phases)|}
      ensures phases == old(phases) + [Racing] && events == old(events) + [event]
    {
      WaitsWithOneMore(racing, phases, Racing);
      pending, racing := pending + {works}, racing + {works};
      works := works + 1;
      phases, events := phases + [Racing], events + [event];
    }

    /** The sink call settles: its slot is freed first, then the race continues if it is still on. */
    method WorkSettles(w: nat, ok: bool)
      requires Indexed() && w in pending
      modifies this
      ensures Indexed() && View() == if ok then Resolve(old(View()), w) else Reject(old(View()), w)
    {
      pending := pending - {w};
      if w in racing {
        RaceEnds(w, ok);
      }
    }

    /** The timer wins; the sink call keeps its slot. */
    method TimerFires(w: nat)
      requires Indexed() && w in racing
      modifies this
      ensures Indexed() && View() == Expire(old(View()), w)
    {
      RaceEnds(w, false);
    }

    method RaceEnds(w: nat, ok: bool)
      requires w in racing && w < |phases|
      modifies `racing, `failures, `phases
      ensures racing == old(racing) - {w} && phases == old(phases)[w := if ok then Delivered else Failed]
      ensures failures == old(failures) + if ok then 0 else 1
    {
      racing := racing - {w};
      if !ok {
        failures := failures + 1;
      }
      phases := phases[w := if ok then Delivered else Failed];
    }

    /** `close`, once the slots are free or its time is over. */
    method CloseSinkOnce() returns (remaining: nat, called: bool)
      requires Indexed()
      modifies this
      ensures Indexed() && View() == CallHook(old(View()))
      ensures remaining == |pending| && (called <==> old(View()).hookCalls == 0)
    {
      remaining := |pending|;
      called := !sinkClosing;
      sinkClosing := true;
    }

    /** The close hook fails or its time is over. */
    method CloseFails()
      requires Indexed() && sinkClosing
      modifies this
      ensures Indexed() && View() == HookFails(old(View()))
    {
      failures := failures + 1;
      closeFailures := closeFailures + 1;
    }
  }
}
