/** The `ExecutionController` of src/execution.ts in its own form: a set of entries, each with an
    abort controller that keeps its first reason, proved against the state machine of the runtime. */
module ExecutionControllers {
  import opened Wrappers
  import opened RequestProgram
  import opened HttpSystem

  /** One operation in progress; `id` is the request that runs it. */
  class Entry {
    const id: nat
    var reason: Option<Code>

    constructor (request: nat)
      ensures id == request && reason == None
    {
      id, reason := request, None;
    }

    /** A second abort does not change the reason. */
    method Abort(code: Code)
      modifies this
      ensures reason == if old(reason).None? then Some(code) else old(reason)
    {
      if reason.None? {
        reason := Some(code);
      }
    }
  }

  ghost predicate Mirrors(e: Entry, s: Sys)
    reads e
  {
    e.id < |s.reqs| && e.reason == s.reqs[e.id].aborted
  }

  ghost predicate Stands(entries: set<Entry>, entryOf: map<nat, Entry>, s: Sys)
    reads entries
  {
    && entryOf.Keys == s.active
    && (forall e | e in entries :: e.id in entryOf && entryOf[e.id] == e && Mirrors(e, s))
    && (forall r | r in entryOf :: entryOf[r] in entries && entryOf[r].id == r)
  }

  class ExecutionController {
    const maxConcurrent: nat
    var active: set<Entry>
    var closing: bool
    /** The entry of each request that has one. */
    ghost var entryOf: map<nat, Entry>

    constructor (limit: nat)
      ensures maxConcurrent == limit && active == {} && !closing && entryOf == map[]
    {
      maxConcurrent, active, closing, entryOf := limit, {}, false, map[];
    }

    /** The entries are the runtime's unsettled works, with their reasons. */
    ghost predicate Represents(s: Sys)
      reads this, active
    {
      && maxConcurrent == s.config.maxConcurrent
      && closing == s.door.closing
      && Stands(active, entryOf, s)
    }

    /** The gate of `run`, and the new entry when it lets the operation in. */
    method Run(request: nat, callerAborted: bool) returns (entry: Option<Entry>, refusal: Option<Code>)
      modifies this
      ensures refusal == Refusal(Gate(true, true, true, true, callerAborted), closing, |old(active)| >= maxConcurrent)
      ensures closing == old(closing) && (entry.Some? <==> refusal.None?)
      ensures entry.None? ==> active == old(active) && entryOf == old(entryOf)
      ensures entry.Some? ==>
                fresh(entry.value) && entry.value.id == request && entry.value.reason.None?
                && active == old(active) + {entry.value} && |active| <= maxConcurrent
                && entryOf == old(entryOf)[request := entry.value]
    {
      entry := None;
      if closing {
        refusal := Some(ShuttingDown);
      } else if callerAborted {
        refusal := Some(Cancelled);
      } else if |active| >= maxConcurrent {
        refusal := Some(Busy);
      } else {
        refusal := None;
        var e := new Entry(request);
        active := active + {e};
        entryOf := entryOf[request := e];
        entry := Some(e);
      }
    }

    /** The work settles, which may be long after its caller has been answered. */
    method WorkSettles(entry: Entry)
      modifies this
      ensures active == old(active) - {entry} && closing == old(closing) && entryOf == old(entryOf) - {entry.id}
    {
      active := active - {entry};
      entryOf := entryOf - {entry.id};
    }

    /** The synchronous part of `drain`. */
    method Drain()
      modifies this, active
      ensures closing && active == old(active) && entryOf == old(entryOf)
      ensures forall e | e in active :: e.reason == if old(e.reason).None? then Some(ShuttingDown) else old(e.reason)
    {
      closing := true;
      var left := active;
      while left != {}
        invariant left <= active == old(active) && closing && entryOf == old(entryOf)
        invariant forall e | e in left :: e.reason == old(e.reason)
        invariant forall e | e in active - left ::
                    e.reason == if old(e.reason).None? then Some(ShuttingDown) else old(e.reason)
        decreases |left|
      {
        var e :| e in left;
        e.Abort(ShuttingDown);
        left := left - {e};
      }
    }

    lemma SameSize(s: Sys)
      requires Represents(s)
      ensures |active| == |s.active|
    {
      CountByIds(active, entryOf);
    }

    /** `invoke` up to its first suspension: the checks of its own, then the gate of `run`. */
    method Invoke(ghost s: Sys, r: nat, gate: Gate)
      requires Represents(s) && Enabled(s, Acts(r, Action.Invoke(gate)))
      requires r !in s.active && s.reqs[r].task.NoTask? && s.reqs[r].aborted.None?
      modifies this
      ensures Represents(Next(s, Acts(r, Action.Invoke(gate))))
    {
      SameSize(s);
      InvokeNext(s, r, gate);
      var entry := Gates(r, gate);
      MoreOrSame(s, Next(s, Acts(r, Action.Invoke(gate))), r, entry, old(active), old(entryOf));
    }

    method Gates(r: nat, gate: Gate) returns (entry: Option<Entry>)
      modifies this
      ensures closing == old(closing)
      ensures entry.Some? <==> Refusal(gate, closing, |old(active)| >= maxConcurrent).None?
      ensures entry.None? ==> active == old(active) && entryOf == old(entryOf)
      ensures entry.Some? ==>
                fresh(entry.value) && entry.value.id == r && entry.value.reason.None?
                && active == old(active) + {entry.value} && entryOf == old(entryOf)[r := entry.value]
    {
      entry := None;
      if gate.known && gate.permitted && gate.withinElements && gate.withinBytes {
        var refusal;
        entry, refusal := Run(r, gate.callerAborted);
      }
    }

    lemma MoreOrSame(s: Sys, after: Sys, r: nat, entry: Option<Entry>, was: set<Entry>, wasOf: map<nat, Entry>)
      requires r < |s.reqs| && s.reqs[r].aborted.None? && r !in s.active && InvokeTo(s, after, r, entry.Some?)
      requires Stands(was, wasOf, s) && maxConcurrent == s.config.maxConcurrent && closing == s.door.closing
      requires entry.None? ==> active == was && entryOf == wasOf
      requires entry.Some? ==>
                entry.value.id == r && entry.value.reason.None?
                && active == was + {entry.value} && entryOf == wasOf[r := entry.value]
      ensures Represents(after)
    {
      assert after.active == if entry.Some? then s.active + {r} else s.active;
      forall e | e in was
        ensures Mirrors(e, after)
      {
        assert e.id in wasOf && Mirrors(e, s);
      }
    }

    /** The step `a` ends the operation of request `r`. */
    method WorkEnds(ghost s: Sys, entry: Entry, ghost a: Action)
      requires Represents(s) && entry in active && Enabled(s, Acts(entry.id, a))
      requires !Running(ActMove(s, entry.id, a).q.task)
      modifies this
      ensures Represents(Next(s, Acts(entry.id, a)))
    {
      WorkSettles(entry);
    }

    /** The caller's signal, or the timer, aborts the operation. */
    method AbortFires(ghost s: Sys, entry: Entry, code: Code)
      requires Represents(s) && entry in active && Enabled(s, Acts(entry.id, Action.Abort(code)))
      modifies entry
      ensures Represents(Next(s, Acts(entry.id, Action.Abort(code))))
    {
      entry.Abort(code);
    }

    /** Closing the runtime. */
    method CloseBegins(ghost s: Sys)
      requires Represents(s) && Enabled(s, HttpSystem.CloseBegins)
      modifies this, active
      ensures Represents(Next(s, HttpSystem.CloseBegins))
    {
      Drain();
    }
  }

  /** What an invocation by request `r` does to the part of the state that the controller holds. */
  ghost predicate InvokeTo(s: Sys, after: Sys, r: nat, runs: bool)
    requires r < |s.reqs|
  {
    && after.config == s.config && after.door.closing == s.door.closing && |after.reqs| == |s.reqs|
    && after.reqs[r].aborted == s.reqs[r].aborted
    && (forall i | 0 <= i < |s.reqs| && i != r :: after.reqs[i] == s.reqs[i])
    && after.active == if runs then s.active + {r} else s.active - {r}
  }

  lemma InvokeNext(s: Sys, r: nat, gate: Gate)
    requires Enabled(s, Acts(r, Action.Invoke(gate))) && s.reqs[r].task.NoTask?
    ensures InvokeTo(s, Next(s, Acts(r, Action.Invoke(gate))), r,
                     Refusal(gate, s.door.closing, |s.active| >= s.config.maxConcurrent).None?)
  {
  }

  lemma {:induction false} CountByIds(entries: set<Entry>, entryOf: map<nat, Entry>)
    requires forall e | e in entries :: e.id in entryOf && entryOf[e.id] == e
    requires forall r | r in entryOf :: entryOf[r] in entries && entryOf[r].id == r
    ensures |entries| == |entryOf.Keys|
    decreases |entries|
  {
    if entries == {} {
      assert entryOf.Keys == {};
    } else {
      var e :| e in entries;
      var rest := entryOf - {e.id};
      CountByIds(entries - {e}, rest);
      assert rest.Keys == entryOf.Keys - {e.id};
    }
  }
}
