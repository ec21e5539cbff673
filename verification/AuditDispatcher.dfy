/** The audit dispatcher of src/audit.ts: a bounded set of sink calls with no queue behind it.
    Every delivery races its sink call against a timer. A sink call keeps its slot until it
    settles, even when the delivery has already timed out, and the first loss latches the
    dispatcher unhealthy. */
module Dispatch {

  /** What has become of one submitted record. `Refused` records never reach the sink. */
  datatype Phase = Racing | Delivered | Failed | Refused

  /** The slots are of records that are racing or have timed out, and every racing record has one. */
  ghost predicate HoldsRacing(pending: set<nat>, phases: seq<Phase>) {
    && (forall w | w in pending :: w < |phases| && (phases[w] == Racing || phases[w] == Failed))
    && (forall w | 0 <= w < |phases| && phases[w] == Racing :: w in pending)
  }

  /** Record ids are positions in the order of submission, so `events` and `phases` are also
      the complete history of the dispatcher. `closeFailures` and `hookCalls` are history too:
      the first counts the failures that came from closing the sink, the second the calls of
      the sink's close hook. */
  datatype Ledger<E> = Ledger(
    capacity: nat,
    pending: set<nat>,
    events: seq<E>,
    phases: seq<Phase>,
    failures: nat,
    dropped: nat,
    closeFailures: nat,
    hookCalls: nat)
  {
    predicate Healthy() {
      failures == 0 && dropped == 0
    }

    ghost predicate Valid() {
      && |events| == |phases|
      && HoldsRacing(pending, phases)
      && |pending| <= capacity
      && dropped == multiset(phases)[Refused]
      && failures == multiset(phases)[Failed] + closeFailures
      && hookCalls <= 1
    }
  }

  function Start<E>(capacity: nat): Ledger<E> {
    Ledger(capacity, {}, [], [], 0, 0, 0, 0)
  }

  /** `write`, up to its first suspension: take a slot, or refuse at once. */
  function Submit<E>(d: Ledger<E>, e: E): Ledger<E> {
    if d.Healthy() && |d.pending| < d.capacity then
      d.(pending := d.pending + {|d.phases|}, events := d.events + [e], phases := d.phases + [Racing])
    else
      d.(dropped := d.dropped + 1, events := d.events + [e], phases := d.phases + [Refused])
  }

  /** The sink call of `w` resolves: the slot is free before the delivery continues. */
  function Resolve<E>(d: Ledger<E>, w: nat): Ledger<E>
    requires w < |d.phases|
  {
    if d.phases[w] == Racing then
      d.(pending := d.pending - {w}, phases := d.phases[w := Delivered])
    else
      d.(pending := d.pending - {w})
  }

  /** The sink call of `w` rejects. */
  function Reject<E>(d: Ledger<E>, w: nat): Ledger<E>
    requires w < |d.phases|
  {
    if d.phases[w] == Racing then
      d.(pending := d.pending - {w}, phases := d.phases[w := Failed], failures := d.failures + 1)
    else
      d.(pending := d.pending - {w})
  }

  /** The timer of the delivery of `w` fires first; the sink call keeps its slot. */
  function Expire<E>(d: Ledger<E>, w: nat): Ledger<E>
    requires w < |d.phases|
  {
    d.(phases := d.phases[w := Failed], failures := d.failures + 1)
  }

  function CallHook<E>(d: Ledger<E>): Ledger<E> {
    if d.hookCalls == 0 then d.(hookCalls := 1) else d
  }

  function HookFails<E>(d: Ledger<E>): Ledger<E> {
    d.(failures := d.failures + 1, closeFailures := d.closeFailures + 1)
  }

  /** Everything that can happen to a dispatcher, whoever uses it. */
  datatype Event<E> =
    | Write(event: E)
    | SinkResolves(w: nat)
    | SinkRejects(w: nat)
    | TimerFires(w: nat)
    | CloseSink
    | CloseFails

  predicate Enabled<E>(d: Ledger<E>, e: Event<E>) {
    match e
    case Write(_) => true
    case SinkResolves(w) => w in d.pending && w < |d.phases|
    case SinkRejects(w) => w in d.pending && w < |d.phases|
    case TimerFires(w) => w < |d.phases| && d.phases[w] == Racing
    case CloseSink => true
    case CloseFails => d.hookCalls == 1 && d.closeFailures == 0
  }

  function Next<E>(d: Ledger<E>, e: Event<E>): Ledger<E>
    requires Enabled(d, e)
  {
    match e
    case Write(event) => Submit(d, event)
    case SinkResolves(w) => Resolve(d, w)
    case SinkRejects(w) => Reject(d, w)
    case TimerFires(w) => Expire(d, w)
    case CloseSink => CallHook(d)
    case CloseFails => HookFails(d)
  }

  /** `t` is a run: consecutive states are related by one enabled event each. */
  ghost predicate IsRun<E>(t: seq<Ledger<E>>, es: seq<Event<E>>) {
    && |t| == |es| + 1
    && forall i {:trigger es[i]} | 0 <= i < |es| :: Enabled(t[i], es[i]) && t[i + 1] == Next(t[i], es[i])
  }

  // ----- every step keeps the invariant -----

  lemma OneMore(phases: seq<Phase>, p: Phase)
    ensures multiset(phases + [p])[Refused] == multiset(phases)[Refused] + if p == Refused then 1 else 0
    ensures multiset(phases + [p])[Failed] == multiset(phases)[Failed] + if p == Failed then 1 else 0
  {
    assert multiset(phases + [p]) == multiset(phases) + multiset{p};
  }

  lemma OneMoreHeld(pending: set<nat>, phases: seq<Phase>, p: Phase)
    requires HoldsRacing(pending, phases)
    ensures HoldsRacing(if p == Racing then pending + {|phases|} else pending, phases + [p])
  {
    var after := phases + [p];
    forall w | 0 <= w < |after| && after[w] == Racing
      ensures w == |phases| || w in pending
    {
      if w < |phases| { assert phases[w] == Racing; }
    }
  }

  lemma SubmitKeeps<E>(d: Ledger<E>, e: E)
    requires d.Valid()
    ensures Submit(d, e).Valid()
  {
    if d.Healthy() && |d.pending| < d.capacity {
      OneMore(d.phases, Racing);
      OneMoreHeld(d.pending, d.phases, Racing);
      assert |d.pending + {|d.phases|}| <= |d.pending| + 1;
    } else {
      OneMore(d.phases, Refused);
      OneMoreHeld(d.pending, d.phases, Refused);
    }
  }

  lemma SettleKeeps<E>(d: Ledger<E>, w: nat, to: Phase)
    requires d.Valid() && w < |d.phases| && d.phases[w] == Racing
    requires to == Delivered || to == Failed
    ensures multiset(d.phases[w := to])[Refused] == multiset(d.phases)[Refused]
    ensures multiset(d.phases[w := to])[Failed] == multiset(d.phases)[Failed] + if to == Failed then 1 else 0
  {
  }

  lemma ResolveKeeps<E>(d: Ledger<E>, w: nat)
    requires d.Valid() && w in d.pending
    ensures Resolve(d, w).Valid()
  {
    if d.phases[w] == Racing { SettleKeeps(d, w, Delivered); }
    assert |d.pending - {w}| <= |d.pending|;
  }

  lemma RejectKeeps<E>(d: Ledger<E>, w: nat)
    requires d.Valid() && w in d.pending
    ensures Reject(d, w).Valid()
  {
    if d.phases[w] == Racing { SettleKeeps(d, w, Failed); }
    assert |d.pending - {w}| <= |d.pending|;
  }

  lemma ExpireKeeps<E>(d: Ledger<E>, w: nat)
    requires d.Valid() && w < |d.phases| && d.phases[w] == Racing
    ensures Expire(d, w).Valid()
  {
    SettleKeeps(d, w, Failed);
  }

  lemma StepKeeps<E>(d: Ledger<E>, e: Event<E>)
    requires d.Valid() && Enabled(d, e)
    ensures Next(d, e).Valid()
  {
    match e
    case Write(event) => SubmitKeeps(d, event);
    case SinkResolves(w) => ResolveKeeps(d, w);
    case SinkRejects(w) => RejectKeeps(d, w);
    case TimerFires(w) => ExpireKeeps(d, w);
    case CloseSink =>
    case CloseFails =>
  }

  lemma {:induction false} RunKeeps<E>(t: seq<Ledger<E>>, es: seq<Event<E>>, i: nat)
    requires IsRun(t, es) && t[0].Valid() && i <= |es|
    ensures t[i].Valid() && t[i].capacity == t[0].capacity
  {
    if i > 0 {
      RunKeeps(t, es, i - 1);
      StepKeeps(t[i - 1], es[i - 1]);
    }
  }

  // ----- the effect of each event -----

  /** A write takes a slot and races if and only if nothing has been lost and a slot is free; otherwise
      it is dropped. A record that is racing is delivered when its sink call resolves, and lost when the
      call rejects or the timer fires; a settled sink call gives its slot back. Nothing else changes. */
  ghost predicate Effect<E>(d: Ledger<E>, e: Event<E>, d': Ledger<E>) {
    && d'.capacity == d.capacity
    && match e
       case Write(event) =>
         var taken := d.failures == 0 && d.dropped == 0 && |d.pending| < d.capacity;
         && d'.events == d.events + [event] && d'.phases == d.phases + [if taken then Racing else Refused]
         && d'.pending == (if taken then d.pending + {|d.phases|} else d.pending)
         && d'.dropped == d.dropped + (if taken then 0 else 1) && d'.failures == d.failures
         && d'.hookCalls == d.hookCalls
       case SinkResolves(w) =>
         && w < |d.phases| && d'.events == d.events && d'.pending == d.pending - {w}
         && d'.phases == d.phases[w := if d.phases[w] == Racing then Delivered else d.phases[w]]
         && d'.failures == d.failures && d'.dropped == d.dropped && d'.hookCalls == d.hookCalls
       case SinkRejects(w) =>
         && w < |d.phases| && d'.events == d.events && d'.pending == d.pending - {w}
         && d'.phases == d.phases[w := if d.phases[w] == Racing then Failed else d.phases[w]]
         && d'.failures == d.failures + (if d.phases[w] == Racing then 1 else 0)
         && d'.dropped == d.dropped && d'.hookCalls == d.hookCalls
       case TimerFires(w) =>
         && w < |d.phases| && d'.events == d.events && d'.pending == d.pending
         && d'.phases == d.phases[w := Failed]
         && d'.failures == d.failures + 1 && d'.dropped == d.dropped && d'.hookCalls == d.hookCalls
       case CloseSink =>
         && d'.hookCalls == 1 && d'.phases == d.phases && d'.pending == d.pending && d'.events == d.events
         && d'.failures == d.failures && d'.dropped == d.dropped
       case CloseFails =>
         && d'.failures == d.failures + 1 && d'.phases == d.phases && d'.pending == d.pending
         && d'.events == d.events && d'.dropped == d.dropped && d'.hookCalls == d.hookCalls
  }

  lemma EffectsAreExact<E>(t: seq<Ledger<E>>, es: seq<Event<E>>, i: nat)
    requires IsRun(t, es) && t[0].Valid() && i < |es|
    ensures Effect(t[i], es[i], t[i + 1])
  {
    RunKeeps(t, es, i);
  }

  // ----- conservation of records -----

  lemma {:induction false} PhasesAreCounted(p: seq<Phase>)
    ensures |p| == multiset(p)[Racing] + multiset(p)[Delivered] + multiset(p)[Failed] + multiset(p)[Refused]
  {
    if p == [] {
      assert multiset(p) == multiset{};
    } else {
      var last := p[|p| - 1];
      PhasesAreCounted(p[..|p| - 1]);
      assert p == p[..|p| - 1] + [last];
      assert multiset(p) == multiset(p[..|p| - 1]) + multiset{last};
      match last
      case Racing =>
      case Delivered =>
      case Failed =>
      case Refused =>
    }
  }

  function Count(p: seq<Phase>, x: Phase): nat {
    multiset(p)[x]
  }

  /** In every reachable state, writes = delivered + still racing + dropped + failed deliveries,
      the slots in use never exceed the capacity, and the sink is closed at most once. */
  lemma WritesAreConserved<E>(t: seq<Ledger<E>>, es: seq<Event<E>>, i: nat)
    requires IsRun(t, es) && t[0].Valid() && i <= |es|
    ensures var d := t[i];
            && |d.events| == Count(d.phases, Delivered) + Count(d.phases, Racing)
                             + d.dropped + (d.failures - d.closeFailures)
            && |d.pending| <= t[0].capacity
            && d.hookCalls <= 1
  {
    RunKeeps(t, es, i);
    PhasesAreCounted(t[i].phases);
  }

  // ----- the slots are exactly the unsettled sink calls -----

  predicate Settles<E(==)>(e: Event<E>, w: nat) {
    e == SinkResolves(w) || e == SinkRejects(w)
  }

  /** Whether the sink call of `w` settles among the first `i` events. */
  ghost predicate SettledBy<E(!new)>(es: seq<Event<E>>, i: nat, w: nat)
    requires i <= |es|
  {
    exists k :: 0 <= k < i && Settles(es[k], w)
  }

  lemma StepSlots<E>(d: Ledger<E>, e: Event<E>, w: nat)
    requires d.Valid() && Enabled(d, e)
    ensures w in Next(d, e).pending <==>
              if w < |d.phases| then w in d.pending && !Settles(e, w)
              else w < |Next(d, e).phases| && Next(d, e).phases[w] != Refused
    ensures w < |d.phases| ==> w < |Next(d, e).phases| && (Next(d, e).phases[w] == Refused <==> d.phases[w] == Refused)
    ensures Settles(e, w) ==> w < |d.phases|
  {
  }

  /** A record's slot is held exactly from an accepted write until the raw sink promise settles;
      neither the timer nor the failure of the delivery frees it. */
  lemma {:induction false} SlotsAreUnsettledCalls<E(!new)>(t: seq<Ledger<E>>, es: seq<Event<E>>, i: nat, w: nat)
    requires IsRun(t, es) && i <= |es|
    requires t[0].Valid() && t[0].events == []
    ensures w in t[i].pending <==> w < |t[i].phases| && t[i].phases[w] != Refused && !SettledBy(es, i, w)
    ensures SettledBy(es, i, w) ==> w < |t[i].phases|
  {
    if i > 0 {
      SlotsAreUnsettledCalls(t, es, i - 1, w);
      RunKeeps(t, es, i - 1);
      assert Enabled(t[i - 1], es[i - 1]);
      StepSlots(t[i - 1], es[i - 1], w);
      assert SettledBy(es, i, w) <==> SettledBy(es, i - 1, w) || Settles(es[i - 1], w);
    }
  }

  // ----- loss is a latch -----

  /** `d'` is unhealthy, has only refused records beyond `n`, and uses no slot outside `slots`. */
  ghost predicate Latched<E>(d: Ledger<E>, n: nat, slots: set<nat>) {
    && !d.Healthy()
    && n <= |d.phases|
    && (forall w | n <= w < |d.phases| :: d.phases[w] == Refused)
    && d.pending <= slots
  }

  lemma LatchStays<E>(d: Ledger<E>, e: Event<E>, n: nat, slots: set<nat>)
    requires d.Valid() && Enabled(d, e) && Latched(d, n, slots)
    ensures Latched(Next(d, e), n, slots)
  {
  }

  /** Once a record has been lost, health never returns and every later write is refused:
      the records that ever reach the sink are those submitted before the loss. */
  lemma {:induction false} LossIsPermanent<E>(t: seq<Ledger<E>>, es: seq<Event<E>>, i: nat, j: nat)
    requires IsRun(t, es) && t[0].Valid() && i <= j <= |es| && !t[i].Healthy()
    ensures Latched(t[j], |t[i].phases|, t[i].pending)
    decreases j
  {
    if i < j {
      LossIsPermanent(t, es, i, j - 1);
      RunKeeps(t, es, j - 1);
      LatchStays(t[j - 1], es[j - 1], |t[i].phases|, t[i].pending);
    }
  }
}
