/** The FIFO-acknowledged socket sink of src/collector.ts. The specification keeps two queues,
    the records written but not acknowledged and the records not yet written; the class of
    SocketAuditSinks keeps one list and an index, as the source does, and refines it. */
module SocketSink {
  import opened Wrappers

  const MAX_OUTSTANDING: nat := 1024
  const ACK: nat := 6

  /** Records and sockets are named by numbers. `wires[k]` lists the records written to socket `k`,
      `written` the writes to all of them,
      `accepted`, `resolved`, `rejected` the records whose promise was made, resolved, rejected, in
      order, and `cut` how many of the rejected ones had been written: history of the sink. */
  datatype Sink = Sink(
    inflight: seq<nat>,
    unsent: seq<nat>,
    socket: Option<nat>,
    connected: bool,
    writable: bool,
    failed: bool,
    closed: bool,
    wires: seq<seq<nat>>,
    written: seq<nat>,
    accepted: seq<nat>,
    resolved: seq<nat>,
    rejected: seq<nat>,
    cut: nat)
  {
    function Outstanding(): nat {
      |inflight| + |unsent|
    }
  }

  function Fresh(): Sink {
    Sink([], [], None, false, false, false, false, [], [], [], [], [], 0)
  }

  function Failing(s: Sink): Sink {
    if s.Outstanding() == 0 then s.(failed := true)
    else
      s.(failed := true, inflight := [], unsent := [], cut := |s.rejected| + |s.inflight|,
         rejected := s.rejected + s.inflight + s.unsent)
  }

  function Appended(wires: seq<seq<nat>>, k: nat, recs: seq<nat>): seq<seq<nat>> {
    if k < |wires| then wires[k := wires[k] + recs] else wires
  }

  /** `room` is how many writes the socket takes before one of them reports that its buffer is
      full; that one is taken too. */
  function Flushed(s: Sink, room: nat): Sink {
    if s.socket.Some? && s.connected && s.writable && |s.unsent| > 0 then
      var k := if |s.unsent| <= room then |s.unsent| else room + 1;
      s.(inflight := s.inflight + s.unsent[..k], unsent := s.unsent[k..],
         wires := Appended(s.wires, s.socket.value, s.unsent[..k]), written := s.written + s.unsent[..k],
         writable := |s.unsent| <= room)
    else s
  }

  /** `connect` and `drain` of socket `k`; events of any other socket are stale. */
  function Connects(s: Sink, k: nat, room: nat): Sink {
    if s.socket == Some(k) then Flushed(s.(connected := true, writable := true), room) else s
  }

  function Drains(s: Sink, k: nat, room: nat): Sink {
    if s.socket == Some(k) then Flushed(s.(writable := true), room) else s
  }

  predicate AllAcks(data: seq<nat>) {
    forall i | 0 <= i < |data| :: data[i] == ACK
  }

  /** Each byte of `data` settles the oldest written record. */
  function Hears(s: Sink, k: nat, data: seq<nat>, room: nat): Sink {
    if s.socket != Some(k) then s
    else if |data| > |s.inflight| || !AllAcks(data) then Failing(s)
    else
      Flushed(s.(inflight := s.inflight[|data|..], resolved := s.resolved + s.inflight[..|data|]), room)
  }

  function Errs(s: Sink, k: nat): Sink {
    if s.socket == Some(k) && s.Outstanding() > 0 then Failing(s) else s
  }

  /** `end` or `close` of socket `k`. */
  function Departs(s: Sink, k: nat): Sink {
    if s.socket == Some(k) then
      (if s.Outstanding() > 0 then Failing(s) else s).(socket := None, connected := false, writable := false)
    else s
  }

  predicate Refuses(s: Sink, tooLong: bool) {
    s.failed || s.closed || s.Outstanding() >= MAX_OUTSTANDING || tooLong
  }

  /** The sink is called with record `rec`. A new socket is opened only if there is none. */
  function Takes(s: Sink, rec: nat, room: nat): Sink {
    Flushed(Pushed(s, rec), room)
  }

  function Pushed(s: Sink, rec: nat): Sink {
    var s1 := s.(unsent := s.unsent + [rec], accepted := s.accepted + [rec]);
    if s1.socket.None? then s1.(socket := Some(|s1.wires|), wires := s1.wires + [[]]) else s1
  }

  function Closes(s: Sink): Sink {
    if s.Outstanding() > 0 then Failing(s.(closed := true)) else s.(closed := true)
  }

  datatype Event =
    | Call(rec: nat, tooLong: bool, room: nat)
    | Connect(k: nat, room: nat)
    | Drain(k: nat, room: nat)
    | Data(k: nat, data: seq<nat>, room: nat)
    | Error(k: nat)
    | Departure(k: nat)
    | Timer
    | Close

  /** The timers of settled records are cleared, so one fires only while a record is outstanding. */
  predicate Enabled(s: Sink, e: Event) {
    e.Timer? ==> s.Outstanding() > 0
  }

  function Next(s: Sink, e: Event): Sink {
    match e
    case Call(rec, tooLong, room) => if Refuses(s, tooLong) then s else Takes(s, rec, room)
    case Connect(k, room) => Connects(s, k, room)
    case Drain(k, room) => Drains(s, k, room)
    case Data(k, data, room) => Hears(s, k, data, room)
    case Error(k) => Errs(s, k)
    case Departure(k) => Departs(s, k)
    case Timer => Failing(s)
    case Close => Closes(s)
  }

  // ----- the invariant -----

  function Flat(wires: seq<seq<nat>>): seq<nat> {
    if wires == [] then [] else Flat(wires[..|wires| - 1]) + wires[|wires| - 1]
  }

  /** The order of all writes is the order of sockets, and within a socket the order on it. */
  ghost predicate WiresAgree(s: Sink) {
    Flat(s.wires) == s.written
  }

  ghost predicate Valid(s: Sink) {
    && (s.failed ==> s.Outstanding() == 0)
    && (!s.failed ==> s.rejected == [])
    && s.cut <= |s.rejected|
    && s.accepted == s.resolved + s.inflight + s.unsent + s.rejected
    && s.written == s.resolved + s.inflight + s.rejected[..s.cut]
    && (s.socket.None? ==> s.Outstanding() == 0 && !s.connected && !s.writable)
    && (s.socket.Some? ==> s.socket.value + 1 == |s.wires|)
    && (|s.inflight| > 0 ==> s.connected)
    && (s.connected && s.writable ==> s.unsent == [])
    && s.Outstanding() <= MAX_OUTSTANDING
  }

  lemma FlatAppends(wires: seq<seq<nat>>, k: nat, recs: seq<nat>)
    requires k + 1 == |wires|
    ensures Flat(Appended(wires, k, recs)) == Flat(wires) + recs
  {
    var w := Appended(wires, k, recs);
    assert w[..k] == wires[..k];
    assert Flat(wires[..k]) + (wires[k] + recs) == Flat(wires[..k]) + wires[k] + recs;
  }

  lemma FlatOpens(wires: seq<seq<nat>>)
    ensures Flat(wires + [[]]) == Flat(wires)
  {
    assert (wires + [[]])[..|wires|] == wires;
  }

  /** Everything `Valid` asks for, except that unsent records may be writable. */
  ghost predicate Ready(s: Sink) {
    Valid(s.(writable := false)) && (s.socket.None? ==> !s.writable)
  }

  lemma FlushedValid(s: Sink, room: nat)
    requires Ready(s)
    ensures Valid(Flushed(s, room))
  {
    if s.socket.Some? && s.connected && s.writable && |s.unsent| > 0 {
      var k := if |s.unsent| <= room then |s.unsent| else room + 1;
      FlushKeepsOrder(s.resolved, s.inflight, s.unsent, k, s.rejected);
      assert s.rejected[..s.cut] == [];
    }
  }

  lemma FlushKeepsOrder(a: seq<nat>, b: seq<nat>, c: seq<nat>, k: nat, d: seq<nat>)
    requires k <= |c|
    ensures a + b + c + d == a + (b + c[..k]) + c[k..] + d
    ensures a + b + [] + c[..k] == a + (b + c[..k]) + []
  {
    assert c == c[..k] + c[k..];
  }

  lemma FailingValid(s: Sink)
    requires Valid(s)
    ensures Valid(Failing(s))
  {
    if s.Outstanding() > 0 { FailingKeepsOrder(s.resolved, s.inflight, s.unsent); }
  }

  lemma FailingKeepsOrder(a: seq<nat>, b: seq<nat>, c: seq<nat>)
    ensures [] + b + c == b + c
    ensures a + b + c + [] == a + [] + [] + ([] + b + c)
    ensures ([] + b + c)[..|b|] == b
    ensures a + b + [] == a + [] + b
  {
  }

  lemma TakesValid(s: Sink, rec: nat, room: nat)
    requires Valid(s) && !Refuses(s, false)
    ensures Valid(Takes(s, rec, room))
  {
    FlushedValid(Pushed(s, rec), room);
  }

  lemma AckedValid(s: Sink, n: nat)
    requires Valid(s) && n <= |s.inflight|
    ensures Valid(s.(inflight := s.inflight[n..], resolved := s.resolved + s.inflight[..n]))
  {
    AckKeepsOrder(s.resolved, s.inflight, n, s.unsent, s.rejected);
    AckKeepsOrder(s.resolved, s.inflight, n, [], s.rejected[..s.cut]);
  }

  lemma AckKeepsOrder(a: seq<nat>, b: seq<nat>, n: nat, c: seq<nat>, d: seq<nat>)
    requires n <= |b|
    ensures a + b + c + d == (a + b[..n]) + b[n..] + c + d
    ensures a + b + d == (a + b[..n]) + b[n..] + d
  {
    assert b == b[..n] + b[n..];
  }

  lemma HearsValid(s: Sink, k: nat, data: seq<nat>, room: nat)
    requires Valid(s)
    ensures Valid(Hears(s, k, data, room))
  {
    if s.socket == Some(k) {
      if |data| > |s.inflight| || !AllAcks(data) {
        FailingValid(s);
      } else {
        AckedValid(s, |data|);
        FlushedValid(s.(inflight := s.inflight[|data|..], resolved := s.resolved + s.inflight[..|data|]), room);
      }
    }
  }

  lemma StepValid(s: Sink, e: Event)
    requires Valid(s) && Enabled(s, e)
    ensures Valid(Next(s, e))
  {
    match e
    case Call(rec, tooLong, room) => if !Refuses(s, tooLong) { TakesValid(s, rec, room); }
    case Connect(k, room) => if s.socket == Some(k) { FlushedValid(s.(connected := true, writable := true), room); }
    case Drain(k, room) => if s.socket == Some(k) { DrainsValid(s, k, room); }
    case Data(k, data, room) => HearsValid(s, k, data, room);
    case Error(k) => FailingValid(s);
    case Departure(k) => FailingValid(s);
    case Timer => FailingValid(s);
    case Close => FailingValid(s.(closed := true));
  }

  lemma DrainsValid(s: Sink, k: nat, room: nat)
    requires Valid(s) && s.socket == Some(k)
    ensures Valid(Drains(s, k, room))
  {
    FlushedValid(s.(writable := true), room);
  }

  // ----- the wires tell the same story -----

  lemma FlushedAgrees(s: Sink, room: nat)
    requires WiresAgree(s) && (s.socket.Some? ==> s.socket.value + 1 == |s.wires|)
    ensures WiresAgree(Flushed(s, room))
  {
    if s.socket.Some? && s.connected && s.writable && |s.unsent| > 0 {
      FlatAppends(s.wires, s.socket.value, s.unsent[..if |s.unsent| <= room then |s.unsent| else room + 1]);
    }
  }

  lemma StepAgrees(s: Sink, e: Event)
    requires Valid(s) && WiresAgree(s) && Enabled(s, e)
    ensures WiresAgree(Next(s, e))
  {
    match e
    case Call(rec, tooLong, room) =>
      FlatOpens(s.wires);
      var s1 := s.(unsent := s.unsent + [rec], accepted := s.accepted + [rec]);
      FlushedAgrees(if s.socket.None? then s1.(socket := Some(|s1.wires|), wires := s1.wires + [[]]) else s1, room);
    case Connect(_, room) => FlushedAgrees(s.(connected := true, writable := true), room);
    case Drain(_, room) => FlushedAgrees(s.(writable := true), room);
    case Data(k, data, room) =>
      if s.socket == Some(k) && |data| <= |s.inflight| && AllAcks(data) {
        FlushedAgrees(s.(inflight := s.inflight[|data|..], resolved := s.resolved + s.inflight[..|data|]), room);
      }
    case Error(_) =>
    case Departure(_) =>
    case Timer =>
    case Close =>
  }

  // ----- runs of the sink, against any peer and any order of events -----

  ghost predicate IsRun(t: seq<Sink>, es: seq<Event>) {
    && |t| == |es| + 1
    && t[0] == Fresh()
    && forall i {:trigger es[i]} | 0 <= i < |es| :: Enabled(t[i], es[i]) && t[i + 1] == Next(t[i], es[i])
  }

  lemma {:induction false} RunValid(t: seq<Sink>, es: seq<Event>, i: nat)
    requires IsRun(t, es) && i <= |es|
    ensures Valid(t[i]) && WiresAgree(t[i])
  {
    if i > 0 {
      RunValid(t, es, i - 1);
      StepValid(t[i - 1], es[i - 1]);
      StepAgrees(t[i - 1], es[i - 1]);
    }
  }

  lemma PrefixOfWritten(s: Sink)
    requires Valid(s)
    ensures s.resolved <= s.written <= s.accepted
  {
    if s.failed {
      assert s.accepted == s.resolved + s.rejected;
      assert s.rejected == s.rejected[..s.cut] + s.rejected[s.cut..];
      assert s.accepted == s.resolved + s.rejected[..s.cut] + s.rejected[s.cut..];
    } else {
      assert s.accepted == s.written + s.unsent;
    }
  }

  /** What is resolved is a prefix of what was written, over all sockets together, and that is a
      prefix of what was accepted: no record is skipped, reordered or written twice. Every accepted
      record is outstanding or has been settled, once. */
  lemma PrefixChain(t: seq<Sink>, es: seq<Event>, i: nat)
    requires IsRun(t, es) && i <= |es|
    ensures t[i].resolved <= t[i].written <= t[i].accepted && t[i].written == Flat(t[i].wires)
    ensures t[i].accepted == t[i].resolved + t[i].inflight + t[i].unsent + t[i].rejected
    ensures t[i].Outstanding() <= MAX_OUTSTANDING
  {
    RunValid(t, es, i);
    PrefixOfWritten(t[i]);
  }

  /** What a later state keeps of an earlier one. */
  ghost predicate Extends(a: Sink, b: Sink) {
    && a.resolved <= b.resolved
    && a.rejected <= b.rejected
    && a.accepted <= b.accepted
    && |a.wires| <= |b.wires|
    && (a.failed ==>
          && b.failed && b.accepted == a.accepted && b.written == a.written
          && b.wires == a.wires && b.resolved == a.resolved)
  }

  ghost predicate SameRecords(a: Sink, b: Sink) {
    && b.failed == a.failed && b.accepted == a.accepted && b.wires == a.wires && b.written == a.written
    && b.resolved == a.resolved && b.rejected == a.rejected
  }

  lemma FailedStep(s: Sink, e: Event)
    requires Valid(s) && Enabled(s, e) && s.failed
    ensures SameRecords(s, Next(s, e))
  {
    match e
    case Data(_, data, _) => assert s.resolved + [] == s.resolved;
    case _ =>
  }

  lemma StepExtends(s: Sink, e: Event)
    requires Valid(s) && Enabled(s, e)
    ensures Extends(s, Next(s, e))
  {
    if s.failed { FailedStep(s, e); }
  }

  lemma ExtendsTransitively(a: Sink, b: Sink, c: Sink)
    requires Extends(a, b) && Extends(b, c)
    ensures Extends(a, c)
  {
  }

  lemma {:induction false} ChainExtends(t: seq<Sink>, i: nat, j: nat)
    requires i <= j < |t|
    requires forall x | 0 <= x < |t| - 1 :: Extends(t[x], t[x + 1])
    ensures Extends(t[i], t[j])
    decreases j
  {
    if i < j {
      ChainExtends(t, i, j - 1);
      ExtendsTransitively(t[i], t[j - 1], t[j - 1 + 1]);
    }
  }

  /** Settlements are final, and a failure is: afterwards nothing is accepted, written or resolved. */
  lemma SettlementsAreFinal(t: seq<Sink>, es: seq<Event>, i: nat, j: nat)
    requires IsRun(t, es) && i <= j <= |es|
    ensures Extends(t[i], t[j])
  {
    forall x | 0 <= x < |t| - 1 ensures Extends(t[x], t[x + 1]) {
      RunValid(t, es, x);
      StepExtends(t[x], es[x]);
    }
    ChainExtends(t, i, j);
  }

  /** A new connection is made only when nothing is outstanding and nothing has been lost, so there
      is never anything to retry on it. */
  lemma ReconnectsOnlyWhenIdle(t: seq<Sink>, es: seq<Event>, i: nat)
    requires IsRun(t, es) && i < |es| && |t[i + 1].wires| > |t[i].wires|
    ensures t[i].Outstanding() == 0 && !t[i].failed
    ensures t[i].resolved == t[i].accepted == t[i].written
  {
    RunValid(t, es, i);
    WiresGrowOnCall(t[i], es[i]);
    var s := t[i];
    assert s.rejected == [] && s.inflight == [] && s.unsent == [];
    assert s.resolved + [] + [] + [] == s.resolved;
  }

  lemma WiresGrowOnCall(s: Sink, e: Event)
    requires Valid(s) && Enabled(s, e) && |Next(s, e).wires| > |s.wires|
    ensures s.socket.None? && !s.failed
  {
  }

  // ----- acknowledgement bytes are a stream -----

  function Joined(chunks: seq<seq<nat>>): seq<nat> {
    if chunks == [] then [] else chunks[0] + Joined(chunks[1..])
  }

  function HearsAll(s: Sink, k: nat, chunks: seq<seq<nat>>, room: nat): Sink
    decreases |chunks|
  {
    if chunks == [] then s else HearsAll(Hears(s, k, chunks[0], room), k, chunks[1..], room)
  }

  /** The `n` oldest written records are resolved. */
  function Acked(s: Sink, n: nat): Sink
    requires n <= |s.inflight|
  {
    s.(inflight := s.inflight[n..], resolved := s.resolved + s.inflight[..n])
  }

  lemma AckedNone(s: Sink)
    ensures Acked(s, 0) == s
  {
  }

  lemma AckedTwice(s: Sink, n: nat, m: nat)
    requires n + m <= |s.inflight|
    ensures Acked(Acked(s, n), m) == Acked(s, n + m)
  {
    assert s.inflight[n..][m..] == s.inflight[n + m..];
    assert s.inflight[..n] + s.inflight[n..][..m] == s.inflight[..n + m];
    assert s.resolved + s.inflight[..n] + s.inflight[n..][..m] == s.resolved + (s.inflight[..n] + s.inflight[n..][..m]);
  }

  /** Nothing is waiting for a writable socket, so hearing acknowledgements writes nothing. */
  lemma HearsOnly(s: Sink, k: nat, data: seq<nat>, room: nat)
    requires Valid(s) && s.socket == Some(k) && |data| <= |s.inflight| && AllAcks(data)
    ensures Hears(s, k, data, room) == Acked(s, |data|)
  {
    var s1 := Acked(s, |data|);
    assert s1.connected && s1.writable ==> s1.unsent == [];
  }

  /** However the acknowledgements that the sink is owed are split or coalesced, the same records
      are resolved, in the same order, and the sink ends in the same state. */
  lemma {:induction false} ChunkingIsImmaterial(s: Sink, k: nat, chunks: seq<seq<nat>>, room: nat)
    requires Valid(s) && s.socket == Some(k)
    requires AllAcks(Joined(chunks)) && |Joined(chunks)| <= |s.inflight|
    ensures HearsAll(s, k, chunks, room) == Hears(s, k, Joined(chunks), room)
    decreases |chunks|
  {
    HearsOnly(s, k, Joined(chunks), room);
    if chunks == [] {
      AckedNone(s);
    } else {
      var a, rest := chunks[0], Joined(chunks[1..]);
      AcksSplit(a, rest);
      var s1 := Hears(s, k, a, room);
      FirstChunk(s, k, a, rest, room);
      ChunkingIsImmaterial(s1, k, chunks[1..], room);
    }
  }

  lemma FirstChunk(s: Sink, k: nat, a: seq<nat>, rest: seq<nat>, room: nat)
    requires Valid(s) && s.socket == Some(k)
    requires AllAcks(a) && AllAcks(rest) && |a| + |rest| <= |s.inflight|
    ensures var s1 := Hears(s, k, a, room);
            && Valid(s1) && s1.socket == Some(k) && |rest| <= |s1.inflight|
            && Hears(s1, k, rest, room) == Acked(s, |a| + |rest|)
  {
    HearsOnly(s, k, a, room);
    HearsValid(s, k, a, room);
    HearsOnly(Acked(s, |a|), k, rest, room);
    AckedTwice(s, |a|, |rest|);
  }

  lemma AcksSplit(a: seq<nat>, b: seq<nat>)
    requires AllAcks(a + b)
    ensures AllAcks(a) && AllAcks(b)
  {
    assert forall i | 0 <= i < |a| :: a[i] == (a + b)[i];
    assert forall i | 0 <= i < |b| :: b[i] == (a + b)[|a| + i];
  }

  /** A byte that is not an acknowledgement, or one more byte than was written, rejects everything
      outstanding in order, resolves nothing, and turns every later call away; no other data does. */
  lemma BadAcksFail(s: Sink, k: nat, data: seq<nat>, room: nat)
    requires Valid(s) && s.socket == Some(k)
    ensures var s' := Hears(s, k, data, room);
            if |data| > |s.inflight| || !AllAcks(data) then
              && s'.rejected == s.rejected + s.inflight + s.unsent && s'.Outstanding() == 0
              && s'.resolved == s.resolved && forall tooLong :: Refuses(s', tooLong)
            else
              && s'.rejected == s.rejected && s'.failed == s.failed
              && s'.resolved == s.resolved + s.inflight[..|data|]
              && s'.inflight == s.inflight[|data|..] && s'.unsent == s.unsent
              && s'.written == s.written && s'.accepted == s.accepted
  {
    if |data| > |s.inflight| || !AllAcks(data) {
      assert s.Outstanding() == 0 ==> s.rejected + s.inflight + s.unsent == s.rejected;
    } else {
      HearsOnly(s, k, data, room);
    }
  }
}
