/** What each event of the sink does to the records, in every run: which are written, in which order
    and to which socket, which are settled, and what changes nothing. */
module SocketEffects {
  import opened Wrappers
  import opened SocketSink

  function Min(a: nat, b: nat): nat {
    if a < b then a else b
  }

  predicate SameFlags(s: Sink, s': Sink) {
    s'.failed == s.failed && s'.closed == s.closed && s'.socket == s.socket
  }

  /** The `n` oldest unsent records have been written, in order, to the current socket; nothing else
      has happened to any record. */
  predicate Writes(s: Sink, s': Sink, n: nat) {
    && n <= |s.unsent| && s.socket.Some? && s.socket.value < |s.wires|
    && s'.written == s.written + s.unsent[..n]
    && s'.wires == s.wires[s.socket.value := s.wires[s.socket.value] + s.unsent[..n]]
    && s'.inflight == s.inflight + s.unsent[..n] && s'.unsent == s.unsent[n..]
    && s'.accepted == s.accepted && s'.resolved == s.resolved && s'.rejected == s.rejected
    && SameFlags(s, s')
  }

  lemma WritesNone(s: Sink, s': Sink)
    requires s.socket.Some? && s.socket.value < |s.wires|
    requires SameFlags(s, s') && SameRecords(s, s') && s'.inflight == s.inflight && s'.unsent == s.unsent
    ensures Writes(s, s', 0)
  {
    assert s.unsent[..0] == [];
    var k := s.socket.value;
    assert s.wires[k] + [] == s.wires[k] && s.wires[k := s.wires[k]] == s.wires;
  }

  lemma FlushWrites(s: Sink, room: nat)
    requires s.socket.Some? && s.socket.value < |s.wires| && s.connected && s.writable
    ensures var s' := Flushed(s, room);
            && Writes(s, s', Min(|s.unsent|, room + 1)) && s'.connected
            && (s'.writable <==> |s.unsent| <= room)
  {
    if |s.unsent| == 0 { WritesNone(s, s); }
  }

  /** `connect` of the current socket writes the oldest unsent records, as many as the socket takes:
      one more than fit into its buffer, and all of them if they fit. */
  lemma ConnectWrites(t: seq<Sink>, es: seq<Event>, i: nat)
    requires IsRun(t, es) && i < |es| && es[i].Connect? && t[i].socket == Some(es[i].k)
    ensures Writes(t[i], t[i + 1], Min(|t[i].unsent|, es[i].room + 1))
    ensures t[i + 1].connected && (t[i + 1].writable <==> |t[i].unsent| <= es[i].room)
    ensures |t[i].unsent| <= es[i].room ==> t[i + 1].unsent == []
  {
    RunValid(t, es, i);
    FlushWrites(t[i].(connected := true, writable := true), es[i].room);
  }

  /** So does `drain` once the socket is connected; before that it writes nothing. */
  lemma DrainWrites(t: seq<Sink>, es: seq<Event>, i: nat)
    requires IsRun(t, es) && i < |es| && es[i].Drain? && t[i].socket == Some(es[i].k)
    ensures Writes(t[i], t[i + 1], if t[i].connected then Min(|t[i].unsent|, es[i].room + 1) else 0)
    ensures t[i + 1].connected == t[i].connected
    ensures t[i].connected ==> (t[i + 1].writable <==> |t[i].unsent| <= es[i].room)
    ensures t[i].connected && |t[i].unsent| <= es[i].room ==> t[i + 1].unsent == []
  {
    RunValid(t, es, i);
    if t[i].connected {
      FlushWrites(t[i].(writable := true), es[i].room);
    } else {
      WritesNone(t[i], t[i + 1]);
    }
  }

  /** The record is written at once to the current socket, which nothing was waiting for. */
  predicate WrittenAtOnce(s: Sink, s': Sink, rec: nat) {
    && s.socket.Some? && s.socket.value < |s.wires| && s.unsent == [] && s'.unsent == []
    && s'.inflight == s.inflight + [rec] && s'.written == s.written + [rec]
    && s'.wires == s.wires[s.socket.value := s.wires[s.socket.value] + [rec]]
  }

  /** The record waits behind the others; a socket is opened if there is none. */
  predicate Waits(s: Sink, s': Sink, rec: nat) {
    && s'.unsent == s.unsent + [rec] && s'.inflight == s.inflight && s'.written == s.written
    && s'.wires == if s.socket.None? then s.wires + [[]] else s.wires
  }

  lemma PushedWrites(s: Sink, rec: nat, room: nat)
    requires Valid(s) && s.connected && s.writable
    ensures WrittenAtOnce(s, Takes(s, rec, room), rec) && SameFlags(s, Takes(s, rec, room))
    ensures Takes(s, rec, room).writable <==> room >= 1
  {
    assert s.unsent == [] && [] + [rec] == [rec] && [rec][..1] == [rec];
  }

  /** A call is accepted if and only if nothing has failed, the sink is open, there is room and the
      record is short enough. */
  lemma CallTakes(t: seq<Sink>, es: seq<Event>, i: nat)
    requires IsRun(t, es) && i < |es| && es[i].Call?
    ensures var s, s', e := t[i], t[i + 1], es[i];
            if s.failed || s.closed || s.Outstanding() >= 1024 || e.tooLong then s' == s
            else
              && s'.accepted == s.accepted + [e.rec] && s'.resolved == s.resolved && s'.rejected == s.rejected
              && s'.socket == (if s.socket.None? then Some(|s.wires|) else s.socket)
              && !s'.failed && !s'.closed && s'.connected == s.connected
              && s'.writable == (s.writable && (s.connected ==> e.room >= 1))
              && if s.connected && s.writable then WrittenAtOnce(s, s', e.rec) else Waits(s, s', e.rec)
  {
    RunValid(t, es, i);
    var s, e := t[i], es[i];
    if !Refuses(s, e.tooLong) && s.connected && s.writable { PushedWrites(s, e.rec, e.room); }
  }

  predicate Stale(s: Sink, e: Event) {
    (e.Connect? || e.Drain? || e.Data? || e.Error? || e.Departure?) && s.socket != Some(e.k)
  }

  /** An event of any socket but the current one changes nothing. */
  lemma StaleChangesNothing(t: seq<Sink>, es: seq<Event>, i: nat)
    requires IsRun(t, es) && i < |es| && Stale(t[i], es[i])
    ensures t[i + 1] == t[i]
  {
  }

  /** Everything outstanding is rejected, in order, nothing is resolved or written, and the sink has
      failed. */
  predicate RejectsAll(s: Sink, s': Sink) {
    && s'.rejected == s.rejected + s.inflight + s.unsent && s'.inflight == [] && s'.unsent == []
    && s'.accepted == s.accepted && s'.resolved == s.resolved && s'.written == s.written && s'.wires == s.wires
    && s'.failed
  }

  /** An error or the end of the current socket, a timer, or closing the sink, while records are
      outstanding, rejects them all. With nothing outstanding no record and no failure comes of it. */
  lemma FailuresRejectAll(t: seq<Sink>, es: seq<Event>, i: nat)
    requires IsRun(t, es) && i < |es| && !Stale(t[i], es[i])
    requires es[i].Error? || es[i].Departure? || es[i].Timer? || es[i].Close?
    ensures var s, s' := t[i], t[i + 1];
            && (if s.Outstanding() > 0 then RejectsAll(s, s') else SameRecords(s, s') && s'.Outstanding() == 0)
            && s'.closed == (s.closed || es[i].Close?)
            && (if es[i].Departure? then s'.socket.None? && !s'.connected && !s'.writable
                else s'.socket == s.socket && s'.connected == s.connected && s'.writable == s.writable)
  {
  }

  lemma ClosedStep(s: Sink, e: Event)
    requires Valid(s) && Enabled(s, e) && s.closed
    ensures Next(s, e).closed && Next(s, e).accepted == s.accepted
  {
  }

  lemma ClosedAt(t: seq<Sink>, es: seq<Event>, i: nat)
    requires IsRun(t, es) && i < |es| && t[i].closed
    ensures t[i + 1].closed && t[i + 1].accepted == t[i].accepted
  {
    RunValid(t, es, i);
    ClosedStep(t[i], es[i]);
  }

  /** A closed sink stays closed and accepts nothing. */
  lemma {:induction false} ClosedForGood(t: seq<Sink>, es: seq<Event>, i: nat, j: nat)
    requires IsRun(t, es) && i <= j <= |es| && t[i].closed
    ensures t[j].closed && t[j].accepted == t[i].accepted
    decreases j
  {
    if i < j {
      ClosedForGood(t, es, i, j - 1);
      ClosedAt(t, es, j - 1);
    }
  }
}
