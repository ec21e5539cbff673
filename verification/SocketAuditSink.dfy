/** The sink of src/collector.ts in its own form: one list of outstanding records, an index `sent`
    into it, and handlers that update them. Every handler is proved against SocketSink. */
module SocketAuditSinks {
  import opened Wrappers
  import opened SocketSink

  class SocketAuditSink {
    var pending: seq<nat>
    var socket: Option<nat>
    var connected: bool
    var writable: bool
    var sent: nat
    var failed: bool
    var closed: bool
    ghost var wires: seq<seq<nat>>
    ghost var written: seq<nat>
    ghost var accepted: seq<nat>
    ghost var resolved: seq<nat>
    ghost var rejected: seq<nat>
    ghost var cut: nat
    var attempts: nat

    ghost predicate Indexed()
      reads this
    {
      sent <= |pending| && attempts == |wires| && (socket.Some? ==> socket.value < attempts)
    }

    /** The two queues behind the list and the index. */
    ghost function View(): Sink
      reads this
      requires Indexed()
    {
      Sink(pending[..sent], pending[sent..], socket, connected, writable, failed, closed,
           wires, written, accepted, resolved, rejected, cut)
    }

    constructor ()
      ensures Indexed() && View() == Fresh()
    {
      pending, socket, sent, attempts := [], None, 0, 0;
      connected, writable, failed, closed := false, false, false, false;
      wires, written, accepted, resolved, rejected, cut := [], [], [], [], [], 0;
    }

    method Fail()
      requires Indexed()
      modifies this
      ensures Indexed() && View() == Failing(old(View()))
    {
      failed := true;
      var items := pending;
      pending := [];
      ghost var before := rejected;
      if |items| > 0 { cut := |rejected| + sent; }
      var i := 0;
      while i < |items|
        invariant 0 <= i <= |items|
        invariant rejected == before + items[..i]
        invariant pending == [] && sent == old(sent) && failed
        invariant socket == old(socket) && connected == old(connected) && writable == old(writable)
        invariant closed == old(closed) && wires == old(wires) && written == old(written)
        invariant accepted == old(accepted) && resolved == old(resolved) && attempts == old(attempts)
        invariant cut == if |items| > 0 then |before| + old(sent) else old(cut)
      {
        rejected := rejected + [items[i]];
        i := i + 1;
      }
      sent := 0;
      assert items[..i] == items == old(pending)[..old(sent)] + old(pending)[old(sent)..];
      if |items| > 0 {
        assert before + old(pending)[..old(sent)] + old(pending)[old(sent)..] == before + items;
      } else {
        assert before + items == before;
      }
    }

    /** `room` is how many writes the socket takes before one reports a full buffer. */
    method Flush(room: nat)
      requires Indexed()
      modifies `sent, `writable, `wires, `written
      ensures Indexed() && View() == Flushed(old(View()), room)
    {
      var left := room;
      while socket.Some? && connected && writable && sent < |pending|
        invariant Indexed()
        invariant Flushed(View(), left) == Flushed(old(View()), room)
        decreases |pending| - sent
      {
        ghost var before := View();
        ghost var item := pending[sent];
        sent := sent + 1;
        wires := wires[socket.value := wires[socket.value] + [item]];
        written := written + [item];
        writable := left > 0;
        assert View() == Wrote(before, left > 0);
        WriteOne(before, left);
        left := if left > 0 then left - 1 else 0;
      }
    }

    method OnConnect(current: nat, room: nat)
      requires Indexed()
      modifies this
      ensures Indexed() && View() == Connects(old(View()), current, room)
    {
      if socket != Some(current) { return; }
      connected := true;
      writable := true;
      Flush(room);
    }

    method OnDrain(current: nat, room: nat)
      requires Indexed()
      modifies this
      ensures Indexed() && View() == Drains(old(View()), current, room)
    {
      if socket != Some(current) { return; }
      writable := true;
      Flush(room);
    }

    method OnData(current: nat, data: seq<nat>, room: nat)
      requires Indexed()
      modifies this
      ensures Indexed() && View() == Hears(old(View()), current, data, room)
    {
      if socket != Some(current) { return; }
      if |data| > sent || exists i :: 0 <= i < |data| && data[i] != ACK {
        Fail();
        return;
      }
      Settle(|data|);
      Flush(room);
    }

    /** The loop over the bytes: each one resolves the oldest record. */
    method Settle(bytes: nat)
      requires Indexed() && bytes <= sent
      modifies `pending, `sent, `resolved
      ensures Indexed() && View() == Acked(old(View()), bytes)
    {
      ghost var start := View();
      var index := 0;
      AckedNone(start);
      while index < bytes
        invariant 0 <= index <= bytes <= |start.inflight|
        invariant Indexed() && View() == Acked(start, index)
      {
        var item := pending[0];
        pending := pending[1..];
        sent := sent - 1;
        resolved := resolved + [item];
        AckedOne(start, index);
        index := index + 1;
      }
    }

    method OnError(current: nat)
      requires Indexed()
      modifies this
      ensures Indexed() && View() == Errs(old(View()), current)
    {
      if socket == Some(current) && |pending| > 0 { Fail(); }
    }

    /** The handler of `end` and of `close`. */
    method Disconnected(current: nat)
      requires Indexed()
      modifies this
      ensures Indexed() && View() == Departs(old(View()), current)
    {
      if socket == Some(current) {
        if |pending| > 0 { Fail(); }
        socket := None;
        connected := false;
        writable := false;
      }
    }

    /** The promise of the call is `accepted`: made, or already rejected. */
    method Call(rec: nat, tooLong: bool, room: nat) returns (taken: bool)
      requires Indexed()
      modifies this
      ensures Indexed() && taken == !Refuses(old(View()), tooLong)
      ensures View() == Next(old(View()), Event.Call(rec, tooLong, room))
    {
      if failed || closed || |pending| >= MAX_OUTSTANDING { return false; }
      if tooLong { return false; }
      Push(rec);
      Flush(room);
      taken := true;
    }

    /** The record joins the list; a socket is opened if there is none. */
    method Push(rec: nat)
      requires Indexed()
      modifies `pending, `accepted, `socket, `attempts, `wires
      ensures Indexed() && View() == Pushed(old(View()), rec)
    {
      pending := pending + [rec];
      accepted := accepted + [rec];
      if socket.None? {
        socket := Some(attempts);
        attempts := attempts + 1;
        wires := wires + [[]];
      }
    }

    method Close()
      requires Indexed()
      modifies this
      ensures Indexed() && View() == Closes(old(View()))
    {
      closed := true;
      if |pending| > 0 { Fail(); }
    }
  }

  /** One turn of the flush loop. */
  function Wrote(s: Sink, more: bool): Sink
    requires s.socket.Some? && s.socket.value < |s.wires| && |s.unsent| > 0
  {
    s.(inflight := s.inflight + [s.unsent[0]], unsent := s.unsent[1..], writable := more,
       wires := s.wires[s.socket.value := s.wires[s.socket.value] + [s.unsent[0]]],
       written := s.written + [s.unsent[0]])
  }

  lemma WriteOne(s: Sink, room: nat)
    requires s.socket.Some? && s.socket.value < |s.wires| && s.connected && s.writable && |s.unsent| > 0
    ensures Flushed(s, room) == Flushed(Wrote(s, room > 0), if room > 0 then room - 1 else 0)
  {
    if room == 0 || |s.unsent| == 1 {
      assert s.unsent[..1] == [s.unsent[0]];
    } else {
      WriteOneOfMany(s, room);
    }
  }

  lemma WriteOneOfMany(s: Sink, room: nat)
    requires s.socket.Some? && s.socket.value < |s.wires| && s.connected && s.writable
    requires |s.unsent| > 1 && room > 0
    ensures Flushed(s, room) == Flushed(Wrote(s, true), room - 1)
  {
    var k := if |s.unsent| <= room then |s.unsent| else room + 1;
    var x, more, c := s.unsent[0], s.unsent[1..][..k - 1], s.socket.value;
    FirstAndMore(s.unsent, k);
    Regroup(s.inflight, [x], more);
    Regroup(s.written, [x], more);
    Regroup(s.wires[c], [x], more);
    assert s.wires[c := s.wires[c] + [x]][c := s.wires[c] + [x] + more] == s.wires[c := s.wires[c] + s.unsent[..k]];
  }

  lemma FirstAndMore(u: seq<nat>, k: nat)
    requires 1 <= k <= |u|
    ensures [u[0]] + u[1..][..k - 1] == u[..k] && u[1..][k - 1..] == u[k..]
  {
  }

  lemma Regroup(a: seq<nat>, b: seq<nat>, c: seq<nat>)
    ensures a + b + c == a + (b + c)
  {
  }

  lemma AckedOne(s: Sink, n: nat)
    requires n + 1 <= |s.inflight|
    ensures Acked(s, n + 1) == Acked(Acked(s, n), 1)
  {
    AckedTwice(s, n, 1);
  }
}
