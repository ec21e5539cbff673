/** What becomes of an arrival, in every run: the exact condition of each answer. */
module AdmissionTheorems {
  import opened HttpSystem
  import opened HttpInvariant
  import opened FrontDoor

  /** A place is free: three records of one more request fit beside three of each open one, and fewer
      than twice `maxConcurrent` requests are open. */
  predicate HasRoom(s: Sys) {
    3 * (|s.open| + 1) <= s.config.maxPending && |s.open| < 2 * s.config.maxConcurrent
  }

  lemma RoomIsCapacity(s: Sys)
    requires Inv(s)
    ensures s.door.requests >= RequestCapacity(s.config) <==> !HasRoom(s)
  {
  }

  /** The end of the verification of arrival `n`: it is admitted if and only if the token was accepted,
      the client is still there, the server is open, nothing has been lost and a place is free. Each
      other fate has its condition, and nothing else about any arrival changes. */
  lemma VerdictIsExact(c: Config, t: seq<Sys>, es: seq<HttpSystem.Event>, i: nat)
    requires HttpSystem.IsRun(c, t, es) && i < |es| && es[i].Verifies?
    ensures var s, n, ok, gone := t[i], es[i].arrival, es[i].ok, es[i].destroyed;
            && n < |s.door.fates| && s.door.fates[n] == Verifying && n < |t[i + 1].door.fates|
            && var fate := t[i + 1].door.fates[n];
            && t[i + 1].door.fates == s.door.fates[n := fate]
            && (fate == Departed <==> gone)
            && (fate == Fate.Refused(Unauthorized) <==> !gone && !ok)
            && (fate == Fate.Refused(ServerClosing) <==> !gone && ok && s.door.closing)
            && (fate == Fate.Refused(AuditDown) <==> !gone && ok && !s.door.closing && !s.audit.Healthy())
            && (fate == Fate.Refused(TooBusy) <==> !gone && ok && !s.door.closing && s.audit.Healthy() && !HasRoom(s))
            && (fate == Admitted(|s.reqs|) <==> !gone && ok && !s.door.closing && s.audit.Healthy() && HasRoom(s))
            && (fate == Admitted(|s.reqs|) <==> |t[i + 1].reqs| == |s.reqs| + 1)
            && (fate == Admitted(|s.reqs|) <==> t[i + 1].open == s.open + {|s.reqs|})
            && t[i + 1].door.authenticating == s.door.authenticating - 1
  {
    RunKeepsInv(c, t, es, i);
    RoomIsCapacity(t[i]);
    assert t[i + 1] == HttpSystem.Next(t[i], es[i]);
    assert |t[i].reqs| !in t[i].open;
  }

  /** The target, the host and the origin of the request are acceptable. */
  predicate Passes(h: Head) {
    h.targetOk && h.hostOk && h.origin != UnlistedOrigin
  }

  predicate IsHealth(h: Head) {
    h.path == Health && h.verb == Get
  }

  /** Answered without a token, while the server is open. */
  predicate IsOpenToAll(h: Head) {
    (h.path == Metadata && h.verb == Get) || (h.path == Mcp && h.verb == Options && h.origin == ListedOrigin)
  }

  predicate IsProtected(h: Head) {
    (h.path == Mcp || h.path == Metrics) && !IsOpenToAll(h)
  }

  /** The fate of an arrival with head `h`, when `authenticating` others are being verified. */
  predicate ArrivesAs(h: Head, closing: bool, authenticating: nat, maxConcurrent: nat, fate: Fate) {
    && (fate == Fate.Refused(BadTarget) <==> !h.targetOk)
    && (fate == Fate.Refused(HostDenied) <==> h.targetOk && !h.hostOk)
    && (fate == Fate.Refused(OriginDenied) <==> h.targetOk && h.hostOk && h.origin == UnlistedOrigin)
    && (fate == Answered <==> Passes(h) && (IsHealth(h) || (!closing && IsOpenToAll(h))))
    && (fate == Fate.Refused(ServerClosing) <==> Passes(h) && closing && !IsHealth(h))
    && (fate == Fate.Refused(NotFoundHere) <==>
          Passes(h) && !closing && !IsHealth(h) && !IsOpenToAll(h) && !IsProtected(h))
    && (fate == Fate.Refused(Unauthorized) <==> Passes(h) && !closing && IsProtected(h) && !h.bearer)
    && (fate == Fate.Refused(AuthenticationBusy) <==>
          Passes(h) && !closing && IsProtected(h) && h.bearer && authenticating >= maxConcurrent)
    && (fate == Verifying <==>
          Passes(h) && !closing && IsProtected(h) && h.bearer && authenticating < maxConcurrent)
  }

  lemma RouteArrivesAs(h: Head, closing: bool, authenticating: nat, maxConcurrent: nat)
    ensures ArrivesAs(h, closing, authenticating, maxConcurrent,
                      FateOfRoute(RouteOf(h, closing, authenticating, maxConcurrent)))
  {
  }

  /** An arrival gets its number and its fate; the earlier ones keep theirs. */
  lemma ArrivalIsExact(c: Config, t: seq<Sys>, es: seq<HttpSystem.Event>, i: nat)
    requires HttpSystem.IsRun(c, t, es) && i < |es| && es[i].Arrives?
    ensures var d, n := t[i].door, |t[i].door.fates|;
            && |t[i + 1].door.fates| == n + 1 && t[i + 1].door.fates[..n] == d.fates
            && ArrivesAs(es[i].head, d.closing, d.authenticating, c.maxConcurrent, t[i + 1].door.fates[n])
            && t[i + 1].door.authenticating
               == d.authenticating + if t[i + 1].door.fates[n] == Verifying then 1 else 0
  {
    var d := t[i].door;
    RunKeepsInv(c, t, es, i);
    assert t[i + 1].door == Arrive(d, es[i].head, c.maxConcurrent);
    FrontDoor.ArriveKeeps(d, es[i].head, c.maxConcurrent);
    RouteArrivesAs(es[i].head, d.closing, d.authenticating, c.maxConcurrent);
    RoutedCounts(d, RouteOf(es[i].head, d.closing, d.authenticating, c.maxConcurrent));
  }

  lemma RoutedCounts(d: Door, route: Route)
    ensures Routed(d, route).authenticating == d.authenticating + if FateOfRoute(route) == Verifying then 1 else 0
  {
  }
}
