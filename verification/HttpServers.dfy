/** The variables that `serveHttp` of src/http.ts keeps, and the handlers that change them, proved
    against FrontDoor and against the admission step of the runtime. */
module HttpServers {
  import opened FrontDoor
  import HttpSystem
  import RequestProgram

  class HttpServer {
    const maxConcurrent: nat
    const requestCapacity: nat
    var closing: bool
    var authenticating: nat
    var requests: nat
    var terminals: set<nat>
    var counters: map<Reason, nat>
    /** The requests admitted so far; the next one gets this number. */
    var admitted: nat
    ghost var fates: seq<Fate>

    ghost function View(): Door
      reads this
    {
      Door(closing, authenticating, requests, counters, admitted, fates)
    }

    constructor (c: HttpSystem.Config)
      ensures View() == Opened() && terminals == {}
      ensures maxConcurrent == c.maxConcurrent && requestCapacity == HttpSystem.RequestCapacity(c)
    {
      maxConcurrent := c.maxConcurrent;
      requestCapacity := if c.maxConcurrent * 2 < c.maxPending / 3 then c.maxConcurrent * 2 else c.maxPending / 3;
      closing, authenticating, requests, terminals, admitted := false, 0, 0, {}, 0;
      counters := map[BadTarget := 0, HostDenied := 0, OriginDenied := 0, Unauthorized := 0,
                      AuthenticationBusy := 0, TooBusy := 0, NotFoundHere := 0, ServerClosing := 0, AuditDown := 0];
      fates := [];
    }

    predicate CountsAll()
      reads this
    {
      forall r: Reason :: r in counters
    }

    method Count(reason: Reason)
      requires CountsAll()
      modifies `counters
      ensures counters == Counted(old(counters), reason) && CountsAll()
    {
      var n := counters[reason] + 1;
      counters := counters[reason := if n < MAX_SAFE_INTEGER then n else MAX_SAFE_INTEGER];
    }

    /** The checks of the request listener; each but the last answers the request at once. */
    method Checks(head: Head) returns (route: Route)
      ensures route == RouteOf(head, closing, authenticating, maxConcurrent)
      ensures route.Verify? <==> MayVerify(head, closing, authenticating, maxConcurrent)
    {
      if !head.targetOk {
        return Refuse(BadTarget);
      }
      if !head.hostOk {
        return Refuse(HostDenied);
      }
      if head.origin == UnlistedOrigin {
        return Refuse(OriginDenied);
      }
      if head.path == Health && head.verb == Get {
        return Answer;
      }
      if closing {
        return Refuse(ServerClosing);
      }
      if head.path == Metadata && head.verb == Get {
        return Answer;
      }
      if head.verb == Options && head.origin == ListedOrigin && head.path == Mcp {
        return Answer;
      }
      if head.path != Mcp && head.path != Metrics {
        return Refuse(NotFoundHere);
      }
      if !head.bearer {
        return Refuse(Unauthorized);
      }
      if authenticating >= maxConcurrent {
        return Refuse(AuthenticationBusy);
      }
      return Verify;
    }

    /** The request listener up to its first suspension. */
    method OnRequest(head: Head) returns (route: Route)
      requires CountsAll()
      modifies this
      ensures View() == Arrive(old(View()), head, maxConcurrent)
      ensures CountsAll() && terminals == old(terminals)
    {
      route := Checks(head);
      Follow(route);
    }

    method Follow(route: Route)
      requires CountsAll()
      modifies `authenticating, `counters, `fates
      ensures View() == Routed(old(View()), route) && CountsAll()
    {
      match route {
        case Answer =>
        case Refuse(reason) => Count(reason);
        case Verify => authenticating := authenticating + 1;
      }
      fates := fates + [FateOfRoute(route)];
    }

    /** The checks after the verification. */
    method Judge(ok: bool, destroyed: bool, healthy: bool) returns (verdict: Verdict)
      ensures verdict == VerdictOf(ok, destroyed, closing, healthy, requests >= requestCapacity)
      ensures verdict == Admit <==> ok && !destroyed && !closing && healthy && requests < requestCapacity
      ensures verdict == Gone <==> destroyed
    {
      if !ok {
        return if destroyed then Gone else Turn(Unauthorized);
      }
      if destroyed {
        return Gone;
      }
      if closing || !healthy || requests >= requestCapacity {
        return Turn(if closing then ServerClosing else if !healthy then AuditDown else TooBusy);
      }
      return Admit;
    }

    /** The verification of arrival `a` ends, and the request is admitted or turned away. */
    method OnVerified(ghost a: nat, ok: bool, destroyed: bool, healthy: bool) returns (request: nat, verdict: Verdict)
      requires CountsAll() && InVerification(View(), a)
      modifies this
      ensures verdict == VerdictOf(ok, destroyed, old(closing), healthy, old(requests) >= requestCapacity)
      ensures verdict == Admit <==> ok && !destroyed && !old(closing) && healthy && old(requests) < requestCapacity
      ensures verdict == Gone <==> destroyed
      ensures View() == Verified(old(View()), a, verdict) && CountsAll()
      ensures request == old(admitted)
      ensures terminals == if verdict == Admit then old(terminals) + {request} else old(terminals)
    {
      verdict := Judge(ok, destroyed, healthy);
      request := Conclude(a, verdict);
    }

    method Conclude(ghost a: nat, verdict: Verdict) returns (request: nat)
      requires CountsAll() && InVerification(View(), a)
      modifies this
      ensures View() == Verified(old(View()), a, verdict) && CountsAll() && request == old(admitted)
      ensures terminals == if verdict == Admit then old(terminals) + {request} else old(terminals)
    {
      request := admitted;
      authenticating := authenticating - 1;
      fates := fates[a := FateOf(View(), verdict)];
      match verdict {
        case Gone =>
        case Turn(reason) => Count(reason);
        case Admit => Accept();
      }
    }

    method Accept()
      modifies `requests, `admitted, `terminals
      ensures requests == old(requests) + 1 && admitted == old(admitted) + 1
      ensures terminals == old(terminals) + {old(admitted)}
    {
      terminals := terminals + {admitted};
      requests, admitted := requests + 1, admitted + 1;
    }

    /** The `finally` of the terminal record. */
    method OnTerminalSettled(request: nat)
      requires requests > 0
      modifies this
      ensures View() == Release(old(View())) && terminals == old(terminals) - {request}
    {
      requests := requests - 1;
      terminals := terminals - {request};
    }

    /** The first call of `close`, up to its first suspension. */
    method Close()
      modifies `closing
      ensures View() == old(View()).(closing := true)
    {
      closing := true;
    }

    ghost predicate Represents(s: HttpSystem.Sys)
      reads this
    {
      && View() == s.door && terminals == s.open && admitted == |s.reqs| && CountsAll()
      && maxConcurrent == s.config.maxConcurrent && requestCapacity == HttpSystem.RequestCapacity(s.config)
    }

    /** An arrival is one step of the runtime. */
    method Arrives(ghost s: HttpSystem.Sys, head: Head)
      requires Represents(s)
      modifies this
      ensures Represents(HttpSystem.Next(s, HttpSystem.Arrives(head)))
    {
      var _ := OnRequest(head);
    }

    /** The end of a verification is one step of the runtime. */
    method Verifies(ghost s: HttpSystem.Sys, ghost a: nat, ok: bool, destroyed: bool, healthy: bool)
      requires Represents(s) && HttpSystem.Enabled(s, HttpSystem.Verifies(a, ok, destroyed))
      requires healthy == s.audit.Healthy()
      modifies this
      ensures Represents(HttpSystem.Next(s, HttpSystem.Verifies(a, ok, destroyed)))
    {
      var _, _ := OnVerified(a, ok, destroyed, healthy);
    }

    /** The settlement of a terminal record is one step of the runtime. */
    method TerminalSettles(ghost s: HttpSystem.Sys, r: nat)
      requires Represents(s) && HttpSystem.Enabled(s, HttpSystem.Acts(r, RequestProgram.TerminalSettles))
      modifies this
      ensures Represents(HttpSystem.Next(s, HttpSystem.Acts(r, RequestProgram.TerminalSettles)))
    {
      OnTerminalSettled(r);
    }

    /** The beginning of shutdown is one step of the runtime. */
    method CloseBegins(ghost s: HttpSystem.Sys)
      requires Represents(s) && HttpSystem.Enabled(s, HttpSystem.CloseBegins)
      modifies this
      ensures Represents(HttpSystem.Next(s, HttpSystem.CloseBegins))
    {
      Close();
    }
  }
}
