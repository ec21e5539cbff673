/** What src/http.ts decides about a request before the audited delivery starts: routing,
    authentication slots, admission, and the rejection counters. */
module FrontDoor {
  datatype Reason =
    | BadTarget | HostDenied | OriginDenied | Unauthorized | AuthenticationBusy
    | TooBusy | NotFoundHere | ServerClosing | AuditDown

  datatype Origin = NoOrigin | ListedOrigin | UnlistedOrigin
  datatype Path = Health | Metadata | Mcp | Metrics | OtherPath
  datatype Verb = Get | Post | Delete | Options | OtherMethod

  /** What the URL and header checks of Node and the SDK report about a request. */
  datatype Head = Head(targetOk: bool, hostOk: bool, origin: Origin, path: Path, verb: Verb, bearer: bool)

  const MAX_SAFE_INTEGER: nat := 9007199254740991

  /** What becomes of an arrival: it is being verified, or one of the other four, for good. */
  datatype Fate = Verifying | Answered | Refused(reason: Reason) | Departed | Admitted(request: nat)

  /** `closing`, `authenticating`, `requests` and `counters` are the source's variables. Arrivals and
      admissions are numbered; `fates` lists what has become of each arrival so far. */
  datatype Door = Door(
    closing: bool,
    authenticating: nat,
    requests: nat,
    counters: map<Reason, nat>,
    admitted: nat,
    fates: seq<Fate>)

  function Opened(): Door {
    Door(false, 0, 0,
         map[BadTarget := 0, HostDenied := 0, OriginDenied := 0, Unauthorized := 0, AuthenticationBusy := 0,
             TooBusy := 0, NotFoundHere := 0, ServerClosing := 0, AuditDown := 0],
         0, [])
  }

  datatype Route = Answer | Refuse(reason: Reason) | Verify

  /** The branches of the request listener, in their order. */
  function RouteOf(h: Head, closing: bool, authenticating: nat, maxConcurrent: nat): Route {
    if !h.targetOk then Refuse(BadTarget)
    else if !h.hostOk then Refuse(HostDenied)
    else if h.origin == UnlistedOrigin then Refuse(OriginDenied)
    else if h.path == Health && h.verb == Get then Answer
    else if closing then Refuse(ServerClosing)
    else if h.path == Metadata && h.verb == Get then Answer
    else if h.verb == Options && h.origin == ListedOrigin && h.path == Mcp then Answer
    else if h.path != Mcp && h.path != Metrics then Refuse(NotFoundHere)
    else if !h.bearer then Refuse(Unauthorized)
    else if authenticating >= maxConcurrent then Refuse(AuthenticationBusy)
    else Verify
  }

  /** The conditions under which a token is verified, whatever the order of the checks. */
  predicate MayVerify(h: Head, closing: bool, authenticating: nat, maxConcurrent: nat) {
    && h.targetOk && h.hostOk && h.origin != UnlistedOrigin && h.bearer
    && !closing && authenticating < maxConcurrent
    && (h.path == Metrics || (h.path == Mcp && !(h.verb == Options && h.origin == ListedOrigin)))
  }

  function Counted(counters: map<Reason, nat>, r: Reason): map<Reason, nat> {
    var n := if r in counters then counters[r] else 0;
    counters[r := if n + 1 <= MAX_SAFE_INTEGER then n + 1 else MAX_SAFE_INTEGER]
  }

  /** A request arrives; `maxConcurrent` bounds the verifications in flight. */
  function Arrive(d: Door, h: Head, maxConcurrent: nat): Door {
    Routed(d, RouteOf(h, d.closing, d.authenticating, maxConcurrent))
  }

  function Routed(d: Door, route: Route): Door {
    match route
    case Answer => d.(fates := d.fates + [Answered])
    case Refuse(r) => d.(counters := Counted(d.counters, r), fates := d.fates + [Refused(r)])
    case Verify => d.(authenticating := d.authenticating + 1, fates := d.fates + [Verifying])
  }

  datatype Verdict = Admit | Turn(reason: Reason) | Gone

  function VerdictOf(ok: bool, destroyed: bool, closing: bool, healthy: bool, full: bool): Verdict {
    if destroyed then Gone
    else if !ok then Turn(Unauthorized)
    else if closing then Turn(ServerClosing)
    else if !healthy then Turn(AuditDown)
    else if full then Turn(TooBusy)
    else Admit
  }

  predicate InVerification(d: Door, a: nat) {
    a < |d.fates| && d.fates[a] == Verifying && d.authenticating > 0
  }

  /** The fate that a verdict gives to an arrival. */
  function FateOf(d: Door, v: Verdict): Fate {
    match v
    case Admit => Admitted(d.admitted)
    case Turn(r) => Refused(r)
    case Gone => Departed
  }

  /** The verification of arrival `a` ends; its slot is given back whatever comes next. */
  function Verified(d: Door, a: nat, v: Verdict): Door
    requires InVerification(d, a)
  {
    var d1 := d.(authenticating := d.authenticating - 1, fates := d.fates[a := FateOf(d, v)]);
    match v
    case Admit => d1.(requests := d1.requests + 1, admitted := d1.admitted + 1)
    case Turn(r) => d1.(counters := Counted(d1.counters, r))
    case Gone => d1
  }

  /** The `finally` of a request's terminal record. */
  function Release(d: Door): Door
    requires d.requests > 0
  {
    d.(requests := d.requests - 1)
  }

  // ----- every arrival is in exactly one place, and every place is counted -----

  function Tally(fates: seq<Fate>, f: Fate): nat {
    if fates == [] then 0
    else Tally(fates[..|fates| - 1], f) + if fates[|fates| - 1] == f then 1 else 0
  }

  lemma TallyOfOneMore(fates: seq<Fate>, last: Fate, f: Fate)
    ensures Tally(fates + [last], f) == Tally(fates, f) + if last == f then 1 else 0
  {
    assert (fates + [last])[..|fates|] == fates;
  }

  lemma {:induction false} TallyOfChange(fates: seq<Fate>, a: nat, to: Fate, f: Fate)
    requires a < |fates|
    ensures Tally(fates[a := to], f) + (if fates[a] == f then 1 else 0) == Tally(fates, f) + if to == f then 1 else 0
  {
    var n := |fates| - 1;
    if a == n {
      assert fates[a := to][..n] == fates[..n];
    } else {
      assert fates[a := to][..n] == fates[..n][a := to];
      TallyOfChange(fates[..n], a, to, f);
    }
  }

  /** The counter of `r` is the number of its refusals, up to the largest safe integer. */
  predicate Saturates(counters: map<Reason, nat>, fates: seq<Fate>, r: Reason) {
    var n := Tally(fates, Refused(r));
    r in counters && counters[r] == if n <= MAX_SAFE_INTEGER then n else MAX_SAFE_INTEGER
  }

  /** Request `k` is one arrival, if it has been admitted. */
  predicate FromOneArrival(admitted: nat, fates: seq<Fate>, k: nat) {
    Tally(fates, Admitted(k)) == if k < admitted then 1 else 0
  }

  ghost predicate Balanced(d: Door, maxConcurrent: nat) {
    && d.authenticating == Tally(d.fates, Verifying)
    && d.authenticating <= maxConcurrent
    && d.requests <= d.admitted
    && (forall r: Reason :: Saturates(d.counters, d.fates, r))
    && (forall k: nat :: FromOneArrival(d.admitted, d.fates, k))
  }

  lemma OpenedBalanced(maxConcurrent: nat)
    ensures Balanced(Opened(), maxConcurrent)
  {
    forall r: Reason
      ensures Saturates(Opened().counters, Opened().fates, r)
    {
      match r
      case BadTarget =>
      case HostDenied =>
      case OriginDenied =>
      case Unauthorized =>
      case AuthenticationBusy =>
      case TooBusy =>
      case NotFoundHere =>
      case ServerClosing =>
      case AuditDown =>
    }
  }

  /** One fate is gained, and one `Verifying` lost or not. */
  lemma BalancedAfter(d: Door, after: Door, gained: Fate, lost: bool, maxConcurrent: nat)
    requires Balanced(d, maxConcurrent) && after.requests <= after.admitted && after.authenticating <= maxConcurrent
    requires forall f: Fate :: Tally(after.fates, f) + (if lost && f == Verifying then 1 else 0)
                             == Tally(d.fates, f) + if f == gained then 1 else 0
    requires after.authenticating + (if lost then 1 else 0) == d.authenticating + if gained == Verifying then 1 else 0
    requires after.counters == if gained.Refused? then Counted(d.counters, gained.reason) else d.counters
    requires after.admitted == d.admitted + if gained.Admitted? then 1 else 0
    requires gained.Admitted? ==> gained.request == d.admitted
    ensures Balanced(after, maxConcurrent)
  {
    forall r: Reason
      ensures Saturates(after.counters, after.fates, r)
    {
      assert Saturates(d.counters, d.fates, r);
    }
    forall k: nat
      ensures FromOneArrival(after.admitted, after.fates, k)
    {
      assert FromOneArrival(d.admitted, d.fates, k);
    }
  }

  lemma RouteVerifies(h: Head, closing: bool, authenticating: nat, maxConcurrent: nat)
    ensures RouteOf(h, closing, authenticating, maxConcurrent).Verify?
        <==> MayVerify(h, closing, authenticating, maxConcurrent)
  {
  }

  function FateOfRoute(route: Route): Fate {
    match route
    case Answer => Answered
    case Refuse(r) => Refused(r)
    case Verify => Verifying
  }

  lemma RoutedKeeps(d: Door, route: Route, after: Door, maxConcurrent: nat)
    requires Balanced(d, maxConcurrent) && (route.Verify? ==> d.authenticating < maxConcurrent)
    requires after == Routed(d, route)
    ensures Balanced(after, maxConcurrent) && after.fates == d.fates + [FateOfRoute(route)]
  {
    forall f: Fate
      ensures Tally(after.fates, f) == Tally(d.fates, f) + if f == FateOfRoute(route) then 1 else 0
    {
      TallyOfOneMore(d.fates, FateOfRoute(route), f);
    }
    BalancedAfter(d, after, FateOfRoute(route), false, maxConcurrent);
  }

  /** An arrival is answered, refused, or put under verification, as `RouteOf` says; all that arrived
      before keep their fates, and the variables go on counting them. */
  lemma ArriveKeeps(d: Door, h: Head, maxConcurrent: nat)
    requires Balanced(d, maxConcurrent)
    ensures Balanced(Arrive(d, h, maxConcurrent), maxConcurrent)
    ensures var fates := Arrive(d, h, maxConcurrent).fates;
            && |fates| == |d.fates| + 1 && fates[..|d.fates|] == d.fates
            && fates[|d.fates|] == FateOfRoute(RouteOf(h, d.closing, d.authenticating, maxConcurrent))
            && (fates[|d.fates|] == Verifying <==> MayVerify(h, d.closing, d.authenticating, maxConcurrent))
  {
    RouteVerifies(h, d.closing, d.authenticating, maxConcurrent);
    RoutedKeeps(d, RouteOf(h, d.closing, d.authenticating, maxConcurrent), Arrive(d, h, maxConcurrent), maxConcurrent);
  }

  /** The end of a verification decides the fate of its arrival and of no other. */
  lemma VerifiedKeeps(d: Door, a: nat, v: Verdict, maxConcurrent: nat)
    requires Balanced(d, maxConcurrent) && InVerification(d, a)
    ensures Balanced(Verified(d, a, v), maxConcurrent)
    ensures var fates := Verified(d, a, v).fates;
            && |fates| == |d.fates| && fates[a] == FateOf(d, v) && fates[a] != Verifying
            && forall b | 0 <= b < |fates| && b != a :: fates[b] == d.fates[b]
  {
    var after := Verified(d, a, v);
    forall f: Fate
      ensures Tally(after.fates, f) + (if f == Verifying then 1 else 0)
           == Tally(d.fates, f) + if f == FateOf(d, v) then 1 else 0
    {
      TallyOfChange(d.fates, a, FateOf(d, v), f);
    }
    BalancedAfter(d, after, FateOf(d, v), true, maxConcurrent);
  }
}
