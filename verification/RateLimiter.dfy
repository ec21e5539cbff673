/** The sliding-window limiter of legacy/v1/src/auth/token-rate-limiter.ts, for one user and one
    operation: a stored sorted set that atomic scripts trim, count and extend, under a key with an
    expiry. It is compared with the definition of a sliding window over the whole history. */
module RateLimiter {
  import opened Wrappers

  /** A member of the sorted set: the time of the call and a random number. Its score is the time. */
  datatype Hit = Hit(stamp: int, random: nat)

  /** The stored key. It is absent exactly when it has no members. */
  datatype Key = Key(scores: map<Hit, int>, deadline: Option<int>)

  datatype Limits = Limits(windowSizeMs: int, maxRequests: int)

  datatype Reply = Reply(allowed: bool, remaining: int, totalHits: int)

  const ABSENT: Key := Key(map[], None)

  function Max0(n: int): int {
    if n > 0 then n else 0
  }

  function CeilSeconds(ms: int): int {
    (ms + 999) / 1000
  }

  // ----- the commands of the store -----

  function Visible(k: Key, now: int): Key {
    if k.deadline.Some? && k.deadline.value <= now then ABSENT else k
  }

  function Trimmed(k: Key, upTo: int): Key {
    var rest := map m | m in k.scores && k.scores[m] > upTo :: k.scores[m];
    if rest == map[] then ABSENT else k.(scores := rest)
  }

  function Added(k: Key, h: Hit): Key {
    k.(scores := k.scores[h := h.stamp])
  }

  /** A deadline that is not in the future deletes the key. */
  function Expiring(k: Key, now: int, seconds: int): Key {
    if seconds <= 0 then ABSENT else k.(deadline := Some(now + 1000 * seconds))
  }

  // ----- the scripts -----

  function Cleaned(k: Key, limits: Limits, now: int): Key {
    Trimmed(Visible(k, now), now - limits.windowSizeMs)
  }

  function Incremented(k: Key, limits: Limits, h: Hit): Key {
    Expiring(Added(Cleaned(k, limits, h.stamp), h), h.stamp, CeilSeconds(limits.windowSizeMs))
  }

  predicate HasRoom(k: Key, limits: Limits, now: int) {
    |Cleaned(k, limits, now).scores| < limits.maxRequests
  }

  function Checked(k: Key, limits: Limits, h: Hit): Key {
    if HasRoom(k, limits, h.stamp) then Incremented(k, limits, h) else Cleaned(k, limits, h.stamp)
  }

  function ReplyOf(k: Key, limits: Limits, now: int): Reply {
    var count := |Cleaned(k, limits, now).scores|;
    var remaining := Max0(limits.maxRequests - count);
    if HasRoom(k, limits, now) then Reply(true, remaining - 1, count + 1) else Reply(false, remaining, count)
  }

  /** The limiter with its stored key. Each script runs without interruption. */
  class TokenRateLimiter {
    const limits: Limits
    var scores: map<Hit, int>
    var deadline: Option<int>

    function View(): Key
      reads this
    {
      Key(scores, deadline)
    }

    constructor (config: Limits)
      ensures limits == config && View() == ABSENT
    {
      limits, scores, deadline := config, map[], None;
    }

    method Delete()
      modifies this
      ensures View() == ABSENT
    {
      scores, deadline := map[], None;
    }

    method ZRemRangeByScore(upTo: int, now: int)
      modifies this
      ensures View() == Trimmed(Visible(old(View()), now), upTo)
    {
      if deadline.Some? && deadline.value <= now {
        Delete();
      }
      scores := map m | m in scores && scores[m] > upTo :: scores[m];
      if scores == map[] {
        deadline := None;
      }
    }

    method AddHit(h: Hit)
      modifies this
      ensures View() == Expiring(Added(old(View()), h), h.stamp, CeilSeconds(limits.windowSizeMs))
    {
      scores := scores[h := h.stamp];
      var seconds := CeilSeconds(limits.windowSizeMs);
      if seconds <= 0 {
        Delete();
      } else {
        deadline := Some(h.stamp + 1000 * seconds);
      }
    }

    method CheckRateLimit(now: int, random: nat) returns (reply: Reply)
      modifies this
      ensures View() == Checked(old(View()), limits, Hit(now, random))
      ensures reply == ReplyOf(old(View()), limits, now)
    {
      ZRemRangeByScore(now - limits.windowSizeMs, now);
      var currentCount := |scores|;
      var remaining := Max0(limits.maxRequests - currentCount);
      if currentCount < limits.maxRequests {
        AddHit(Hit(now, random));
        reply := Reply(true, remaining - 1, currentCount + 1);
      } else {
        reply := Reply(false, remaining, currentCount);
      }
    }

    method IncrementCounter(now: int, random: nat)
      modifies this
      ensures View() == Incremented(old(View()), limits, Hit(now, random))
    {
      ZRemRangeByScore(now - limits.windowSizeMs, now);
      AddHit(Hit(now, random));
    }

    /** Other callers act on the key. */
    method Elapse(k: Key)
      modifies this
      ensures View() == k
    {
      scores, deadline := k.scores, k.deadline;
    }

    /** Two commands: the trimming at `now`, and the counting at `later`, when the key is `between`. */
    method GetRateLimitStatus(now: int, between: Key, later: int)
      returns (ghost trimmed: Key, requestCount: nat, remaining: int)
      modifies this
      ensures trimmed == Cleaned(old(View()), limits, now) && View() == between
      ensures requestCount == |Visible(between, later).scores|
      ensures remaining == Max0(limits.maxRequests - requestCount)
    {
      ZRemRangeByScore(now - limits.windowSizeMs, now);
      trimmed := View();
      Elapse(between);
      requestCount := if deadline.Some? && deadline.value <= later then 0 else |scores|;
      remaining := Max0(limits.maxRequests - requestCount);
    }

    method ResetRateLimit()
      modifies this
      ensures View() == ABSENT
    {
      Delete();
    }
  }

  // ----- runs -----

  /** `hits` are the calls counted since the last reset, `granted` those of them that were checks. */
  datatype State = State(key: Key, clock: int, hits: seq<Hit>, granted: seq<Hit>)

  datatype Event =
    | Check(hit: Hit)
    | Increment(hit: Hit)
    | Status(now: int)
    | Reset(now: int)

  function TimeOf(e: Event): int {
    match e
    case Check(h) => h.stamp
    case Increment(h) => h.stamp
    case Status(now) => now
    case Reset(now) => now
  }

  predicate Enabled(s: State, e: Event) {
    s.clock <= TimeOf(e)
  }

  function Next(s: State, limits: Limits, e: Event): State {
    match e
    case Check(h) =>
      var log := if HasRoom(s.key, limits, h.stamp) then [h] else [];
      State(Checked(s.key, limits, h), h.stamp, s.hits + log, s.granted + log)
    case Increment(h) => State(Incremented(s.key, limits, h), h.stamp, s.hits + [h], s.granted)
    case Status(now) => s.(key := Cleaned(s.key, limits, now), clock := now)
    case Reset(now) => State(ABSENT, now, [], [])
  }

  ghost predicate IsRun(t: seq<State>, limits: Limits, es: seq<Event>) {
    && |t| == |es| + 1
    && t[0] == State(ABSENT, t[0].clock, [], [])
    && forall i {:trigger es[i]} | 0 <= i < |es| :: Enabled(t[i], es[i]) && t[i + 1] == Next(t[i], limits, es[i])
  }

  // ----- the sliding window by its definition -----

  function Live(hits: seq<Hit>, limits: Limits, now: int): set<Hit> {
    set h | h in hits && h.stamp > now - limits.windowSizeMs
  }

  function Within(calls: seq<Hit>, after: int, upTo: int): seq<Hit> {
    if calls == [] then []
    else
      var last := calls[|calls| - 1];
      Within(calls[..|calls| - 1], after, upTo) + if after < last.stamp <= upTo then [last] else []
  }

  predicate Distinct(hits: seq<Hit>) {
    hits == [] || (hits[|hits| - 1] !in hits[..|hits| - 1] && Distinct(hits[..|hits| - 1]))
  }

  // ----- what the key stands for -----

  predicate OutlivesAll(s: State, limits: Limits) {
    s.key.deadline.Some? && forall h | h in s.hits :: h.stamp + limits.windowSizeMs <= s.key.deadline.value
  }

  /** The key holds every hit that is still inside the window, and outlives all of them. */
  ghost predicate Faithful(s: State, limits: Limits) {
    && (forall h | h in s.hits :: h.stamp <= s.clock)
    && (forall h | h in s.granted :: h in s.hits)
    && (forall m | m in s.key.scores :: m in s.hits && s.key.scores[m] == m.stamp)
    && (forall h | h in s.hits && h.stamp > s.clock - limits.windowSizeMs :: h in s.key.scores)
    && (s.key.scores == map[] || OutlivesAll(s, limits))
  }

  /** After the expiry of the key and the trimming, exactly the window is left: an expired key had no
      live entry. */
  lemma CleanedIsLive(s: State, limits: Limits, now: int)
    requires Faithful(s, limits) && s.clock <= now
    ensures Cleaned(s.key, limits, now).scores.Keys == Live(s.hits, limits, now)
    ensures |Cleaned(s.key, limits, now).scores| == |Live(s.hits, limits, now)|
    ensures Faithful(s.(key := Cleaned(s.key, limits, now), clock := now), limits)
  {
    var v, c := Visible(s.key, now), Cleaned(s.key, limits, now);
    forall h
      ensures h in c.scores <==> h in Live(s.hits, limits, now)
    {
      if h in s.hits && h.stamp > now - limits.windowSizeMs {
        assert h in v.scores;
        assert h in (map m | m in v.scores && v.scores[m] > now - limits.windowSizeMs :: v.scores[m]);
      }
    }
    assert |c.scores| == |c.scores.Keys|;
  }

  lemma IncrementKeeps(s: State, limits: Limits, h: Hit, granted: seq<Hit>)
    requires Faithful(s, limits) && s.clock <= h.stamp
    requires forall g | g in granted :: g in s.hits + [h]
    ensures Faithful(State(Incremented(s.key, limits, h), h.stamp, s.hits + [h], granted), limits)
  {
    CleanedIsLive(s, limits, h.stamp);
    assert 1000 * CeilSeconds(limits.windowSizeMs) >= limits.windowSizeMs;
  }

  lemma StepKeeps(s: State, limits: Limits, e: Event)
    requires Faithful(s, limits) && Enabled(s, e)
    ensures Faithful(Next(s, limits, e), limits)
  {
    match e {
      case Check(h) =>
        CleanedIsLive(s, limits, h.stamp);
        if HasRoom(s.key, limits, h.stamp) {
          IncrementKeeps(s, limits, h, s.granted + [h]);
        }
      case Increment(h) =>
        IncrementKeeps(s, limits, h, s.granted);
      case Status(now) =>
        CleanedIsLive(s, limits, now);
      case Reset(_) =>
    }
  }

  lemma {:induction false} RunKeeps(t: seq<State>, limits: Limits, es: seq<Event>)
    requires IsRun(t, limits, es)
    ensures Faithful(t[|es|], limits)
  {
    if es != [] {
      var n := |es| - 1;
      RunKeeps(t[..|es|], limits, es[..n]);
      assert es[n] == es[|es| - 1] && t[..|es|][n] == t[n];
      StepKeeps(t[n], limits, es[n]);
    }
  }

  /** The expiry of the key, a whole number of seconds, never takes a hit that is still live. */
  lemma ExpiryLosesNothing(t: seq<State>, limits: Limits, es: seq<Event>, now: int)
    requires IsRun(t, limits, es) && t[|es|].clock <= now
    ensures Visible(t[|es|].key, now) != t[|es|].key ==> Live(t[|es|].hits, limits, now) == {}
  {
    RunKeeps(t, limits, es);
  }

  /** The deadline of the key lies less than a second after the window of the last counted call. */
  ghost predicate DeadlineIs(s: State, limits: Limits) {
    s.key.deadline.Some? ==>
      && s.hits != []
      && limits.windowSizeMs <= s.key.deadline.value - s.hits[|s.hits| - 1].stamp < limits.windowSizeMs + 1000
  }

  lemma DeadlineStep(s: State, limits: Limits, e: Event)
    requires Enabled(s, e) && DeadlineIs(s, limits)
    ensures DeadlineIs(Next(s, limits, e), limits)
  {
  }

  lemma DeadlineAt(t: seq<State>, limits: Limits, es: seq<Event>, i: nat)
    requires IsRun(t, limits, es) && 0 < i <= |es| && DeadlineIs(t[i - 1], limits)
    ensures DeadlineIs(t[i], limits)
  {
    DeadlineStep(t[i - 1], limits, es[i - 1]);
  }

  /** A key never outlives the window of its last counted call by a second or more: a user who stops
      calling is forgotten. */
  lemma {:induction false} KeyIsForgotten(t: seq<State>, limits: Limits, es: seq<Event>, i: nat, now: int)
    requires IsRun(t, limits, es) && i <= |es|
    requires forall h | h in t[i].hits :: h.stamp + limits.windowSizeMs + 1000 <= now
    ensures DeadlineIs(t[i], limits)
    ensures t[i].key.deadline.Some? ==> Visible(t[i].key, now) == ABSENT
    decreases i
  {
    if i > 0 {
      DeadlinesAre(t, limits, es, i);
    }
  }

  lemma {:induction false} DeadlinesAre(t: seq<State>, limits: Limits, es: seq<Event>, i: nat)
    requires IsRun(t, limits, es) && i <= |es|
    ensures DeadlineIs(t[i], limits)
    decreases i
  {
    if i > 0 {
      DeadlinesAre(t, limits, es, i - 1);
      DeadlineAt(t, limits, es, i);
    }
  }

  /** After a reset, a check is allowed if and only if any is, and is the first of its window. */
  lemma ResetStartsOver(t: seq<State>, limits: Limits, es: seq<Event>, now: int)
    requires IsRun(t, limits, es) && es != [] && es[|es| - 1].Reset? && t[|es|].clock <= now
    ensures ReplyOf(t[|es|].key, limits, now) ==
              if limits.maxRequests > 0 then Reply(true, limits.maxRequests - 1, 1) else Reply(false, 0, 0)
  {
    AnswersAreOfTheWindow(t, limits, es, now);
  }

  /** The answer to a check at the end of any run is the one of the definition: it is refused only
      when the window is already full, and the numbers reported are those of the window. */
  lemma AnswersAreOfTheWindow(t: seq<State>, limits: Limits, es: seq<Event>, now: int)
    requires IsRun(t, limits, es) && t[|es|].clock <= now
    ensures var live := |Live(t[|es|].hits, limits, now)|;
            ReplyOf(t[|es|].key, limits, now) ==
              if live < limits.maxRequests
              then Reply(true, limits.maxRequests - live - 1, live + 1)
              else Reply(false, 0, live)
  {
    RunKeeps(t, limits, es);
    CleanedIsLive(t[|es|], limits, now);
  }

  // ----- what a status request counts -----

  /** Nothing as old as `after` is stored. */
  predicate Trim(k: Key, after: int) {
    forall m | m in k.scores :: k.scores[m] > after
  }

  lemma TrimStays(s: State, limits: Limits, e: Event, after: int)
    requires Enabled(s, e) && Trim(s.key, after) && after <= s.clock - limits.windowSizeMs
    ensures Trim(Next(s, limits, e).key, after)
    ensures after <= Next(s, limits, e).clock - limits.windowSizeMs
  {
  }

  lemma TrimStaysAt(t: seq<State>, limits: Limits, es: seq<Event>, i: nat, after: int)
    requires IsRun(t, limits, es) && i < |es| && Trim(t[i].key, after) && after <= t[i].clock - limits.windowSizeMs
    ensures Trim(t[i + 1].key, after) && after <= t[i + 1].clock - limits.windowSizeMs
  {
    TrimStays(t[i], limits, es[i], after);
  }

  lemma {:induction false} TrimmedThroughout(t: seq<State>, limits: Limits, es: seq<Event>, i: nat, j: nat)
    requires IsRun(t, limits, es) && i < j <= |es| && es[i].Status?
    ensures Trim(t[j].key, es[i].now - limits.windowSizeMs)
    ensures es[i].now - limits.windowSizeMs <= t[j].clock - limits.windowSizeMs
    decreases j
  {
    if i + 1 == j {
      assert t[i + 1] == Next(t[i], limits, es[i]);
    } else {
      TrimmedThroughout(t, limits, es, i, j - 1);
      TrimStaysAt(t, limits, es, j - 1, es[i].now - limits.windowSizeMs);
    }
  }

  /** The set that a status request counts at `later`, after whatever others did since it trimmed the
      set at step `i`: all calls of the window that ends at `later`, and none outside the one that
      ended when it trimmed. */
  lemma StatusCountsTheWindow(t: seq<State>, limits: Limits, es: seq<Event>, i: nat, later: int)
    requires IsRun(t, limits, es) && i < |es| && es[i].Status? && t[|es|].clock <= later
    ensures var counted := Visible(t[|es|].key, later).scores.Keys;
            Live(t[|es|].hits, limits, later) <= counted <= Live(t[|es|].hits, limits, es[i].now)
  {
    var s := t[|es|];
    TrimmedThroughout(t, limits, es, i, |es|);
    RunKeeps(t, limits, es);
    CleanedIsLive(s, limits, later);
  }

  // ----- the bound -----

  lemma {:induction false} WithinIs(calls: seq<Hit>, after: int, upTo: int, h: Hit)
    ensures h in Within(calls, after, upTo) <==> h in calls && after < h.stamp <= upTo
  {
    if calls != [] {
      var n := |calls| - 1;
      WithinIs(calls[..n], after, upTo, h);
      assert calls == calls[..n] + [calls[n]];
    }
  }

  lemma WithinAppend(calls: seq<Hit>, last: Hit, after: int, upTo: int)
    ensures Within(calls + [last], after, upTo)
         == Within(calls, after, upTo) + if after < last.stamp <= upTo then [last] else []
  {
    assert (calls + [last])[..|calls|] == calls;
  }

  lemma {:induction false} WithinFits(calls: seq<Hit>, after: int, upTo: int, room: set<Hit>)
    requires Distinct(calls)
    requires forall h | h in calls && after < h.stamp <= upTo :: h in room
    ensures |Within(calls, after, upTo)| <= |room|
  {
    if calls != [] {
      var n := |calls| - 1;
      var last := calls[n];
      assert calls == calls[..n] + [last];
      if after < last.stamp <= upTo {
        WithinFits(calls[..n], after, upTo, room - {last});
      } else {
        WithinFits(calls[..n], after, upTo, room);
      }
    }
  }

  ghost predicate Bounded(s: State, limits: Limits) {
    forall at: int :: BoundedAt(s.granted, limits, at)
  }

  predicate BoundedAt(granted: seq<Hit>, limits: Limits, at: int) {
    var calls := Within(granted, at - limits.windowSizeMs, at);
    calls == [] || |calls| <= limits.maxRequests
  }

  /** All granted calls of a window that `now` closes are still live at `now`. */
  lemma GrantedAreLive(s: State, limits: Limits, now: int, at: int)
    requires forall h | h in s.granted :: h in s.hits
    requires now <= at && Distinct(s.granted)
    ensures |Within(s.granted, at - limits.windowSizeMs, at)| <= |Live(s.hits, limits, now)|
  {
    WithinFits(s.granted, at - limits.windowSizeMs, at, Live(s.hits, limits, now));
  }

  lemma RoomIsOfTheWindow(s: State, limits: Limits, now: int)
    requires Faithful(s, limits) && s.clock <= now
    ensures HasRoom(s.key, limits, now) <==> |Live(s.hits, limits, now)| < limits.maxRequests
  {
    CleanedIsLive(s, limits, now);
  }

  lemma GrantKeepsBound(s: State, limits: Limits, h: Hit, at: int)
    requires forall g | g in s.granted :: g in s.hits
    requires |Live(s.hits, limits, h.stamp)| < limits.maxRequests
    requires BoundedAt(s.granted, limits, at) && Distinct(s.granted)
    ensures BoundedAt(s.granted + [h], limits, at)
  {
    WithinAppend(s.granted, h, at - limits.windowSizeMs, at);
    if h.stamp <= at {
      GrantedAreLive(s, limits, h.stamp, at);
    }
  }

  /** The store has no member yet that equals the one of a new call. */
  ghost predicate FreshMembers(t: seq<State>, es: seq<Event>)
    requires |t| == |es| + 1
  {
    forall i | 0 <= i < |es| && (es[i].Check? || es[i].Increment?) :: es[i].hit !in t[i].hits
  }

  /** For every instant `at`, at most `maxRequests` calls are allowed between `at - windowSizeMs`,
      exclusive, and `at`. */
  lemma {:induction false} NoMoreThanMax(t: seq<State>, limits: Limits, es: seq<Event>)
    requires IsRun(t, limits, es) && FreshMembers(t, es)
    ensures Bounded(t[|es|], limits) && Distinct(t[|es|].granted)
  {
    if es == [] {
      assert forall at: int :: BoundedAt([], limits, at);
    } else {
      var n := |es| - 1;
      var s, e := t[n], es[n];
      assert t[..|es|][n] == s;
      NoMoreThanMax(t[..|es|], limits, es[..n]);
      RunKeeps(t[..|es|], limits, es[..n]);
      if e.Check? && HasRoom(s.key, limits, e.hit.stamp) {
        assert e.hit !in s.granted;
        RoomIsOfTheWindow(s, limits, e.hit.stamp);
        forall at: int
          ensures BoundedAt(s.granted + [e.hit], limits, at)
        {
          GrantKeepsBound(s, limits, e.hit, at);
        }
      } else {
        assert t[|es|].granted == if e.Reset? then [] else s.granted;
        assert forall at: int :: BoundedAt([], limits, at) && BoundedAt(s.granted, limits, at);
      }
    }
  }

  // ----- when members repeat -----

  lemma {:induction false} DistinctIffAllCounted(calls: seq<Hit>, members: set<Hit>)
    requires members == set h | h in calls
    ensures |members| <= |calls|
    ensures |members| == |calls| <==> Distinct(calls)
  {
    if calls != [] {
      var n := |calls| - 1;
      var rest, last := calls[..n], calls[n];
      assert calls == rest + [last];
      var m := set h | h in rest;
      DistinctIffAllCounted(rest, m);
      assert members == m + {last};
      if last in rest { assert members == m; }
    }
  }

  /** A call whose member repeats another overwrites it: the set counts every call of the window if
      and only if their members are distinct. */
  lemma AllCountedIffDistinct(t: seq<State>, limits: Limits, es: seq<Event>, now: int)
    requires IsRun(t, limits, es) && t[|es|].clock <= now
    ensures var calls := Within(t[|es|].hits, now - limits.windowSizeMs, now);
            |Cleaned(t[|es|].key, limits, now).scores| == |calls| <==> Distinct(calls)
  {
    var s := t[|es|];
    var calls := Within(s.hits, now - limits.windowSizeMs, now);
    RunKeeps(t, limits, es);
    CleanedIsLive(s, limits, now);
    forall h
      ensures h in calls <==> h in Live(s.hits, limits, now)
    {
      WithinIs(s.hits, now - limits.windowSizeMs, now, h);
    }
    DistinctIffAllCounted(calls, Live(s.hits, limits, now));
  }

  lemma {:induction false} NothingWithin(calls: seq<Hit>, after: int, upTo: int)
    requires forall h | h in calls :: !(after < h.stamp <= upTo)
    ensures Within(calls, after, upTo) == []
  {
    if calls != [] {
      var n := |calls| - 1;
      assert calls == calls[..n] + [calls[n]];
      NothingWithin(calls[..n], after, upTo);
    }
  }

  /** Configurations under which repeated members do no harm. */
  predicate Indifferent(limits: Limits) {
    limits.maxRequests <= 1 || limits.windowSizeMs <= 0
  }

  lemma IndifferentGrant(s: State, limits: Limits, h: Hit, at: int)
    requires Indifferent(limits) && forall g | g in s.granted :: g in s.hits
    requires |Live(s.hits, limits, h.stamp)| < limits.maxRequests && BoundedAt(s.granted, limits, at)
    ensures BoundedAt(s.granted + [h], limits, at)
  {
    WithinAppend(s.granted, h, at - limits.windowSizeMs, at);
    if at - limits.windowSizeMs < h.stamp <= at {
      assert Live(s.hits, limits, h.stamp) == {};
      forall g | g in s.granted
        ensures g.stamp <= at - limits.windowSizeMs
      {
        assert g !in Live(s.hits, limits, h.stamp);
      }
      NothingWithin(s.granted, at - limits.windowSizeMs, at);
    }
  }

  lemma IndifferentStep(s: State, limits: Limits, e: Event)
    requires Indifferent(limits) && Faithful(s, limits) && Bounded(s, limits) && Enabled(s, e)
    ensures Bounded(Next(s, limits, e), limits)
  {
    if e.Check? && HasRoom(s.key, limits, e.hit.stamp) {
      RoomIsOfTheWindow(s, limits, e.hit.stamp);
      forall at: int
        ensures BoundedAt(s.granted + [e.hit], limits, at)
      {
        IndifferentGrant(s, limits, e.hit, at);
      }
    } else {
      assert forall at: int :: BoundedAt([], limits, at) && BoundedAt(s.granted, limits, at);
      assert Next(s, limits, e).granted == if e.Reset? then [] else s.granted;
    }
  }

  lemma {:induction false} IndifferentRun(t: seq<State>, limits: Limits, es: seq<Event>)
    requires IsRun(t, limits, es) && Indifferent(limits)
    ensures Bounded(t[|es|], limits)
  {
    if es == [] {
      assert forall at: int :: BoundedAt([], limits, at);
    } else {
      var n := |es| - 1;
      assert es[n] == es[|es| - 1] && t[..|es|][n] == t[n];
      IndifferentRun(t[..|es|], limits, es[..n]);
      RunKeeps(t[..|es|], limits, es[..n]);
      IndifferentStep(t[n], limits, es[n]);
    }
  }

  function OneMember(h: Hit, limits: Limits): Key {
    Key(map[h := h.stamp], Some(h.stamp + 1000 * CeilSeconds(limits.windowSizeMs)))
  }

  /** The key after any number of calls that all have the member `h`. */
  lemma RepeatIsGranted(h: Hit, limits: Limits, g: seq<Hit>)
    requires h == Hit(0, 7) && !Indifferent(limits)
    ensures Incremented(ABSENT, limits, h) == OneMember(h, limits)
    ensures Cleaned(ABSENT, limits, 0) == ABSENT
    ensures var s := State(OneMember(h, limits), 0, g, g);
            Next(s, limits, Check(h)) == State(s.key, 0, g + [h], g + [h])
  {
    var k := OneMember(h, limits);
    assert CeilSeconds(limits.windowSizeMs) >= 1;
    assert Visible(k, 0) == k;
    assert (map m | m in k.scores && k.scores[m] > -limits.windowSizeMs :: k.scores[m]) == k.scores;
    assert |k.scores| == 1;
  }

  /** Any number of calls with one member is allowed at one instant. */
  lemma {:induction false} RepeatedMembersEscape(limits: Limits, n: nat) returns (t: seq<State>, es: seq<Event>)
    requires !Indifferent(limits)
    ensures IsRun(t, limits, es) && t[|es|].clock == 0
    ensures |Within(t[|es|].granted, -limits.windowSizeMs, 0)| == n
    ensures n > 0 ==> t[|es|] == State(OneMember(Hit(0, 7), limits), 0, t[|es|].granted, t[|es|].granted)
    ensures n == 0 ==> es == []
  {
    var h := Hit(0, 7);
    if n == 0 {
      t, es := [State(ABSENT, 0, [], [])], [];
    } else {
      t, es := RepeatedMembersEscape(limits, n - 1);
      var s := t[|es|];
      RepeatIsGranted(h, limits, s.granted);
      WithinAppend(s.granted, h, -limits.windowSizeMs, 0);
      t, es := Longer(t, limits, es, Check(h));
    }
  }

  lemma Longer(t: seq<State>, limits: Limits, es: seq<Event>, e: Event) returns (t': seq<State>, es': seq<Event>)
    requires IsRun(t, limits, es) && Enabled(t[|es|], e)
    ensures IsRun(t', limits, es') && es' == es + [e] && t' == t + [Next(t[|es|], limits, e)]
  {
    t', es' := t + [Next(t[|es|], limits, e)], es + [e];
    forall i {:trigger es'[i]} | 0 <= i < |es'|
      ensures Enabled(t'[i], es'[i]) && t'[i + 1] == Next(t'[i], limits, es'[i])
    {
      if i < |es| { assert es'[i] == es[i]; }
    }
  }

  /** The limiter keeps its bound in every run, repeated members included, if and only if it allows
      at most one call or has no window; for every other configuration some run breaks it. */
  lemma BoundHoldsIff(limits: Limits)
    ensures (forall t, es | IsRun(t, limits, es) :: Bounded(t[|es|], limits))
            <==> limits.maxRequests <= 1 || limits.windowSizeMs <= 0
  {
    if Indifferent(limits) {
      forall t, es | IsRun(t, limits, es)
        ensures Bounded(t[|es|], limits)
      {
        IndifferentRun(t, limits, es);
      }
    } else {
      var t, es := RepeatedMembersEscape(limits, limits.maxRequests + 1);
      assert !BoundedAt(t[|es|].granted, limits, 0);
    }
  }
}
