/** The gateway's fixed-window rate limiter: services/api-gateway/internal/ratelimit/ratelimit.go.
    The clock is a parameter; times are integers, as nanoseconds are. */
module RateLimiter {
  import opened Text

  type Ip = string
  type Time = int

  datatype Entry = Entry(count: int, resetAt: Time)

  type Entries = map<Ip, Entry>

  /** What is fixed when the limiter is made; a ticker needs a positive window. */
  datatype Config = Config(limit: int, window: Time)

  predicate Valid(c: Config) {
    c.window > 0
  }

  /** The entries after a request and whether it is let through. */
  function Admit(c: Config, entries: Entries, ip: Ip, now: Time): (Entries, bool) {
    if ip !in entries || now > entries[ip].resetAt then (entries[ip := Entry(1, now + c.window)], true)
    else
      var e := Entry(entries[ip].count + 1, entries[ip].resetAt);
      (entries[ip := e], e.count <= c.limit)
  }

  /** The entries that a cleanup leaves. */
  function Unexpired(entries: Entries, now: Time): Entries {
    map ip | ip in entries && now <= entries[ip].resetAt :: entries[ip]
  }

  class Limiter {
    const config: Config
    var entries: Entries

    constructor (limit: int, window: Time)
      requires window > 0
      ensures config == Config(limit, window) && entries == map[]
    {
      config := Config(limit, window);
      entries := map[];
    }

    method Allow(ip: Ip, now: Time) returns (ok: bool)
      modifies this
      ensures (entries, ok) == Admit(config, old(entries), ip, now)
    {
      if ip !in entries || now > entries[ip].resetAt {
        entries := entries[ip := Entry(1, now + config.window)];
        return true;
      }
      var e := entries[ip];
      e := e.(count := e.count + 1);
      entries := entries[ip := e];
      ok := e.count <= config.limit;
    }

    /** One tick of the cleanup goroutine: the loop deletes while it ranges over the map. */
    method Cleanup(now: Time)
      modifies this
      ensures entries == Unexpired(old(entries), now)
    {
      var todo := entries.Keys;
      while todo != {}
        invariant todo <= entries.Keys <= old(entries).Keys
        invariant forall ip | ip in entries :: entries[ip] == old(entries)[ip]
        invariant forall ip | ip in old(entries) && ip !in todo :: ip in entries <==> now <= old(entries)[ip].resetAt
        decreases |todo|
      {
        var ip :| ip in todo;
        todo := todo - {ip};
        if now > entries[ip].resetAt {
          entries := entries - {ip};
        }
      }
    }
  }

  // ---------- Runs ----------

  datatype Event = Request(ip: Ip, at: Time) | Sweep(at: Time)

  predicate Ordered(events: seq<Event>) {
    forall i, j | 0 <= i <= j < |events| :: events[i].at <= events[j].at
  }

  function EntriesAfter(c: Config, events: seq<Event>): Entries {
    if events == [] then map[]
    else
      var before := EntriesAfter(c, events[..|events| - 1]);
      match events[|events| - 1]
      case Request(ip, at) => Admit(c, before, ip, at).0
      case Sweep(at) => Unexpired(before, at)
  }

  /** The times at which requests from `ip` were let through. */
  function Allowed(c: Config, events: seq<Event>, ip: Ip): seq<Time> {
    if events == [] then []
    else
      var before := events[..|events| - 1];
      var last := events[|events| - 1];
      Allowed(c, before, ip) +
      if last.Request? && last.ip == ip && Admit(c, EntriesAfter(c, before), ip, last.at).1 then [last.at] else []
  }

  function WithoutSweeps(events: seq<Event>): seq<Event> {
    if events == [] then []
    else
      var last := events[|events| - 1];
      WithoutSweeps(events[..|events| - 1]) + if last.Request? then [last] else []
  }

  lemma RunSnoc(c: Config, events: seq<Event>, e: Event, ip: Ip)
    ensures EntriesAfter(c, events + [e]) ==
            match e
            case Request(r, at) => Admit(c, EntriesAfter(c, events), r, at).0
            case Sweep(at) => Unexpired(EntriesAfter(c, events), at)
    ensures Allowed(c, events + [e], ip) == Allowed(c, events, ip) +
            if e.Request? && e.ip == ip && Admit(c, EntriesAfter(c, events), ip, e.at).1 then [e.at] else []
  {
    assert (events + [e])[..|events|] == events;
  }

  // ---------- Cleanup is invisible ----------

  /** `swept` is `full` without some entries that had expired by `now`. */
  predicate Agree(swept: Entries, full: Entries, now: Time) {
    && (forall ip | ip in swept :: ip in full && swept[ip] == full[ip])
    && (forall ip | ip in full && ip !in swept :: full[ip].resetAt < now)
  }

  lemma AdmitAgrees(c: Config, swept: Entries, full: Entries, was: Time, ip: Ip, now: Time)
    requires Valid(c) && Agree(swept, full, was) && was <= now
    ensures Admit(c, swept, ip, now).1 == Admit(c, full, ip, now).1
    ensures Agree(Admit(c, swept, ip, now).0, Admit(c, full, ip, now).0, now)
  {
  }

  lemma {:induction false} SweepsAgree(c: Config, events: seq<Event>, ip: Ip, now: Time)
    requires Valid(c) && Ordered(events) && forall i | 0 <= i < |events| :: events[i].at <= now
    ensures Agree(EntriesAfter(c, events), EntriesAfter(c, WithoutSweeps(events)), now)
    ensures Allowed(c, events, ip) == Allowed(c, WithoutSweeps(events), ip)
  {
    if events != [] {
      var before, last := events[..|events| - 1], events[|events| - 1];
      assert forall i | 0 <= i < |before| :: before[i] == events[i];
      SweepsAgree(c, before, ip, last.at);
      if last.Request? {
        RunSnoc(c, WithoutSweeps(before), last, ip);
        AdmitAgrees(c, EntriesAfter(c, before), EntriesAfter(c, WithoutSweeps(before)), last.at, last.ip, last.at);
      } else {
        assert WithoutSweeps(events) == WithoutSweeps(before);
      }
    }
  }

  /** Cleanup steps, wherever they are inserted in a run, change no answer: not of the requests so
      far, and not of the next one, from whichever address and at whatever later time. */
  lemma CleanupInvisible(c: Config, events: seq<Event>, ip: Ip, now: Time)
    requires Valid(c) && Ordered(events) && forall i | 0 <= i < |events| :: events[i].at <= now
    ensures Allowed(c, events, ip) == Allowed(c, WithoutSweeps(events), ip)
    ensures Admit(c, EntriesAfter(c, events), ip, now).1 == Admit(c, EntriesAfter(c, WithoutSweeps(events)), ip, now).1
  {
    SweepsAgree(c, events, ip, now);
    AdmitAgrees(c, EntriesAfter(c, events), EntriesAfter(c, WithoutSweeps(events)), now, ip, now);
  }

  // ---------- How many requests an interval can let through ----------

  /** The number of times in the closed interval from `lo` to `hi`. */
  function Count(times: seq<Time>, lo: Time, hi: Time): nat {
    if times == [] then 0
    else Count(times[..|times| - 1], lo, hi) + if lo <= times[|times| - 1] <= hi then 1 else 0
  }

  lemma CountSnoc(times: seq<Time>, t: Time, lo: Time, hi: Time)
    ensures Count(times + [t], lo, hi) == Count(times, lo, hi) + if lo <= t <= hi then 1 else 0
  {
    assert (times + [t])[..|times|] == times;
  }

  /** A wider interval holds no fewer; beyond `last` there is nothing to hold. */
  lemma {:induction false} CountWider(times: seq<Time>, lo: Time, hi: Time, lo': Time, hi': Time, last: Time)
    requires (forall i | 0 <= i < |times| :: times[i] <= last) && lo' <= lo && (hi <= hi' || last <= hi')
    ensures Count(times, lo, hi) <= Count(times, lo', hi')
  {
    if times != [] {
      CountWider(times[..|times| - 1], lo, hi, lo', hi', last);
    }
  }

  lemma {:induction false} CountSplit(times: seq<Time>, lo: Time, mid: Time, hi: Time)
    requires lo <= mid
    ensures Count(times, lo, hi) <= Count(times, lo, mid - 1) + Count(times, mid, hi)
  {
    if times != [] { CountSplit(times[..|times| - 1], lo, mid, hi); }
  }

  lemma {:induction false} CountBeyond(times: seq<Time>, lo: Time, hi: Time)
    requires forall i | 0 <= i < |times| :: times[i] < lo
    ensures Count(times, lo, hi) == 0
  {
    if times != [] {
      CountBeyond(times[..|times| - 1], lo, hi);
    }
  }

  /** The most requests one window lets through: the first of a window always is. */
  function PerWindow(c: Config): int {
    if c.limit < 1 then 1 else c.limit
  }

  /** What the entry `e` knows about the times `allowed` of its address, `now` being the last. The
      window of `e` began at `e.resetAt - window`, with a request that was let through. */
  ghost predicate Tracks(c: Config, allowed: seq<Time>, e: Entry, now: Time) {
    var start := e.resetAt - c.window;
    var max := PerWindow(c);
    && start <= now && e.count >= 1
    && (forall i | 0 <= i < |allowed| :: allowed[i] <= now && allowed[i] <= e.resetAt)
    && Count(allowed, start, now) <= e.count && Count(allowed, start, now) <= max
    && Count(allowed, start + 1, now) <= e.count - 1 && Count(allowed, start + 1, now) <= max - 1
    && Count(allowed, start - c.window, start - 1) <= max - 1
    && forall a, b | b == a + c.window :: Count(allowed, a, b) <= 2 * max - 1
  }

  lemma TracksNewWindow(c: Config, allowed: seq<Time>, e: Entry, was: Time, now: Time)
    requires Valid(c) && Tracks(c, allowed, e, was) && was <= now && now > e.resetAt
    ensures Tracks(c, allowed + [now], Entry(1, now + c.window), now)
  {
    hide Count;
    var start := e.resetAt - c.window;
    CountSnoc(allowed, now, now, now);
    CountSnoc(allowed, now, now + 1, now);
    CountSnoc(allowed, now, now - c.window, now - 1);
    CountBeyond(allowed, now, now);
    CountBeyond(allowed, now + 1, now);
    CountWider(allowed, now - c.window, now - 1, start + 1, was, was);
    forall a, b | b == a + c.window
      ensures Count(allowed + [now], a, b) <= 2 * PerWindow(c) - 1
    {
      CountSnoc(allowed, now, a, b);
      if a <= now <= b {
        CountWider(allowed, a, b, start + 1, was, was);
      }
    }
  }

  lemma TracksFirst(c: Config, now: Time)
    requires Valid(c)
    ensures Tracks(c, [now], Entry(1, now + c.window), now)
  {
    assert forall lo, hi :: Count([], lo, hi) == 0;
    forall lo, hi
      ensures Count([now], lo, hi) == if lo <= now <= hi then 1 else 0
    {
      CountSnoc([], now, lo, hi);
      assert [] + [now] == [now];
    }
  }

  lemma TracksRefused(c: Config, allowed: seq<Time>, e: Entry, was: Time, now: Time)
    requires Valid(c) && Tracks(c, allowed, e, was) && was <= now <= e.resetAt
    ensures Tracks(c, allowed, Entry(e.count + 1, e.resetAt), now)
  {
    hide Count;
    var start := e.resetAt - c.window;
    CountWider(allowed, start, now, start, was, was);
    CountWider(allowed, start + 1, now, start + 1, was, was);
  }

  lemma AllowedBound(c: Config, allowed: seq<Time>, e: Entry, was: Time, now: Time, a: Time, b: Time)
    requires Valid(c) && Tracks(c, allowed, e, was) && was <= now <= e.resetAt && b == a + c.window
    requires Count(allowed + [now], e.resetAt - c.window, now) <= PerWindow(c)
    requires Count(allowed + [now], e.resetAt - c.window + 1, now) <= PerWindow(c) - 1
    ensures Count(allowed + [now], a, b) <= 2 * PerWindow(c) - 1
  {
    var start, times := e.resetAt - c.window, allowed + [now];
    CountSnoc(allowed, now, a, b);
    CountSnoc(allowed, now, start - c.window, start - 1);
    if start < a && a <= now <= b {
      CountWider(times, a, b, start + 1, now, now);
    } else if a <= now <= b {
      CountSplit(times, a, start, b);
      CountWider(times, start, b, start, now, now);
      CountWider(times, a, start - 1, start - c.window, start - 1, now);
    }
  }

  lemma TracksAllowed(c: Config, allowed: seq<Time>, e: Entry, was: Time, now: Time)
    requires Valid(c) && Tracks(c, allowed, e, was) && was <= now <= e.resetAt && e.count + 1 <= c.limit
    ensures Tracks(c, allowed + [now], Entry(e.count + 1, e.resetAt), now)
  {
    hide Count;
    var start := e.resetAt - c.window;
    CountWider(allowed, start, now, start, was, was);
    CountWider(allowed, start + 1, now, start + 1, was, was);
    CountSnoc(allowed, now, start, now);
    CountSnoc(allowed, now, start + 1, now);
    CountSnoc(allowed, now, start - c.window, start - 1);
    forall a, b | b == a + c.window
      ensures Count(allowed + [now], a, b) <= 2 * PerWindow(c) - 1
    {
      AllowedBound(c, allowed, e, was, now, a, b);
    }
  }

  /** After any run of requests, what the entry tracks was true at some time `was` not later. */
  lemma {:induction false} RunTracks(c: Config, events: seq<Event>, ip: Ip, now: Time) returns (was: Time)
    requires Valid(c) && Ordered(events) && forall i | 0 <= i < |events| :: events[i].Request? && events[i].at <= now
    ensures ip !in EntriesAfter(c, events) ==> Allowed(c, events, ip) == []
    ensures was <= now
    ensures ip in EntriesAfter(c, events) ==>
              Tracks(c, Allowed(c, events, ip), EntriesAfter(c, events)[ip], was)
  {
    was := now;
    if events != [] {
      var before, last := events[..|events| - 1], events[|events| - 1];
      assert forall i | 0 <= i < |before| :: before[i] == events[i];
      was := RunTracks(c, before, ip, last.at);
      assert events == before + [last];
      RunSnoc(c, before, last, ip);
      hide EntriesAfter, Allowed, Tracks, Ordered;
      if last.ip != ip {
        assert Allowed(c, before, ip) + [] == Allowed(c, before, ip);
      } else {
        StepTracks(c, EntriesAfter(c, before), Allowed(c, before, ip), ip, was, last.at);
        was := last.at;
      }
    }
  }

  lemma StepTracks(c: Config, entries: Entries, allowed: seq<Time>, ip: Ip, was: Time, now: Time)
    requires Valid(c) && was <= now
    requires if ip in entries then Tracks(c, allowed, entries[ip], was) else allowed == []
    ensures var (after, ok) := Admit(c, entries, ip, now);
            ip in after && Tracks(c, allowed + if ok then [now] else [], after[ip], now)
  {
    hide Tracks;
    if ip !in entries {
      TracksFirst(c, now);
      assert [] + [now] == [now];
    } else if now > entries[ip].resetAt {
      TracksNewWindow(c, allowed, entries[ip], was, now);
    } else if entries[ip].count + 1 <= c.limit {
      TracksAllowed(c, allowed, entries[ip], was, now);
    } else {
      TracksRefused(c, allowed, entries[ip], was, now);
      assert allowed + [] == allowed;
    }
  }

  lemma TracksBound(c: Config, allowed: seq<Time>, e: Entry, was: Time, a: Time)
    requires Tracks(c, allowed, e, was)
    ensures Count(allowed, a, a + c.window) <= 2 * PerWindow(c) - 1
  {
  }

  lemma {:induction false} WithoutSweepsOrdered(events: seq<Event>, now: Time)
    requires Ordered(events) && forall i | 0 <= i < |events| :: events[i].at <= now
    ensures Ordered(WithoutSweeps(events))
    ensures forall i | 0 <= i < |WithoutSweeps(events)| ::
              WithoutSweeps(events)[i].Request? && WithoutSweeps(events)[i].at <= now
  {
    if events != [] {
      var before, last := events[..|events| - 1], events[|events| - 1];
      assert forall i | 0 <= i < |before| :: before[i] == events[i];
      WithoutSweepsOrdered(before, last.at);
      var w := WithoutSweeps(before);
      forall i, j | 0 <= i <= j < |WithoutSweeps(events)|
        ensures WithoutSweeps(events)[i].at <= WithoutSweeps(events)[j].at
      {
        if j < |w| {
          assert w[i].at <= w[j].at;
        }
      }
    }
  }

  lemma RequestsPerInterval(c: Config, requests: seq<Event>, ip: Ip, now: Time, a: Time)
    requires Valid(c) && Ordered(requests)
    requires forall i | 0 <= i < |requests| :: requests[i].Request? && requests[i].at <= now
    ensures Count(Allowed(c, requests, ip), a, a + c.window) <= 2 * PerWindow(c) - 1
  {
    var was := RunTracks(c, requests, ip, now);
    hide Tracks, Ordered, EntriesAfter, Allowed;
    if ip in EntriesAfter(c, requests) {
      TracksBound(c, Allowed(c, requests, ip), EntriesAfter(c, requests)[ip], was, a);
    }
  }

  /** Over any run with a non-decreasing clock, cleanups included, a closed interval as long as the
      window contains at most 2 * max(limit, 1) - 1 allowed requests from one address. */
  lemma AllowedPerInterval(c: Config, events: seq<Event>, ip: Ip, a: Time)
    requires Valid(c) && Ordered(events)
    ensures Count(Allowed(c, events, ip), a, a + c.window) <= 2 * PerWindow(c) - 1
  {
    var now := if events == [] then 0 else events[|events| - 1].at;
    SweepsAgree(c, events, ip, now);
    WithoutSweepsOrdered(events, now);
    hide Ordered, EntriesAfter, Allowed, WithoutSweeps, Count, Agree;
    RequestsPerInterval(c, WithoutSweeps(events), ip, now, a);
  }

  // ---------- The bound is tight ----------

  /** `n` requests from one address at one time. */
  function Burst(ip: Ip, at: Time, n: nat): seq<Event> {
    if n == 0 then [] else Burst(ip, at, n - 1) + [Request(ip, at)]
  }

  /** A request at 0, and the rest of its window filled at the very end. */
  function FirstHalf(c: Config, ip: Ip): seq<Event> {
    [] + [Request(ip, 0)] + Burst(ip, c.window, PerWindow(c) - 1)
  }

  /** The next window filled just after. */
  function Straddle(c: Config, ip: Ip): seq<Event> {
    FirstHalf(c, ip) + [Request(ip, 1 + c.window)] + Burst(ip, 1 + c.window, PerWindow(c) - 1)
  }

  lemma RequestOrdered(events: seq<Event>, ip: Ip, at: Time)
    requires Ordered(events) && forall i | 0 <= i < |events| :: events[i].at <= at
    ensures Ordered(events + [Request(ip, at)])
    ensures forall i | 0 <= i < |events + [Request(ip, at)]| :: (events + [Request(ip, at)])[i].at <= at
  {
  }

  lemma {:induction false} BurstOrdered(events: seq<Event>, ip: Ip, at: Time, n: nat)
    requires Ordered(events) && forall i | 0 <= i < |events| :: events[i].at <= at
    ensures Ordered(events + Burst(ip, at, n))
    ensures forall i | 0 <= i < |events + Burst(ip, at, n)| :: (events + Burst(ip, at, n))[i].at <= at
  {
    if n > 0 {
      BurstOrdered(events, ip, at, n - 1);
      RequestOrdered(events + Burst(ip, at, n - 1), ip, at);
      hide Ordered;
      ConcatAssoc(events, Burst(ip, at, n - 1), [Request(ip, at)]);
    } else {
      assert events + [] == events;
    }
  }

  /** A request inside the window is let through while the count stays within the limit. */
  lemma RequestAllowed(c: Config, events: seq<Event>, more: seq<Event>, ip: Ip, at: Time, lo: Time, hi: Time)
    requires more == events + [Request(ip, at)]
    requires lo <= at <= hi && ip in EntriesAfter(c, events)
    requires at <= EntriesAfter(c, events)[ip].resetAt && EntriesAfter(c, events)[ip].count + 1 <= c.limit
    ensures ip in EntriesAfter(c, more)
    ensures EntriesAfter(c, more)[ip] ==
            Entry(EntriesAfter(c, events)[ip].count + 1, EntriesAfter(c, events)[ip].resetAt)
    ensures Count(Allowed(c, more, ip), lo, hi) == Count(Allowed(c, events, ip), lo, hi) + 1
  {
    hide EntriesAfter, Allowed, Count;
    RunSnoc(c, events, Request(ip, at), ip);
    CountSnoc(Allowed(c, events, ip), at, lo, hi);
  }

  lemma {:induction false} BurstAllowed(
    c: Config, events: seq<Event>, more: seq<Event>, ip: Ip, at: Time, n: nat, lo: Time, hi: Time)
    requires more == events + Burst(ip, at, n)
    requires lo <= at <= hi && ip in EntriesAfter(c, events) && (n == 0 || at <= EntriesAfter(c, events)[ip].resetAt)
    requires EntriesAfter(c, events)[ip].count >= 1 && EntriesAfter(c, events)[ip].count + n <= PerWindow(c)
    ensures ip in EntriesAfter(c, more) && EntriesAfter(c, more)[ip].resetAt == EntriesAfter(c, events)[ip].resetAt
    ensures EntriesAfter(c, more)[ip].count == EntriesAfter(c, events)[ip].count + n
    ensures Count(Allowed(c, more, ip), lo, hi) == Count(Allowed(c, events, ip), lo, hi) + n
    decreases n
  {
    hide EntriesAfter, Allowed, Count;
    if n == 0 {
      assert more == events;
    } else {
      var before := events + Burst(ip, at, n - 1);
      BurstAllowed(c, events, before, ip, at, n - 1, lo, hi);
      assert more == before + [Request(ip, at)];
      RequestAllowed(c, before, more, ip, at, lo, hi);
    }
  }

  /** A request after the window opens a new one, and is let through whatever the limit. */
  lemma RequestOpens(c: Config, events: seq<Event>, more: seq<Event>, ip: Ip, at: Time, lo: Time, hi: Time)
    requires more == events + [Request(ip, at)]
    requires ip !in EntriesAfter(c, events) || at > EntriesAfter(c, events)[ip].resetAt
    ensures ip in EntriesAfter(c, more) && EntriesAfter(c, more)[ip] == Entry(1, at + c.window)
    ensures Count(Allowed(c, more, ip), lo, hi) ==
            Count(Allowed(c, events, ip), lo, hi) + if lo <= at <= hi then 1 else 0
  {
    hide EntriesAfter, Allowed, Count;
    RunSnoc(c, events, Request(ip, at), ip);
    CountSnoc(Allowed(c, events, ip), at, lo, hi);
  }

  lemma FirstHalfAllowed(c: Config, ip: Ip)
    requires Valid(c)
    ensures ip in EntriesAfter(c, FirstHalf(c, ip)) && EntriesAfter(c, FirstHalf(c, ip))[ip].resetAt == c.window
    ensures Count(Allowed(c, FirstHalf(c, ip), ip), 1, 1 + c.window) == PerWindow(c) - 1
  {
    assert EntriesAfter(c, []) == map[] && Allowed(c, [], ip) == [] && Count([], 1, 1 + c.window) == 0;
    hide EntriesAfter, Allowed, Count;
    var first := [] + [Request(ip, 0)];
    RequestOpens(c, [], first, ip, 0, 1, 1 + c.window);
    BurstAllowed(c, first, FirstHalf(c, ip), ip, c.window, PerWindow(c) - 1, 1, 1 + c.window);
  }

  lemma StraddleAllowed(c: Config, ip: Ip)
    requires Valid(c)
    ensures Count(Allowed(c, Straddle(c, ip), ip), 1, 1 + c.window) == 2 * PerWindow(c) - 1
  {
    FirstHalfAllowed(c, ip);
    hide EntriesAfter, Allowed, Count, FirstHalf;
    var at, before := 1 + c.window, FirstHalf(c, ip);
    var reopened := before + [Request(ip, at)];
    RequestOpens(c, before, reopened, ip, at, 1, at);
    BurstAllowed(c, reopened, Straddle(c, ip), ip, at, PerWindow(c) - 1, 1, at);
  }

  lemma StraddleOrdered(c: Config, ip: Ip)
    requires Valid(c)
    ensures Ordered(Straddle(c, ip))
  {
    var first := [] + [Request(ip, 0)];
    BurstOrdered(first, ip, c.window, PerWindow(c) - 1);
    RequestOrdered(FirstHalf(c, ip), ip, 1 + c.window);
    BurstOrdered(FirstHalf(c, ip) + [Request(ip, 1 + c.window)], ip, 1 + c.window, PerWindow(c) - 1);
  }

  /** For every limit and window there is a run that reaches the bound. */
  lemma BoundReached(c: Config, ip: Ip) returns (events: seq<Event>, a: Time)
    requires Valid(c)
    ensures Ordered(events)
    ensures Count(Allowed(c, events, ip), a, a + c.window) == 2 * PerWindow(c) - 1
  {
    events, a := Straddle(c, ip), 1;
    StraddleAllowed(c, ip);
    StraddleOrdered(c, ip);
  }
}
