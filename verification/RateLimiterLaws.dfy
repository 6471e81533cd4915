/** Who is refused by the rate limiter of services/api-gateway/internal/ratelimit/ratelimit.go: only an
    address that has used up its window itself. */
module RateLimiterLaws {
  import opened RateLimiter

  // ---------- Addresses do not meet ----------

  /** The run without the requests of other addresses. */
  function OnlyOf(events: seq<Event>, ip: Ip): seq<Event> {
    if events == [] then []
    else
      var last := events[|events| - 1];
      OnlyOf(events[..|events| - 1], ip) + if last.Request? && last.ip != ip then [] else [last]
  }

  /** The same entry for the address, or none in both. */
  predicate SameFor(ip: Ip, a: Entries, b: Entries) {
    (ip in a <==> ip in b) && (ip in a ==> a[ip] == b[ip])
  }

  lemma AdmitSame(c: Config, a: Entries, b: Entries, ip: Ip, now: Time)
    requires SameFor(ip, a, b)
    ensures Admit(c, a, ip, now).1 == Admit(c, b, ip, now).1
    ensures SameFor(ip, Admit(c, a, ip, now).0, Admit(c, b, ip, now).0)
  {
  }

  lemma {:induction false} EntriesIndependent(c: Config, events: seq<Event>, ip: Ip)
    ensures SameFor(ip, EntriesAfter(c, events), EntriesAfter(c, OnlyOf(events, ip)))
    ensures Allowed(c, events, ip) == Allowed(c, OnlyOf(events, ip), ip)
  {
    if events != [] {
      var before, last := events[..|events| - 1], events[|events| - 1];
      EntriesIndependent(c, before, ip);
      RunSnoc(c, OnlyOf(before, ip), last, ip);
      if last.Request? && last.ip == ip {
        AdmitSame(c, EntriesAfter(c, before), EntriesAfter(c, OnlyOf(before, ip)), ip, last.at);
      } else {
        assert OnlyOf(before, ip) + [] == OnlyOf(before, ip);
        assert Allowed(c, before, ip) + [] == Allowed(c, before, ip);
      }
    }
  }

  /** What other addresses do makes no difference to an address, so far and at its next request. */
  lemma AddressesIndependent(c: Config, events: seq<Event>, ip: Ip, now: Time)
    ensures Allowed(c, events, ip) == Allowed(c, OnlyOf(events, ip), ip)
    ensures Admit(c, EntriesAfter(c, events), ip, now).1 ==
            Admit(c, EntriesAfter(c, OnlyOf(events, ip)), ip, now).1
  {
    EntriesIndependent(c, events, ip);
    AdmitSame(c, EntriesAfter(c, events), EntriesAfter(c, OnlyOf(events, ip)), ip, now);
  }

  // ---------- Nobody is refused below the limit ----------

  function Min(a: int, b: int): int {
    if a < b then a else b
  }

  /** The count of an entry is that of the requests let through in its window, until that is full. */
  predicate Filled(c: Config, allowed: seq<Time>, e: Entry, now: Time) {
    && e.count >= 1 && e.resetAt - c.window <= now
    && Min(e.count, PerWindow(c)) <= Count(allowed, e.resetAt - c.window, now)
  }

  lemma FilledLater(c: Config, allowed: seq<Time>, e: Entry, was: Time, now: Time)
    requires Filled(c, allowed, e, was) && was <= now && forall i | 0 <= i < |allowed| :: allowed[i] <= now
    ensures Filled(c, allowed, e, now)
  {
    CountWider(allowed, e.resetAt - c.window, was, e.resetAt - c.window, now, now);
  }

  lemma StepFills(c: Config, entries: Entries, allowed: seq<Time>, ip: Ip, now: Time)
    requires ip in entries ==> Filled(c, allowed, entries[ip], now)
    requires Valid(c)
    ensures var (after, ok) := Admit(c, entries, ip, now);
            ip in after && Filled(c, allowed + if ok then [now] else [], after[ip], now)
  {
    hide Count;
    CountSnoc(allowed, now, now, now);
    if ip in entries {
      CountSnoc(allowed, now, entries[ip].resetAt - c.window, now);
    }
    assert allowed + [] == allowed;
  }

  lemma {:induction false} RunFills(c: Config, events: seq<Event>, ip: Ip, now: Time)
    requires Valid(c) && Ordered(events) && forall i | 0 <= i < |events| :: events[i].at <= now
    ensures forall i | 0 <= i < |Allowed(c, events, ip)| :: Allowed(c, events, ip)[i] <= now
    ensures ip in EntriesAfter(c, events) ==> Filled(c, Allowed(c, events, ip), EntriesAfter(c, events)[ip], now)
  {
    if events != [] {
      var before, last := events[..|events| - 1], events[|events| - 1];
      assert forall i | 0 <= i < |before| :: before[i] == events[i];
      RunFills(c, before, ip, last.at);
      RunSnoc(c, before, last, ip);
      assert events == before + [last];
      hide EntriesAfter, Allowed, Filled, Ordered;
      var allowed := Allowed(c, before, ip);
      assert allowed + [] == allowed;
      if last.Request? && last.ip == ip {
        StepFills(c, EntriesAfter(c, before), allowed, ip, last.at);
      }
      if ip in EntriesAfter(c, events) {
        FilledLater(c, Allowed(c, events, ip), EntriesAfter(c, events)[ip], last.at, now);
      }
    }
  }

  /** Over any run with a non-decreasing clock, cleanups included: a request is refused only if as many
      requests of its address as fit into one window were let through in the time of one window up to it. */
  lemma RefusedOnlyWhenFull(c: Config, events: seq<Event>, ip: Ip, now: Time)
    requires Valid(c) && Ordered(events) && forall i | 0 <= i < |events| :: events[i].at <= now
    requires !Admit(c, EntriesAfter(c, events), ip, now).1
    ensures Count(Allowed(c, events, ip), now - c.window, now) >= (if c.limit < 1 then 1 else c.limit)
  {
    RunFills(c, events, ip, now);
    var e := EntriesAfter(c, events)[ip];
    CountWider(Allowed(c, events, ip), e.resetAt - c.window, now, now - c.window, now, now);
  }
}
