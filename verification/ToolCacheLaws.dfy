/** What one call through the MCP client answers, counts and stores, and which tools are cached
    (mcp-host/mcp_client.py). */
module ToolCacheLaws {
  import opened Options
  import opened Json
  import opened ToolCache

  // ---------- Names ----------

  /** A mutation is a name with one of the hints anywhere in it. */
  lemma MutationsExactly(name: string)
    ensures IsMutation(name) <==> exists h | h in MUTATION_HINTS :: exists a, b :: name == a + h + b
  {
    if IsMutation(name) {
      var h :| 0 <= h < |MUTATION_HINTS| && Contains(name, MUTATION_HINTS[h]);
      var hint := MUTATION_HINTS[h];
      var i :| 0 <= i <= |name| - |hint| && FoundAt(name, hint, i);
      assert name == name[..i] + hint + name[i + |hint|..];
    }
    if h, a, b :| h in MUTATION_HINTS && name == a + h + b {
      InTheMiddle(a, h, b);
      var k :| 0 <= k < |MUTATION_HINTS| && MUTATION_HINTS[k] == h;
      assert Contains(name, MUTATION_HINTS[k]);
    }
  }

  lemma InTheMiddle(a: string, h: string, b: string)
    ensures Contains(a + h + b, h)
  {
    assert (a + h + b)[|a|..|a| + |h|] == h;
    assert FoundAt(a + h + b, h, |a|);
  }

  /** A cached tool is a name that begins with one of the prefixes, whatever follows, and is no mutation. */
  lemma CacheableExactly(name: string)
    ensures IsCacheable(name) <==>
            !IsMutation(name) && exists p | p in CACHEABLE_PREFIXES :: exists rest :: name == p + rest
  {
    hide IsMutation;
    if IsCacheable(name) {
      var i :| 0 <= i < |CACHEABLE_PREFIXES| && CACHEABLE_PREFIXES[i] <= name;
      var p := CACHEABLE_PREFIXES[i];
      assert p in CACHEABLE_PREFIXES && name == p + name[|p|..];
    }
  }

  lemma {:induction false} NoPrefixOfSimulator(i: nat)
    requires i < |CACHEABLE_PREFIXES|
    ensures !(CACHEABLE_PREFIXES[i] <= "simulator_status")
  {
    var p := CACHEABLE_PREFIXES[i];
    var name := "simulator_status";
    assert name[0] == 's' && name[1] == 'i';
    assert |p| > 2 && !(p[0] == 's' && p[1] == 'i');
  }

  /** Every answer of a cached tool lives for a while, from fifteen seconds to a minute: the one tool whose
      time to live is zero has no prefix of a cached tool. */
  lemma LivesAWhile(name: string)
    requires IsCacheable(name)
    ensures 15 <= TtlFor(name) <= 60
  {
    hide IsMutation;
    if name == "simulator_status" {
      var i :| 0 <= i < |CACHEABLE_PREFIXES| && CACHEABLE_PREFIXES[i] <= name;
      NoPrefixOfSimulator(i);
    }
    hide IsCacheable, CACHEABLE_PREFIXES;
  }

  // ---------- One call ----------

  /** The store has something for the call, and a stored null is nothing. */
  predicate Kept(s: State, call: Call, c: Conditions) {
    && IsCacheable(call.name) && c.getWorks
    && Cached(call) in s.store && !s.store[Cached(call)].Null?
  }

  /** A hit answers what is stored and counts as a hit. That is all: no attempt is made, whatever it would have
      come to. */
  lemma HitAnswers(s: State, call: Call, c: Conditions)
    requires Kept(s, call, c)
    ensures Calling(s, call, c) == (State(s.store, s.hits + 1, s.misses), s.store[Cached(call)])
  {
    hide IsCacheable;
  }

  /** The state after a call that is no hit: only cached tools count their misses. */
  function Missed(s: State, call: Call, store: Store): State {
    State(store, s.hits, if IsCacheable(call.name) then s.misses + 1 else s.misses)
  }

  /** Otherwise the attempts go on while they time out or fail in a way that may pass. The first reply is the
      answer, unless a failure comes first that will not pass, which is reported at once, or the attempts run
      out, which is reported with the last failure and their number; then the store stays as it was. */
  lemma MissAnswers(s: State, call: Call, c: Conditions, n: nat)
    requires !Kept(s, call, c) && n <= |c.attempts|
    requires forall i | 0 <= i < n :: c.attempts[i].TimedOut? || (c.attempts[i].Failed? && c.attempts[i].retryable)
    ensures n < |c.attempts| && c.attempts[n].Replied? ==>
              var parsed := c.attempts[n].parsed;
              Calling(s, call, c) == (Missed(s, call, StoreAfter(s.store, call, parsed, c)), parsed)
    ensures n < |c.attempts| && c.attempts[n].Failed? && !c.attempts[n].retryable ==>
              Calling(s, call, c) ==
              (Missed(s, call, s.store), Obj(map["error" := Str(c.attempts[n].message), "retryable" := Bool(false)]))
    ensures n == |c.attempts| ==>
              var last := if n == 0 then "Unknown error" else c.attempts[n - 1].message;
              Calling(s, call, c) ==
              (Missed(s, call, s.store),
               Obj(map["error" := Str(last), "retried" := Bool(true), "attempts" := Num(n as real)]))
  {
    EndsAt(c.attempts, n);
    if IsCacheable(call.name) { LivesAWhile(call.name); }
    ScannedIs(s.store, c.pages);
    hide IsCacheable, IsMutation, TtlFor, Result, Answers, Scanned, Swept;
  }

  /** The store after a reply. An error leaves it as it was. The reply of a cached tool is stored, unless the
      store refuses it; the reply to a mutation removes the entries that the scan visits. */
  function StoreAfter(store: Store, call: Call, parsed: Json, c: Conditions): Store {
    if parsed.Obj? && "error" in parsed.fields then store
    else if IsCacheable(call.name) && c.setWorks then store[Cached(call) := parsed]
    else if IsMutation(call.name) then map key | key in store && !Swept(c.pages, key) :: store[key]
    else store
  }

  predicate Swept(pages: seq<seq<Call>>, key: Key) {
    key.Cached? && exists p | 0 <= p < |pages| :: key.call in pages[p]
  }

  lemma ScannedIs(store: Store, pages: seq<seq<Call>>)
    ensures Scanned(store, pages) == map key | key in store && !Swept(pages, key) :: store[key]
  {
    assert forall key: Key :: key.Cached? ==> (Swept(pages, key) <==> Visited(pages, key.call));
    hide Swept, Visited;
    NeverSwept(pages);
  }

  lemma NeverSwept(pages: seq<seq<Call>>)
    ensures forall key: Key :: key.Foreign? ==> !Swept(pages, key)
  {
  }

  /** Entries of other parts of the host are never touched by a call. */
  lemma ForeignUntouched(s: State, call: Call, c: Conditions, name: string)
    ensures var after := Calling(s, call, c).0.store;
            && (Foreign(name) in after <==> Foreign(name) in s.store)
            && (Foreign(name) in s.store ==> after[Foreign(name)] == s.store[Foreign(name)])
  {
    hide IsCacheable, IsMutation, TtlFor, Result, Answers;
  }

  // ---------- Hits and misses ----------

  /** How many calls of a run found their answer in the store. */
  function HitCalls(w: World, events: seq<Event>): nat {
    if events == [] then 0
    else
      var before, last := events[..|events| - 1], events[|events| - 1];
      HitCalls(w, before) + if last.Called? && Kept(Run(w, before).state, last.call, last.conditions) then 1 else 0
  }

  lemma OneEventCounts(w: World, e: Event)
    ensures var (s, t) := (w.state, Step(w, e).state);
            var kept := e.Called? && Kept(s, e.call, e.conditions);
            && t.hits == s.hits + (if kept then 1 else 0)
            && t.misses == s.misses + if e.Called? && IsCacheable(e.call.name) && !kept then 1 else 0
  {
    hide IsCacheable, Settled, Result, Left;
  }

  /** The counters tell calls to cached tools apart by whether the store had the answer. */
  lemma {:induction false} HitsExactly(w: World, events: seq<Event>)
    ensures var (s, t) := (w.state, Run(w, events).state);
            && t.hits == s.hits + HitCalls(w, events)
            && t.misses == s.misses + CacheableCalls(events) - HitCalls(w, events)
  {
    if events != [] {
      HitsExactly(w, events[..|events| - 1]);
      OneEventCounts(Run(w, events[..|events| - 1]), events[|events| - 1]);
      hide Kept, IsCacheable, Step;
    }
  }
}
