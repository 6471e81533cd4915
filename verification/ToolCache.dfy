/** The tool-result cache of the MCP client: mcp-host/mcp_client.py. The tool server behind it is an
    environment: what each attempt comes to is a parameter, and so are failing cache operations. */
module ToolCache {
  import opened Options
  import opened Json

  datatype Call = Call(name: string, arguments: map<string, Json>)

  // ---------- Which tools are cached, and which changes are recognised ----------

  const CACHEABLE_PREFIXES: seq<string> := [
    "analytics_",
    "orders_list", "orders_get", "orders_search", "orders_stats",
    "orders_sales_by_product", "orders_customer_summary",
    "products_list", "products_get",
    "warehouses_list", "warehouses_get",
    "stock_list", "stock_low", "stock_movements",
    "shipments_list", "shipments_get",
    "carriers_list", "carriers_get",
    "notifications_list", "notifications_unread_count", "notifications_unread_counts",
    "notifications_preferences_get",
    "users_list", "users_me",
    "customers_profile_360",
    "logistics_performance",
    "inventory_report",
    "audit_query"]

  const MUTATION_HINTS: seq<string> := [
    "_create", "_update", "_delete", "_cancel",
    "_reserve", "_release", "_adjust",
    "_bulk", "_reassign", "_mark_read", "_register", "_login",
    "_password_reset"]

  const PER_TOOL_TTL: map<string, int> := map[
    "analytics_anomalies" := 60,
    "analytics_carriers_performance" := 60,
    "analytics_quick_cancellations" := 60,
    "analytics_rebalancing_recommendations" := 60,
    "analytics_sales_summary" := 30,
    "analytics_sales_trends" := 30,
    "analytics_period_comparison" := 60,
    "customers_profile_360" := 60,
    "audit_query" := 15,
    "users_me" := 30,
    "simulator_status" := 0]

  const DEFAULT_CACHE_TTL := 30

  predicate FoundAt(s: string, sub: string, i: int) {
    0 <= i <= |s| - |sub| && s[i..i + |sub|] == sub
  }

  predicate Contains(s: string, sub: string) {
    exists i | 0 <= i <= |s| - |sub| :: FoundAt(s, sub, i)
  }

  predicate IsMutation(name: string) {
    exists h | 0 <= h < |MUTATION_HINTS| :: Contains(name, MUTATION_HINTS[h])
  }

  predicate IsCacheable(name: string) {
    !IsMutation(name) && exists p | 0 <= p < |CACHEABLE_PREFIXES| :: CACHEABLE_PREFIXES[p] <= name
  }

  function TtlFor(name: string): int {
    if name in PER_TOOL_TTL then PER_TOOL_TTL[name] else DEFAULT_CACHE_TTL
  }

  // ---------- The client ----------

  /** Keys of the shared store; a digest of a call stands for the call itself. */
  datatype Key = Cached(call: Call) | Foreign(key: string)

  type Store = map<Key, Json>

  /** The tool server, by what it would answer to each call now. */
  type Backend = Call -> Json

  /** One attempt, with the state in which it leaves the server; of that the client sees nothing. */
  datatype Attempt =
    | TimedOut(message: string, after: Backend)
    | Failed(message: string, retryable: bool, after: Backend)
    | Replied(parsed: Json, after: Backend)

  /** What a call meets: whether the store answers a read and accepts a write, what each of the
      RETRY_MAX_ATTEMPTS attempts would come to, and the pages of keys that a scan visits before
      it ends or fails. */
  datatype Conditions = Conditions(getWorks: bool, attempts: seq<Attempt>, setWorks: bool, pages: seq<seq<Call>>)

  function NotConnected(): Json {
    Obj(map["error" := Str("MCP session not connected")])
  }

  function Fatal(message: string): Json {
    Obj(map["error" := Str(message), "retryable" := Bool(false)])
  }

  function GaveUp(message: string, attempts: nat): Json {
    Obj(map["error" := Str(message), "retried" := Bool(true), "attempts" := Num(attempts as real)])
  }

  /** What the store holds for a call; a stored `null` reads as nothing. */
  function Lookup(store: Store, call: Call): Option<Json> {
    if Cached(call) in store && store[Cached(call)] != Null then Some(store[Cached(call)]) else None
  }

  predicate Final(attempt: Attempt) {
    attempt.Replied? || (attempt.Failed? && !attempt.retryable)
  }

  /** How many attempts are made: up to the first final one. */
  function Made(attempts: seq<Attempt>): (n: nat)
    ensures n <= |attempts|
    ensures forall i | 0 <= i < n - 1 :: !Final(attempts[i])
    ensures n < |attempts| ==> n > 0 && Final(attempts[n - 1])
  {
    if attempts == [] then 0
    else if Final(attempts[0]) then 1
    else 1 + Made(attempts[1..])
  }

  function Result(attempts: seq<Attempt>): Json {
    var n := Made(attempts);
    if n == 0 then GaveUp("Unknown error", 0)
    else
      match attempts[n - 1]
      case Replied(parsed, _) => parsed
      case Failed(message, retryable, _) => if retryable then GaveUp(message, |attempts|) else Fatal(message)
      case TimedOut(message, _) => GaveUp(message, |attempts|)
  }

  predicate Answers(attempts: seq<Attempt>) {
    Made(attempts) > 0 && attempts[Made(attempts) - 1].Replied?
  }

  predicate Visited(pages: seq<seq<Call>>, call: Call) {
    exists p | 0 <= p < |pages| :: call in pages[p]
  }

  function Scanned(store: Store, pages: seq<seq<Call>>): Store {
    map key | key in store && !(key.Cached? && Visited(pages, key.call)) :: store[key]
  }

  /** The store after an answer came from the server. */
  function Settled(store: Store, call: Call, c: Conditions): Store {
    if !Answers(c.attempts) || IsError(Result(c.attempts)) then store
    else if IsCacheable(call.name) then
      if TtlFor(call.name) > 0 && c.setWorks then store[Cached(call) := Result(c.attempts)] else store
    else if IsMutation(call.name) then Scanned(store, c.pages)
    else store
  }

  datatype State = State(store: Store, hits: nat, misses: nat)

  predicate Hit(store: Store, call: Call, c: Conditions) {
    IsCacheable(call.name) && c.getWorks && Lookup(store, call).Some?
  }

  /** A call through a connected client with the store attached. */
  function Calling(s: State, call: Call, c: Conditions): (State, Json) {
    if Hit(s.store, call, c) then (s.(hits := s.hits + 1), s.store[Cached(call)])
    else
      var misses := if IsCacheable(call.name) then s.misses + 1 else s.misses;
      (State(Settled(s.store, call, c), s.hits, misses), Result(c.attempts))
  }

  class MCPClient {
    var connected: bool
    var attached: bool
    var store: Store
    var hits: nat
    var misses: nat

    constructor (redis: Store, attach: bool)
      ensures !connected && attached == attach && store == redis && hits == misses == 0
    {
      connected, attached, store, hits, misses := false, attach, redis, 0, 0;
    }

    function Now(): State
      reads this
    {
      State(store, hits, misses)
    }

    method CallTool(call: Call, c: Conditions) returns (value: Json)
      modifies this`store, this`hits, this`misses
      ensures !connected ==> value == NotConnected() && Now() == old(Now())
      ensures connected && attached ==> (Now(), value) == Calling(old(Now()), call, c)
      ensures connected && !attached ==> value == Result(c.attempts) && Now() == old(Now())
    {
      hide IsCacheable, IsMutation, IsError, TtlFor, Scanned, Answers, Result;
      if !connected {
        return NotConnected();
      }
      if attached && IsCacheable(call.name) {
        var cached := CacheGet(call, c.getWorks);
        if cached.Some? {
          hits := hits + 1;
          return cached.value;
        }
        misses := misses + 1;
      }
      var attempt := 0;
      var lastError := "Unknown error";
      while attempt < |c.attempts|
        invariant 0 <= attempt <= |c.attempts|
        invariant forall i | 0 <= i < attempt :: !Final(c.attempts[i])
        invariant attempt == 0 ==> lastError == "Unknown error"
        invariant attempt > 0 ==> lastError == c.attempts[attempt - 1].message
        invariant store == old(store) && hits == old(hits)
        invariant misses == old(misses) + if attached && IsCacheable(call.name) then 1 else 0
        decreases |c.attempts| - attempt
      {
        EndsAt(c.attempts, attempt);
        match c.attempts[attempt] {
        case Replied(parsed, _) =>
          if attached && IsCacheable(call.name) && !IsError(parsed) {
            CacheSet(call, parsed, c.setWorks);
          } else if attached && IsMutation(call.name) && !IsError(parsed) {
            CacheInvalidateAll(c.pages);
          }
          return parsed;
        case TimedOut(message, _) =>
          lastError := message;
        case Failed(message, retryable, _) =>
          lastError := message;
          if !retryable {
            return Fatal(message);
          }
        }
        attempt := attempt + 1;
      }
      EndsAt(c.attempts, attempt);
      value := GaveUp(lastError, |c.attempts|);
    }

    method CacheGet(call: Call, works: bool) returns (cached: Option<Json>)
      ensures cached == if works then Lookup(store, call) else None
    {
      if !works || Cached(call) !in store {
        return None;
      }
      cached := if store[Cached(call)] == Null then None else Some(store[Cached(call)]);
    }

    method CacheSet(call: Call, value: Json, works: bool)
      modifies this`store
      ensures store == if TtlFor(call.name) > 0 && works then old(store)[Cached(call) := value] else old(store)
    {
      if TtlFor(call.name) <= 0 {
        return;
      }
      if works {
        store := store[Cached(call) := value];
      }
    }

    method CacheInvalidateAll(pages: seq<seq<Call>>)
      modifies this`store
      ensures store == Scanned(old(store), pages)
    {
      for p := 0 to |pages|
        invariant store == Scanned(old(store), pages[..p])
      {
        store := store - set call | call in pages[p] :: Cached(call);
        assert forall call :: Visited(pages[..p + 1], call) <==> Visited(pages[..p], call) || call in pages[p];
      }
      assert pages[..|pages|] == pages;
    }
  }

  /** The first final attempt ends the loop, and without one all are made. */
  lemma {:induction false} MadeIs(attempts: seq<Attempt>, n: nat)
    requires n <= |attempts| && forall i | 0 <= i < n :: !Final(attempts[i])
    ensures n < |attempts| && Final(attempts[n]) ==> Made(attempts) == n + 1
    ensures n == |attempts| ==> Made(attempts) == n
  {
    if n > 0 {
      MadeIs(attempts[1..], n - 1);
    }
  }

  lemma EndsAt(attempts: seq<Attempt>, n: nat)
    requires n <= |attempts| && forall i | 0 <= i < n :: !Final(attempts[i])
    ensures n < |attempts| && attempts[n].Replied? ==> Answers(attempts) && Result(attempts) == attempts[n].parsed
    ensures n < |attempts| && attempts[n].Failed? && !attempts[n].retryable ==>
              !Answers(attempts) && Result(attempts) == Fatal(attempts[n].message)
    ensures n == |attempts| ==>
              !Answers(attempts) &&
              Result(attempts) == GaveUp(if n == 0 then "Unknown error" else attempts[n - 1].message, n)
  {
    MadeIs(attempts, n);
  }

  // ---------- Runs against a changing server ----------

  /** The server after the attempts that are made. */
  function Left(backend: Backend, attempts: seq<Attempt>): Backend {
    Before(backend, attempts, Made(attempts))
  }

  /** The call ends in a reply that is no error. */
  predicate Succeeds(attempts: seq<Attempt>) {
    Answers(attempts) && !IsError(Result(attempts))
  }

  /** The assumption on the server, over a whole call with its retries: only a recognised mutation that
      succeeds may leave it changed, whichever of the attempts took effect, and a successful reply to a
      cacheable tool is what the server would answer. */
  ghost predicate Honest(backend: Backend, call: Call, attempts: seq<Attempt>) {
    && ((IsMutation(call.name) && Succeeds(attempts)) || Left(backend, attempts) == backend)
    && (IsCacheable(call.name) && Succeeds(attempts) ==> Result(attempts) == backend(call))
  }

  function Before(backend: Backend, attempts: seq<Attempt>, i: nat): Backend
    requires i <= |attempts|
  {
    if i == 0 then backend else attempts[i - 1].after
  }

  /** What happens: a call, an entry expiring, or another part of the host using the store. */
  datatype Event = Called(call: Call, conditions: Conditions) | Expired(key: Key) | Wrote(name: string, value: Json)

  datatype World = World(state: State, backend: Backend)

  function Step(w: World, e: Event): World {
    match e
    case Called(call, c) =>
      World(Calling(w.state, call, c).0,
            if Hit(w.state.store, call, c) then w.backend else Left(w.backend, c.attempts))
    case Expired(key) => w.(state := w.state.(store := w.state.store - {key}))
    case Wrote(name, value) => w.(state := w.state.(store := w.state.store[Foreign(name) := value]))
  }

  /** A scan that succeeds visits every cached key that is there throughout. */
  ghost predicate Covers(pages: seq<seq<Call>>, store: Store) {
    forall call | Cached(call) in store :: Visited(pages, call)
  }

  /** The server is honest, and if there is a scan, it covers the cache. */
  ghost predicate Assumed(w: World, e: Event) {
    e.Called? && !Hit(w.state.store, e.call, e.conditions) ==>
      && Honest(w.backend, e.call, e.conditions.attempts)
      && (IsMutation(e.call.name) && Succeeds(e.conditions.attempts) ==> Covers(e.conditions.pages, w.state.store))
  }

  function Run(w: World, events: seq<Event>): World {
    if events == [] then w else Step(Run(w, events[..|events| - 1]), events[|events| - 1])
  }

  ghost predicate AllAssumed(w: World, events: seq<Event>) {
    forall i | 0 <= i < |events| :: Assumed(Run(w, events[..i]), events[i])
  }

  /** Every cached entry is what the server would answer now. */
  ghost predicate Fresh(store: Store, backend: Backend) {
    forall call | Cached(call) in store :: IsCacheable(call.name) && store[Cached(call)] == backend(call)
  }

  lemma StepKeepsFresh(w: World, e: Event)
    requires Fresh(w.state.store, w.backend) && Assumed(w, e)
    ensures Fresh(Step(w, e).state.store, Step(w, e).backend)
  {
    hide Answers, Result, Left, IsMutation, IsError, TtlFor;
  }

  lemma {:induction false} RunKeepsFresh(w: World, events: seq<Event>)
    requires Fresh(w.state.store, w.backend) && AllAssumed(w, events)
    ensures Fresh(Run(w, events).state.store, Run(w, events).backend)
  {
    if events != [] {
      var before := events[..|events| - 1];
      assert forall i | 0 <= i < |before| :: before[..i] == events[..i];
      RunKeepsFresh(w, before);
      StepKeepsFresh(Run(w, before), events[|events| - 1]);
    }
  }

  /** Over every run of calls, retries, expiries and invalidation scans that meets the assumptions,
      the cache cannot be told from the server: whatever a call for a cacheable tool is answered, from
      the cache or by the server, it is what the server would answer at that moment. */
  lemma HitsAreCurrent(w: World, events: seq<Event>, call: Call, c: Conditions)
    requires Fresh(w.state.store, w.backend) && AllAssumed(w, events)
    requires Assumed(Run(w, events), Called(call, c)) && IsCacheable(call.name)
    ensures var now := Run(w, events);
            Hit(now.state.store, call, c) || Succeeds(c.attempts) ==>
              Calling(now.state, call, c).1 == now.backend(call)
  {
    RunKeepsFresh(w, events);
    hide Run, AllAssumed;
  }

  /** How many calls of a run were for cacheable tools. */
  function CacheableCalls(events: seq<Event>): nat {
    if events == [] then 0
    else
      var last := events[|events| - 1];
      CacheableCalls(events[..|events| - 1]) + if last.Called? && IsCacheable(last.call.name) then 1 else 0
  }

  /** Every call for a cacheable tool is counted once, as a hit or as a miss. */
  lemma {:induction false} CountersAddUp(w: World, events: seq<Event>)
    ensures var (s, t) := (w.state, Run(w, events).state);
            t.hits + t.misses == s.hits + s.misses + CacheableCalls(events)
  {
    if events != [] {
      CountersAddUp(w, events[..|events| - 1]);
      hide IsCacheable, Settled, Lookup, IsMutation;
    }
  }

  // ---------- Exactly when the cache stays fresh ----------

  /** A call to a tool that is not cached, whatever it does to the server and however it ends, leaves the
      cache fresh if and only if every entry is removed, by the scan of a recognised mutation that
      succeeds, or is still what the server would answer. */
  lemma FreshAfterExactly(w: World, call: Call, c: Conditions)
    requires Fresh(w.state.store, w.backend) && !IsCacheable(call.name)
    ensures var after := Step(w, Called(call, c));
            Fresh(after.state.store, after.backend) <==>
            forall read | Cached(read) in w.state.store ::
              || (IsMutation(call.name) && Succeeds(c.attempts) && Visited(c.pages, read))
              || after.backend(read) == w.backend(read)
  {
    hide IsMutation, Answers, Result, Left, TtlFor, IsError;
  }

  /** The answer goes into the store. */
  predicate Stores(call: Call, c: Conditions) {
    IsCacheable(call.name) && Succeeds(c.attempts) && TtlFor(call.name) > 0 && c.setWorks
  }

  /** A call to a cacheable tool that is no hit leaves the cache fresh if and only if every other entry is
      still what the server would answer, and so is its own, be it the one stored now or the one before. */
  lemma FreshAfterReadExactly(w: World, call: Call, c: Conditions)
    requires Fresh(w.state.store, w.backend) && IsCacheable(call.name) && !Hit(w.state.store, call, c)
    ensures var after := Step(w, Called(call, c));
            Fresh(after.state.store, after.backend) <==>
            && (Stores(call, c) ==> Result(c.attempts) == after.backend(call))
            && forall read | Cached(read) in w.state.store ::
                 (Stores(call, c) && read == call) || after.backend(read) == w.backend(read)
  {
    var after := Step(w, Called(call, c));
    hide IsMutation, Answers, Result, Left, TtlFor, IsError;
    assert Stores(call, c) ==> after.state.store == w.state.store[Cached(call) := Result(c.attempts)];
    assert !Stores(call, c) ==> after.state.store == w.state.store;
  }

  // ---------- Changes that are not recognised ----------

  /** Every hint is an underscore and at least four characters more; where it is found in a name, the
      name has these five characters. */
  lemma HintFound(name: string, hint: string) returns (i: nat)
    requires |hint| >= 5 && Contains(name, hint)
    ensures i + 4 < |name| && name[i] == hint[0] && name[i + 1] == hint[1]
    ensures name[i + 2] == hint[2] && name[i + 3] == hint[3] && name[i + 4] == hint[4]
  {
    i :| 0 <= i <= |name| - |hint| && FoundAt(name, hint, i);
    var found := name[i..i + |hint|];
    assert name[i] == found[0] && name[i + 1] == found[1] && name[i + 2] == found[2];
    assert name[i + 3] == found[3] && name[i + 4] == found[4];
  }

  /** The four characters behind an underscore are those of the hint. */
  predicate SameHead(hint: string, name: string, i: nat)
    requires |hint| >= 5
  {
    && i + 4 < |name| && name[i + 1] == hint[1] && name[i + 2] == hint[2]
    && name[i + 3] == hint[3] && name[i + 4] == hint[4]
  }

  /** They are the beginning of some hint. */
  predicate HintBegins(name: string, i: nat) {
    exists h | 0 <= h < |MUTATION_HINTS| :: SameHead(MUTATION_HINTS[h], name, i)
  }

  lemma NotRecognised(name: string)
    requires forall i | 0 <= i < |name| && name[i] == '_' :: !HintBegins(name, i)
    ensures !IsMutation(name)
  {
    forall h | 0 <= h < |MUTATION_HINTS|
      ensures !Contains(name, MUTATION_HINTS[h])
    {
      if Contains(name, MUTATION_HINTS[h]) {
        var i := HintFound(name, MUTATION_HINTS[h]);
        assert SameHead(MUTATION_HINTS[h], name, i);
      }
    }
  }

  /** No hint begins with these four letters after its underscore. */
  lemma NoHint(name: string, i: nat, a: char, b: char, c: char, d: char)
    requires i + 4 < |name| && name[i + 1] == a && name[i + 2] == b && name[i + 3] == c && name[i + 4] == d
    requires a !in {'c', 'u', 'd', 'r', 'a', 'b', 'm', 'l', 'p'} ||
             (a == 'a' && b == 't') || (a == 'a' && c == 'd') || (a == 'p' && b == 'i') ||
             (a == 'r' && c in {'d', 'c'}) || (a == 'r' && c == 's' && d == 'c') || (a == 'd' && d == 'i')
    ensures !HintBegins(name, i)
  {
  }

  /** Tools of mcp-orchestrator/tools/logistics_tools.py that change shipments. */
  const UNRECOGNISED: seq<string> := [
    "shipments_redirect", "shipments_hold_for_pickup", "shipments_record_attempt", "shipments_record_delivery",
    "shipments_add_event", "shipments_reschedule"]

  lemma RedirectNotRecognised()
    ensures !IsMutation("shipments_redirect")
  {
    NoHint("shipments_redirect", 9, 'r', 'e', 'd', 'i');
    NotRecognised("shipments_redirect");
  }

  lemma HoldForPickupNotRecognised()
    ensures !IsMutation("shipments_hold_for_pickup")
  {
    var name := "shipments_hold_for_pickup";
    NoHint(name, 9, 'h', 'o', 'l', 'd');
    NoHint(name, 14, 'f', 'o', 'r', '_');
    NoHint(name, 18, 'p', 'i', 'c', 'k');
    NotRecognised(name);
  }

  lemma RecordAttemptNotRecognised()
    ensures !IsMutation("shipments_record_attempt")
  {
    var name := "shipments_record_attempt";
    NoHint(name, 9, 'r', 'e', 'c', 'o');
    NoHint(name, 16, 'a', 't', 't', 'e');
    NotRecognised(name);
  }

  lemma RecordDeliveryNotRecognised()
    ensures !IsMutation("shipments_record_delivery")
  {
    var name := "shipments_record_delivery";
    NoHint(name, 9, 'r', 'e', 'c', 'o');
    NoHint(name, 16, 'd', 'e', 'l', 'i');
    NotRecognised(name);
  }

  lemma AddEventNotRecognised()
    ensures !IsMutation("shipments_add_event")
  {
    var name := "shipments_add_event";
    NoHint(name, 9, 'a', 'd', 'd', '_');
    NoHint(name, 13, 'e', 'v', 'e', 'n');
    NotRecognised(name);
  }

  lemma RescheduleNotRecognised()
    ensures !IsMutation("shipments_reschedule")
  {
    NoHint("shipments_reschedule", 9, 'r', 'e', 's', 'c');
    NotRecognised("shipments_reschedule");
  }

  /** A name that agrees with none of the two cached shipment tools in the two letters after the
      underscore is not cached. */
  lemma ShipmentsNotCacheable(name: string)
    requires |name| > 11 && name[..10] == "shipments_" && (name[10], name[11]) !in {('l', 'i'), ('g', 'e')}
    ensures !IsCacheable(name)
  {
    forall p | 0 <= p < |CACHEABLE_PREFIXES|
      ensures !(CACHEABLE_PREFIXES[p] <= name)
    {
      var prefix := CACHEABLE_PREFIXES[p];
      assert name[0] == name[..10][0] == 's' && name[1] == name[..10][1] == 'h';
      assert |prefix| >= 8 && (prefix[0] == 's' && prefix[1] == 'h' ==>
        |prefix| > 11 && (prefix[10], prefix[11]) in {('l', 'i'), ('g', 'e')});
    }
  }

  /** None of them is recognised as a mutation, and none is cached. */
  lemma UnrecognisedTools(name: string)
    requires name in UNRECOGNISED
    ensures !IsMutation(name) && !IsCacheable(name)
  {
    RedirectNotRecognised();
    HoldForPickupNotRecognised();
    RecordAttemptNotRecognised();
    RecordDeliveryNotRecognised();
    AddEventNotRecognised();
    RescheduleNotRecognised();
    hide IsMutation, IsCacheable;
    ShipmentsNotCacheable(name);
  }

  /** So a shipment read before such a call is served from the cache after it, for as long as the
      entry lives, whatever the call changed. */
  lemma UnrecognisedLeavesStaleHit(w: World, read: Call, write: Call, c: Conditions, c': Conditions)
    requires IsCacheable(read.name) && Lookup(w.state.store, read).Some? && c'.getWorks
    requires write.name in UNRECOGNISED
    requires Answers(c.attempts) && Left(w.backend, c.attempts)(read) != w.state.store[Cached(read)]
    ensures var after := Step(w, Called(write, c));
            Calling(after.state, read, c').1 != after.backend(read)
  {
    UnrecognisedTools(write.name);
    hide IsMutation, IsCacheable, TtlFor, IsError, Result, Answers, Left, UNRECOGNISED;
  }

  // ---------- An example ----------

  const READ := Call("shipments_get", map[])

  /** A shipment is cached as it is; a redirect is answered and moves it; it is read again. */
  function City(name: string): Backend {
    (call: Call) => Str(name)
  }

  const CACHED_IN_KYIV := World(State(map[Cached(READ) := Str("Kyiv")], 0, 1), City("Kyiv"))

  const MOVES_TO_LVIV := Conditions(true, [Replied(Obj(map[]), City("Lviv"))], true, [])

  lemma ReadCacheable()
    ensures IsCacheable(READ.name)
  {
    NotRecognised(READ.name);
    hide IsMutation;
    assert CACHEABLE_PREFIXES[15] <= READ.name;
  }

  /** From a fresh cache, one redirect, and the read is answered with the old city. */
  lemma StaleExample()
    ensures Fresh(CACHED_IN_KYIV.state.store, CACHED_IN_KYIV.backend)
    ensures var after := Step(CACHED_IN_KYIV, Called(Call("shipments_redirect", map[]), MOVES_TO_LVIV));
            && Hit(after.state.store, READ, MOVES_TO_LVIV)
            && Calling(after.state, READ, MOVES_TO_LVIV).1 == Str("Kyiv") && after.backend(READ) == Str("Lviv")
  {
    ReadCacheable();
    UnrecognisedTools("shipments_redirect");
    EndsAt(MOVES_TO_LVIV.attempts, 0);
    MadeIs(MOVES_TO_LVIV.attempts, 0);
    hide IsCacheable, IsMutation, TtlFor, Made;
  }

  // ---------- Changes that are recognised, and whose entries stay ----------

  const UPDATE := Call("shipments_update_status", map[])

  lemma UpdateRecognised()
    ensures IsMutation(UPDATE.name) && !IsCacheable(UPDATE.name)
  {
    assert FoundAt(UPDATE.name, MUTATION_HINTS[1], 9);
    assert Contains(UPDATE.name, MUTATION_HINTS[1]);
  }

  /** An update takes effect, and its reply is lost: nothing is invalidated, though a scan would have
      found the entry, and the read is answered with the old city. */
  lemma LostReplyExample()
    ensures var lost := Conditions(true, [TimedOut("timed out", City("Lviv"))], true, [[READ]]);
            var after := Step(CACHED_IN_KYIV, Called(UPDATE, lost));
            && Hit(after.state.store, READ, lost)
            && Calling(after.state, READ, lost).1 == Str("Kyiv") && after.backend(READ) == Str("Lviv")
  {
    ReadCacheable();
    UpdateRecognised();
    var attempts := [TimedOut("timed out", City("Lviv"))];
    EndsAt(attempts, 1);
    MadeIs(attempts, 1);
    hide IsCacheable, IsMutation, TtlFor, Made;
  }

  /** An update succeeds, and the scan fails before its first page: the entry stays as well. */
  lemma CutScanExample()
    ensures var after := Step(CACHED_IN_KYIV, Called(UPDATE, MOVES_TO_LVIV));
            && Hit(after.state.store, READ, MOVES_TO_LVIV)
            && Calling(after.state, READ, MOVES_TO_LVIV).1 == Str("Kyiv") && after.backend(READ) == Str("Lviv")
  {
    ReadCacheable();
    UpdateRecognised();
    EndsAt(MOVES_TO_LVIV.attempts, 0);
    MadeIs(MOVES_TO_LVIV.attempts, 0);
    hide IsCacheable, IsMutation, TtlFor, Made;
  }

  // ---------- A read that passes for a mutation ----------

  const QUICK_CANCELLATIONS := "analytics_quick_cancellations"

  /** The report on cancellations has a time to live and the prefix of a cached tool, and yet it is not
      cached: its name contains a hint. Each of its successful calls empties the cache. */
  lemma ReportEmptiesCache(s: State, arguments: map<string, Json>, c: Conditions)
    requires Succeeds(c.attempts) && Covers(c.pages, s.store)
    ensures QUICK_CANCELLATIONS in PER_TOOL_TTL && CACHEABLE_PREFIXES[0] <= QUICK_CANCELLATIONS
    ensures IsMutation(QUICK_CANCELLATIONS) && !IsCacheable(QUICK_CANCELLATIONS)
    ensures forall call :: Cached(call) !in Calling(s, Call(QUICK_CANCELLATIONS, arguments), c).0.store
  {
    assert FoundAt(QUICK_CANCELLATIONS, MUTATION_HINTS[3], 15);
    assert Contains(QUICK_CANCELLATIONS, MUTATION_HINTS[3]);
    assert IsMutation(QUICK_CANCELLATIONS);
    hide IsMutation, Answers, Result, TtlFor, IsError;
  }
}
