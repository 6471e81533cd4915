/** Order statuses: the transition table (services/order-service/internal/order/order.go) and the
    handlers that read a status, check the transition and compare-and-set the new one
    (services/order-service/internal/controller/service.go). */
module OrderStatus {
  import opened Options

  datatype Status =
    | Pending | Confirmed | Processing | Shipped | Delivered | Completed | Cancelled | Returned
    | Other(name: string)      // a request may name any status

  function ValidTransitions(from: Status): seq<Status> {
    match from
    case Pending => [Confirmed, Cancelled]
    case Confirmed => [Processing, Cancelled]
    case Processing => [Confirmed, Shipped, Cancelled]
    case Shipped => [Delivered, Returned, Cancelled]
    case Delivered => [Completed, Cancelled]
    case _ => []
  }

  predicate CanTransition(from: Status, to: Status) {
    to in ValidTransitions(from)
  }

  type OrderId = nat

  type Orders = map<OrderId, Status>

  datatype Swap = Swapped | NotFound | Conflict

  /** UPDATE ... WHERE id = $ AND status = expected, and the storage's reading of "no row". */
  function CompareAndSet(orders: Orders, id: OrderId, expected: Status, next: Status): (Orders, Swap) {
    if id !in orders then (orders, NotFound)
    else if orders[id] != expected then (orders, Conflict)
    else (orders[id := next], Swapped)
  }

  datatype Event =
    | StatusChanged(id: OrderId, previous: Status, current: Status)
    | OrderCancelled(id: OrderId)

  /** The two single-order endpoints. */
  datatype Request = UpdateStatus(id: OrderId, next: Status) | Cancel(id: OrderId)

  function Target(r: Request): Status {
    if r.Cancel? then Cancelled else r.next
  }

  function EventOf(r: Request, seen: Status): Event {
    if r.Cancel? then OrderCancelled(r.id) else StatusChanged(r.id, seen, r.next)
  }

  // ---------- One handler, undisturbed ----------

  datatype Reply = Updated | OrderNotFound | InvalidTransition | ConcurrentUpdate

  class OrderService {
    var orders: Orders
    var published: seq<Event>

    constructor ()
      ensures orders == map[] && published == []
    {
      orders := map[];
      published := [];
    }

    method CompareAndSetStatus(id: OrderId, expected: Status, next: Status) returns (swap: Swap)
      modifies this`orders
      ensures (orders, swap) == CompareAndSet(old(orders), id, expected, next)
    {
      if id in orders && orders[id] == expected {
        orders := orders[id := next];
        return Swapped;
      }
      if id !in orders {
        return NotFound;
      }
      swap := Conflict;
    }

    /** Without interference the handler either refuses, changing nothing, or moves the order along
        the table and publishes the move. */
    method Handle(r: Request) returns (reply: Reply)
      modifies this
      ensures reply == if r.id !in old(orders) then OrderNotFound
                       else if CanTransition(old(orders)[r.id], Target(r)) then Updated
                       else InvalidTransition
      ensures reply != Updated ==> orders == old(orders) && published == old(published)
      ensures reply == Updated ==>
                && orders == old(orders)[r.id := Target(r)]
                && published == old(published) + [EventOf(r, old(orders)[r.id])]
    {
      if r.id !in orders {
        return OrderNotFound;
      }
      var current := orders[r.id];
      if !CanTransition(current, Target(r)) {
        return InvalidTransition;
      }
      var swap := CompareAndSetStatus(r.id, current, Target(r));
      if swap != Swapped {
        return ConcurrentUpdate;
      }
      published := published + [EventOf(r, current)];
      reply := Updated;
    }
  }

  // ---------- Any number of clients, interleaved ----------

  type Client = nat

  /** How far a client's request has come. */
  datatype Call =
    | Invoked(request: Request)
    | HasRead(request: Request, seen: Status)
    | ToPublish(event: Event)

  /** `history` lists the statuses every order has had in the table; it is not stored anywhere. */
  datatype State = State(orders: Orders, history: map<OrderId, seq<Status>>, calls: map<Client, Call>,
                         published: seq<Event>)

  datatype Step =
    | Create(id: OrderId)
    | Invoke(client: Client, request: Request)
    | Read(client: Client)
    | Set(client: Client)
    | Publish(client: Client)
    | Abandon(client: Client)      // refused, failed or crashed; possible at any point

  const START := State(map[], map[], map[], [])

  predicate Enabled(s: State, step: Step) {
    match step
    case Create(id) => id !in s.orders
    case Invoke(c, _) => c !in s.calls
    case Read(c) => c in s.calls && s.calls[c].Invoked? && s.calls[c].request.id in s.orders
    case Set(c) => c in s.calls && s.calls[c].HasRead? && CanTransition(s.calls[c].seen, Target(s.calls[c].request))
    case Publish(c) => c in s.calls && s.calls[c].ToPublish?
    case Abandon(c) => c in s.calls
  }

  function Do(s: State, step: Step): State
    requires Enabled(s, step)
  {
    match step
    case Create(id) => s.(orders := s.orders[id := Pending], history := s.history[id := [Pending]])
    case Invoke(c, request) => s.(calls := s.calls[c := Invoked(request)])
    case Read(c) =>
      var request := s.calls[c].request;
      s.(calls := s.calls[c := HasRead(request, s.orders[request.id])])
    case Set(c) =>
      var call := s.calls[c];
      var id := call.request.id;
      var (orders, swap) := CompareAndSet(s.orders, id, call.seen, Target(call.request));
      if swap == Swapped then
        s.(orders := orders,
           history := s.history[id := (if id in s.history then s.history[id] else []) + [Target(call.request)]],
           calls := s.calls[c := ToPublish(EventOf(call.request, call.seen))])
      else s.(calls := s.calls - {c})
    case Publish(c) => s.(published := s.published + [s.calls[c].event], calls := s.calls - {c})
    case Abandon(c) => s.(calls := s.calls - {c})
  }

  /** The state after the steps, or None if some step could not be taken. */
  function Run(s: State, steps: seq<Step>): Option<State>
    decreases |steps|
  {
    if steps == [] then Some(s)
    else if !Enabled(s, steps[0]) then None
    else Run(Do(s, steps[0]), steps[1..])
  }

  /** A path of the transition table, from a new order. */
  predicate IsPath(h: seq<Status>) {
    h != [] && h[0] == Pending && forall i, j | 0 <= i && j == i + 1 < |h| :: CanTransition(h[i], h[j])
  }

  /** An `order.cancelled` that a client still owes, or that is already published. */
  predicate Owes(s: State, c: Client, id: OrderId) {
    c in s.calls && s.calls[c] == ToPublish(OrderCancelled(id))
  }

  ghost predicate HistoryInv(s: State) {
    && s.history.Keys == s.orders.Keys
    && forall id | id in s.orders :: IsPath(s.history[id]) && s.history[id][|s.history[id]| - 1] == s.orders[id]
  }

  /** An order whose cancellation is owed or published is cancelled. */
  ghost predicate CancelledInv(s: State) {
    && (forall c, id | Owes(s, c, id) :: id in s.orders && s.orders[id] == Cancelled)
    && (forall id | OrderCancelled(id) in s.published :: id in s.orders && s.orders[id] == Cancelled)
  }

  /** Owed by one client only, and then not yet published; published once only. */
  ghost predicate OnceInv(s: State) {
    && (forall c, id | Owes(s, c, id) :: OrderCancelled(id) !in s.published)
    && (forall c, c', id | Owes(s, c, id) && Owes(s, c', id) :: c == c')
    && (forall i, j, id | 0 <= i < |s.published| && 0 <= j < |s.published|
                          && s.published[i] == OrderCancelled(id) && s.published[j] == OrderCancelled(id) :: i == j)
  }

  lemma PathSnoc(h: seq<Status>, next: Status)
    requires IsPath(h) && CanTransition(h[|h| - 1], next)
    ensures IsPath(h + [next])
  {
  }

  lemma StepKeepsHistory(s: State, step: Step)
    requires HistoryInv(s) && Enabled(s, step)
    ensures HistoryInv(Do(s, step))
  {
    if step.Set? {
      var call := s.calls[step.client];
      var id := call.request.id;
      if id in s.orders && s.orders[id] == call.seen {
        PathSnoc(s.history[id], Target(call.request));
      }
    }
  }

  lemma NoWayOut(status: Status, next: Status)
    requires status in {Completed, Cancelled, Returned} || status.Other?
    ensures !CanTransition(status, next)
  {
  }

  /** Who owes a cancellation after a step owed it before, or has just set the status. */
  lemma NewlyOwed(s: State, step: Step, c: Client, id: OrderId)
    requires Enabled(s, step) && Owes(Do(s, step), c, id)
    ensures Owes(s, c, id) ||
            (step == Set(c) && id in s.orders && s.orders[id] != Cancelled && Do(s, step).orders[id] == Cancelled)
    ensures Do(s, step).published == s.published || (step.Publish? && c != step.client)
  {
    if step == Set(c) && !Owes(s, c, id) {
      NoWayOut(Cancelled, Cancelled);
    }
  }

  lemma StepKeepsCancelled(s: State, step: Step)
    requires CancelledInv(s) && Enabled(s, step)
    ensures CancelledInv(Do(s, step))
  {
    var s' := Do(s, step);
    forall id | id in s.orders && s.orders[id] == Cancelled
      ensures id in s'.orders && s'.orders[id] == Cancelled
    {
      if step.Set? { NoWayOut(Cancelled, Target(s.calls[step.client].request)); }
    }
    forall c, id | Owes(s', c, id)
      ensures id in s'.orders && s'.orders[id] == Cancelled
    {
      NewlyOwed(s, step, c, id);
    }
    forall id | OrderCancelled(id) in s'.published
      ensures id in s'.orders && s'.orders[id] == Cancelled
    {
      if OrderCancelled(id) !in s.published { assert Owes(s, step.client, id); }
    }
  }

  /** Cancelled has no way out, so the compare-and-set that cancels an order is the last one. */
  lemma StepKeepsOnce(s: State, step: Step)
    requires CancelledInv(s) && OnceInv(s) && Enabled(s, step)
    ensures OnceInv(Do(s, step))
  {
    var s' := Do(s, step);
    forall c, id | Owes(s', c, id)
      ensures OrderCancelled(id) !in s'.published
      ensures forall c' | Owes(s', c', id) :: c' == c
    {
      NewlyOwed(s, step, c, id);
      forall c' | Owes(s', c', id)
        ensures c' == c
      {
        NewlyOwed(s, step, c', id);
      }
      if s'.published != s.published && s.calls[step.client].event == OrderCancelled(id) {
        assert Owes(s, step.client, id);
      }
    }
    if step.Publish? && s.calls[step.client].event.OrderCancelled? {
      assert Owes(s, step.client, s.calls[step.client].event.id);
    }
  }

  lemma {:induction false} RunKeepsInv(s: State, steps: seq<Step>)
    requires HistoryInv(s) && CancelledInv(s) && OnceInv(s) && Run(s, steps).Some?
    ensures var s' := Run(s, steps).value; HistoryInv(s') && CancelledInv(s') && OnceInv(s')
    decreases |steps|
  {
    if steps != [] {
      StepKeepsHistory(s, steps[0]);
      StepKeepsCancelled(s, steps[0]);
      StepKeepsOnce(s, steps[0]);
      RunKeepsInv(Do(s, steps[0]), steps[1..]);
    }
  }

  // ---------- Main results ----------

  /** However many clients interleave their reads and compare-and-sets, and despite the cycle
      between confirmed and processing that lets a status come back between a read and a set, the
      statuses an order has had are a path of the table that ends in its present status. */
  lemma HistoryIsPath(steps: seq<Step>, s: State, id: OrderId)
    requires Run(START, steps) == Some(s) && id in s.orders
    ensures id in s.history && IsPath(s.history[id])
    ensures s.history[id][|s.history[id]| - 1] == s.orders[id]
  {
    RunKeepsInv(START, steps);
  }

  /** Exactly completed, cancelled and returned (and no status of the table) have no way out. */
  lemma TerminalExactly(status: Status)
    ensures (forall next :: !CanTransition(status, next)) <==>
            status in {Completed, Cancelled, Returned} || status.Other?
  {
    assert CanTransition(Pending, Confirmed) && CanTransition(Confirmed, Processing)
        && CanTransition(Processing, Shipped) && CanTransition(Shipped, Delivered)
        && CanTransition(Delivered, Completed);
  }

  /** They are absorbing: no status follows them in any history. */
  lemma TerminalIsLast(steps: seq<Step>, s: State, id: OrderId, i: nat)
    requires Run(START, steps) == Some(s) && id in s.orders && id in s.history && i < |s.history[id]|
    requires s.history[id][i] in {Completed, Cancelled, Returned}
    ensures i == |s.history[id]| - 1 && s.orders[id] == s.history[id][i]
  {
    HistoryIsPath(steps, s, id);
    if i + 1 < |s.history[id]| {
      NoWayOut(s.history[id][i], s.history[id][i + 1]);
    }
  }

  /** `order.cancelled` is published at most once per order, and only for cancelled orders. */
  lemma CancelledAtMostOnce(steps: seq<Step>, s: State, id: OrderId, i: nat, j: nat)
    requires Run(START, steps) == Some(s) && i < |s.published| && j < |s.published|
    requires s.published[i] == s.published[j] == OrderCancelled(id)
    ensures i == j && id in s.orders && s.orders[id] == Cancelled
  {
    RunKeepsInv(START, steps);
  }
}
