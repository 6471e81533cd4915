/** The orders' transition table read backwards, what is published of a run, and that a request goes through
    (services/order-service/internal/order/order.go and internal/controller/service.go). */
module OrderStatusLaws {
  import opened Options
  import opened OrderStatus

  // ---------- The transition table ----------

  /** The statuses from which a status can be entered. */
  function EnteredFrom(to: Status): set<Status> {
    match to
    case Confirmed => {Pending, Processing}
    case Processing => {Confirmed}
    case Shipped => {Processing}
    case Delivered => {Shipped}
    case Returned => {Shipped}
    case Completed => {Delivered}
    case Cancelled => {Pending, Confirmed, Processing, Shipped, Delivered}
    case Pending => {}
    case Other(name) => {}
  }

  /** No order is pending again, and a status outside the table can neither be entered nor left. */
  lemma TransitionsByTarget(from: Status, to: Status)
    ensures CanTransition(from, to) <==> from in EnteredFrom(to)
  {
  }

  // ---------- What is published ----------

  /** The order went from one status to the other, in this order and at once. */
  ghost predicate Moved(s: State, id: OrderId, from: Status, to: Status) {
    id in s.history && exists i :: MovedAt(s.history[id], i, from, to)
  }

  predicate MovedAt(h: seq<Status>, i: int, from: Status, to: Status) {
    0 <= i < |h| - 1 && h[i] == from && h[i + 1] == to
  }

  /** A status change tells a move of the order, and a cancellation one that ended in cancelled. */
  ghost predicate Happened(s: State, e: Event) {
    match e
    case StatusChanged(id, previous, current) => Moved(s, id, previous, current)
    case OrderCancelled(id) => exists from :: Moved(s, id, from, Cancelled)
  }

  ghost predicate HappenedInv(s: State) {
    && (forall c | c in s.calls && s.calls[c].ToPublish? :: Happened(s, s.calls[c].event))
    && (forall i | 0 <= i < |s.published| :: Happened(s, s.published[i]))
  }

  /** Histories only grow. */
  ghost predicate Grows(s: State, s': State) {
    forall id | id in s.history :: id in s'.history && s.history[id] <= s'.history[id]
  }

  lemma StepGrows(s: State, step: Step)
    requires HistoryInv(s) && Enabled(s, step)
    ensures Grows(s, Do(s, step))
  {
    hide IsPath, CanTransition;
  }

  lemma MovedStays(s: State, s': State, id: OrderId, from: Status, to: Status)
    requires Grows(s, s') && Moved(s, id, from, to)
    ensures Moved(s', id, from, to)
  {
    var i :| MovedAt(s.history[id], i, from, to);
    assert MovedAt(s'.history[id], i, from, to);
  }

  lemma HappenedStays(s: State, s': State, e: Event)
    requires Grows(s, s') && Happened(s, e)
    ensures Happened(s', e)
  {
    hide Moved, Grows;
    match e
    case StatusChanged(id, previous, current) => MovedStays(s, s', id, previous, current);
    case OrderCancelled(id) =>
      var from :| Moved(s, id, from, Cancelled);
      MovedStays(s, s', id, from, Cancelled);
  }

  /** The event that a compare-and-set owes tells the move that it made. */
  lemma SetHappened(s: State, c: Client)
    requires HistoryInv(s) && Enabled(s, Set(c)) && c in Do(s, Set(c)).calls
    ensures Do(s, Set(c)).calls[c].ToPublish? ==> Happened(Do(s, Set(c)), Do(s, Set(c)).calls[c].event)
  {
    var call, s' := s.calls[c], Do(s, Set(c));
    var id := call.request.id;
    if id in s.orders && s.orders[id] == call.seen {
      var h := s.history[id];
      assert MovedAt(s'.history[id], |h| - 1, call.seen, Target(call.request));
      assert Moved(s', id, call.seen, Target(call.request));
    }
  }

  lemma StepKeepsHappened(s: State, step: Step)
    requires HistoryInv(s) && HappenedInv(s) && Enabled(s, step)
    ensures HappenedInv(Do(s, step))
  {
    var s' := Do(s, step);
    StepGrows(s, step);
    hide Grows, Happened, HistoryInv;
    forall c | c in s'.calls && s'.calls[c].ToPublish?
      ensures Happened(s', s'.calls[c].event)
    {
      if c in s.calls && s.calls[c].ToPublish? && s'.calls[c] == s.calls[c] {
        HappenedStays(s, s', s.calls[c].event);
      } else {
        SetHappened(s, c);
      }
    }
    forall i | 0 <= i < |s'.published|
      ensures Happened(s', s'.published[i])
    {
      HappenedStays(s, s', if i < |s.published| then s.published[i] else s.calls[step.client].event);
    }
  }

  lemma {:induction false} RunKeepsHappened(s: State, steps: seq<Step>)
    requires HistoryInv(s) && HappenedInv(s) && Run(s, steps).Some?
    ensures HappenedInv(Run(s, steps).value)
    decreases |steps|
  {
    if steps != [] {
      StepKeepsHappened(s, steps[0]);
      StepKeepsHistory(s, steps[0]);
      hide HistoryInv, HappenedInv;
      RunKeepsHappened(Do(s, steps[0]), steps[1..]);
    }
  }

  /** However the clients interleave: what is published happened. A status change names two statuses that the
      order had, one right after the other, and so along the table. */
  lemma PublishedHappened(steps: seq<Step>, s: State, i: nat)
    requires Run(START, steps) == Some(s) && i < |s.published|
    ensures Happened(s, s.published[i])
    ensures s.published[i].StatusChanged? ==> CanTransition(s.published[i].previous, s.published[i].current)
  {
    RunKeepsHappened(START, steps);
    RunKeepsInv(START, steps);
    hide CanTransition, CancelledInv, OnceInv;
    if s.published[i].StatusChanged? {
      var e := s.published[i];
      var k :| MovedAt(s.history[e.id], k, e.previous, e.current);
      assert CanTransition(s.history[e.id][k], s.history[e.id][k + 1]);
    }
  }

  // ---------- Progress ----------

  function Steps(c: Client, r: Request): seq<Step> {
    [Invoke(c, r), Read(c), Set(c), Publish(c)]
  }

  predicate StepsTo(s: State, step: Step, after: State) {
    Enabled(s, step) && Do(s, step) == after
  }

  lemma FourSteps(s: State, s1: State, s2: State, s3: State, s4: State, c: Client, r: Request)
    requires StepsTo(s, Invoke(c, r), s1) && StepsTo(s1, Read(c), s2)
    requires StepsTo(s2, Set(c), s3) && StepsTo(s3, Publish(c), s4)
    ensures Run(s, Steps(c, r)) == Some(s4)
  {
    var steps := Steps(c, r);
    hide Do, Enabled;
    assert Run(s3, steps[3..]) == Some(s4);
    assert Run(s2, steps[2..]) == Run(s3, steps[3..]);
    assert Run(s1, steps[1..]) == Run(s2, steps[2..]);
  }

  /** The state with a call of the client at some point. */
  function With(s: State, c: Client, call: Call): State {
    s.(calls := s.calls[c := call])
  }

  /** The state with the order moved. */
  function MoveTo(s: State, id: OrderId, next: Status): State
    requires id in s.history
  {
    s.(orders := s.orders[id := next], history := s.history[id := s.history[id] + [next]])
  }

  lemma FirstSteps(s: State, c: Client, r: Request)
    requires c !in s.calls && r.id in s.orders
    ensures StepsTo(s, Invoke(c, r), With(s, c, Invoked(r)))
    ensures StepsTo(With(s, c, Invoked(r)), Read(c), With(s, c, HasRead(r, s.orders[r.id])))
  {
    hide CanTransition;
    assert s.calls[c := Invoked(r)][c := HasRead(r, s.orders[r.id])] == s.calls[c := HasRead(r, s.orders[r.id])];
  }

  lemma LastSteps(s: State, c: Client, r: Request, e: Event)
    requires c !in s.calls && r.id in s.orders && r.id in s.history && CanTransition(s.orders[r.id], Target(r))
    requires e == EventOf(r, s.orders[r.id])
    ensures var moved := MoveTo(s, r.id, Target(r));
            && StepsTo(With(s, c, HasRead(r, s.orders[r.id])), Set(c), With(moved, c, ToPublish(e)))
            && StepsTo(With(moved, c, ToPublish(e)), Publish(c), moved.(published := s.published + [e]))
  {
    hide CanTransition;
    var seen := HasRead(r, s.orders[r.id]);
    assert s.calls[c := seen][c := ToPublish(e)] == s.calls[c := ToPublish(e)];
    assert s.calls[c := ToPublish(e)] - {c} == s.calls;
  }

  /** In every reachable state, whatever the other clients are at: a request for a move along the table can be
      carried out, and then it moves the order and publishes the move, a cancellation as such. */
  lemma CanCarryOut(s: State, c: Client, r: Request)
    requires HistoryInv(s) && c !in s.calls && r.id in s.orders && CanTransition(s.orders[r.id], Target(r))
    ensures var next := if r.Cancel? then Cancelled else r.next;
            var e := if r.Cancel? then OrderCancelled(r.id) else StatusChanged(r.id, s.orders[r.id], r.next);
            Run(s, Steps(c, r)) ==
            Some(State(s.orders[r.id := next], s.history[r.id := s.history[r.id] + [next]], s.calls, s.published + [e]))
  {
    hide CanTransition, Run, StepsTo;
    var e := EventOf(r, s.orders[r.id]);
    FirstSteps(s, c, r);
    LastSteps(s, c, r, e);
    var moved := MoveTo(s, r.id, Target(r));
    FourSteps(s, With(s, c, Invoked(r)), With(s, c, HasRead(r, s.orders[r.id])), With(moved, c, ToPublish(e)),
              moved.(published := s.published + [e]), c, r);
  }

  /** A client that read a status which has changed since sets nothing and owes nothing. */
  lemma StaleChangesNothing(s: State, c: Client)
    requires Enabled(s, Set(c)) && s.calls[c].request.id in s.orders
    requires s.orders[s.calls[c].request.id] != s.calls[c].seen
    ensures Do(s, Set(c)) == s.(calls := s.calls - {c})
  {
  }
}
