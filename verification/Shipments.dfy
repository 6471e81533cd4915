/** The life of a shipment: the transition table (services/logistics-service/internal/shipment/shipment.go),
    the storage (shipment/storage.go) and the operations of the service
    (services/logistics-service/internal/controller/service.go), run one after the other. */
module Shipments {
  import opened Options

  datatype Status =
    | Created | LabelCreated | AwaitingPickup | PickedUp | InTransit | AtHub | OutForDelivery
    | DeliveryAttempted | HeldAtOffice | Delivered | FailedDelivery | ReturnedToSender | Returned | Cancelled
    | Redirected
    | Other(name: string)      // a request may name any status

  function ValidTransitions(from: Status): seq<Status> {
    match from
    case Created => [LabelCreated, AwaitingPickup, PickedUp, Cancelled]
    case LabelCreated => [AwaitingPickup, PickedUp, Cancelled]
    case AwaitingPickup => [PickedUp, Cancelled]
    case PickedUp => [InTransit, AtHub, Cancelled]
    case InTransit => [AtHub, OutForDelivery, Delivered, FailedDelivery, Redirected]
    case AtHub => [InTransit, OutForDelivery, Redirected, ReturnedToSender]
    case OutForDelivery => [Delivered, DeliveryAttempted, HeldAtOffice, FailedDelivery]
    case DeliveryAttempted => [OutForDelivery, HeldAtOffice, ReturnedToSender, Delivered]
    case HeldAtOffice => [Delivered, ReturnedToSender]
    case Delivered => [Returned]
    case FailedDelivery => [Returned, ReturnedToSender]
    case Redirected => [InTransit, AtHub, OutForDelivery]
    case _ => []
  }

  predicate CanTransition(from: Status, to: Status) {
    to in ValidTransitions(from)
  }

  /** `isTerminalStatus`. */
  predicate IsTerminal(status: Status) {
    status in {Delivered, ReturnedToSender, Returned, Cancelled}
  }

  type Time = int

  /** `attempts` are the attempt numbers in the table of attempts, `deliveryAttempts` the counter
      in the shipment's own row. */
  datatype Shipment = Shipment(
    status: Status, deliveredAt: Option<Time>, attempts: seq<int>, deliveryAttempts: int,
    recipient: Address, address: string, signature: Option<string>, photoUrl: Option<string>)

  datatype Address = Address(
    fullName: string, phone: string, email: string, company: string, street: string, city: string,
    region: string, postcode: string, country: string, deliveryNotes: string)

  const NO_ADDRESS := Address("", "", "", "", "", "", "", "", "", "")

  const NEW := Shipment(LabelCreated, None, [], 0, NO_ADDRESS, "", None, None)

  /** Of a recorded attempt it is told whether the status write that follows it works. A write of
      another operation that fails is reported, and leaves the shipment as if it was not called. */
  datatype Op =
    | UpdateStatus(next: Status)
    | Redirect(newAddress: Address)
    | HoldForPickup
    | RecordAttempt(statusWriteWorks: bool)
    | RecordDelivery(signature: string, photoUrl: string)

  datatype Error = NotFound | InvalidTransition | AlreadyDelivered | TerminalState | CannotRedirect | BadAddress

  datatype Result = Ok(shipment: Shipment) | Err(error: Error)

  function Or(patch: string, existing: string): string {
    if patch != "" then patch else existing
  }

  /** `mergeAddressFromStruct`: what the patch leaves empty stays as it was. */
  function Merged(a: Address, patch: Address): Address {
    Address(Or(patch.fullName, a.fullName), Or(patch.phone, a.phone), Or(patch.email, a.email),
            Or(patch.company, a.company), Or(patch.street, a.street), Or(patch.city, a.city),
            Or(patch.region, a.region), Or(patch.postcode, a.postcode), Or(patch.country, a.country),
            Or(patch.deliveryNotes, a.deliveryNotes))
  }

  function Flat(a: Address): string {
    a.street + ", " + a.city + ", " + a.country + ", " + a.postcode
  }

  /** `NULLIF(s, '')`. */
  function NullIfEmpty(s: string): Option<string> {
    if s == "" then None else Some(s)
  }

  /** COALESCE(MAX(attempt_number), 0) + 1. */
  function NextAttempt(attempts: seq<int>): int {
    if attempts == [] then 1
    else
      var before, last := NextAttempt(attempts[..|attempts| - 1]), attempts[|attempts| - 1];
      if last >= before then last + 1 else before
  }

  /** The storage's UPDATE of the status. */
  function WithStatus(sh: Shipment, status: Status, now: Time): Shipment {
    sh.(status := status, deliveredAt := if status == Delivered then Some(now) else sh.deliveredAt)
  }

  /** What one operation makes of a shipment. */
  function Perform(sh: Shipment, op: Op, now: Time): Result {
    match op
    case UpdateStatus(next) =>
      if CanTransition(sh.status, next) then Ok(WithStatus(sh, next, now)) else Err(InvalidTransition)
    case Redirect(newAddress) =>
      if newAddress.street == "" || newAddress.city == "" then Err(BadAddress)
      else if IsTerminal(sh.status) then Err(CannotRedirect)
      else
        var recipient := Merged(sh.recipient, newAddress);
        Ok(sh.(recipient := recipient, address := Flat(recipient), status := Redirected))
    case HoldForPickup => Ok(WithStatus(sh, HeldAtOffice, now))
    case RecordAttempt(statusWriteWorks) =>
      if IsTerminal(sh.status) then Err(TerminalState)
      else
        var number := NextAttempt(sh.attempts);
        var counted := sh.(attempts := sh.attempts + [number], deliveryAttempts := sh.deliveryAttempts + 1);
        Ok(if !statusWriteWorks then counted
           else WithStatus(counted, if number >= 3 then ReturnedToSender else DeliveryAttempted, now))
    case RecordDelivery(signature, photoUrl) =>
      if sh.status == Delivered then Err(AlreadyDelivered)
      else if IsTerminal(sh.status) then Err(TerminalState)
      else Ok(sh.(status := Delivered, deliveredAt := Some(now),
                  signature := NullIfEmpty(signature), photoUrl := NullIfEmpty(photoUrl)))
  }

  type Id = nat

  predicate BadRedirect(op: Op) {
    op.Redirect? && (op.newAddress.street == "" || op.newAddress.city == "")
  }

  /** One operation on the table of shipments. A redirect's address is checked before the lookup. */
  function Operate(table: map<Id, Shipment>, id: Id, op: Op, now: Time): (map<Id, Shipment>, Result) {
    if id !in table then (table, Err(if BadRedirect(op) then BadAddress else NotFound))
    else
      var r := Perform(table[id], op, now);
      (if r.Ok? then table[id := r.shipment] else table, r)
  }

  // ---------- The service, statement by statement ----------

  class ShipmentService {
    var shipments: map<Id, Shipment>

    constructor ()
      ensures shipments == map[]
    {
      shipments := map[];
    }

    method CreateShipment(id: Id)
      requires id !in shipments
      modifies this
      ensures shipments == old(shipments)[id := NEW]
    {
      shipments := shipments[id := NEW];
    }

    /** The storage's UpdateShipmentStatus, which checks no transition. */
    method SetStatus(id: Id, status: Status, now: Time) returns (r: Result)
      modifies this
      ensures r == if id in old(shipments) then Ok(WithStatus(old(shipments)[id], status, now)) else Err(NotFound)
      ensures shipments == if r.Ok? then old(shipments)[id := r.shipment] else old(shipments)
    {
      if id !in shipments {
        return Err(NotFound);
      }
      var sh := shipments[id];
      if status == Delivered {
        sh := sh.(deliveredAt := Some(now));
      }
      sh := sh.(status := status);
      shipments := shipments[id := sh];
      r := Ok(sh);
    }

    method UpdateShipmentStatus(id: Id, next: Status, now: Time) returns (r: Result)
      modifies this
      ensures (shipments, r) == Operate(old(shipments), id, UpdateStatus(next), now)
    {
      if id !in shipments {
        return Err(NotFound);
      }
      if !CanTransition(shipments[id].status, next) {
        return Err(InvalidTransition);
      }
      r := SetStatus(id, next, now);
    }

    method MergeAddress(existing: Address, patch: Address) returns (a: Address)
      ensures a == Merged(existing, patch)
    {
      var fullName := existing.fullName;
      if patch.fullName != "" { fullName := patch.fullName; }
      var phone := existing.phone;
      if patch.phone != "" { phone := patch.phone; }
      var email := existing.email;
      if patch.email != "" { email := patch.email; }
      var company := existing.company;
      if patch.company != "" { company := patch.company; }
      var street := existing.street;
      if patch.street != "" { street := patch.street; }
      var city := existing.city;
      if patch.city != "" { city := patch.city; }
      var region := existing.region;
      if patch.region != "" { region := patch.region; }
      var postcode := existing.postcode;
      if patch.postcode != "" { postcode := patch.postcode; }
      var country := existing.country;
      if patch.country != "" { country := patch.country; }
      var deliveryNotes := existing.deliveryNotes;
      if patch.deliveryNotes != "" { deliveryNotes := patch.deliveryNotes; }
      a := Address(fullName, phone, email, company, street, city, region, postcode, country, deliveryNotes);
    }

    method RedirectShipment(id: Id, newAddress: Address, now: Time) returns (r: Result)
      modifies this
      ensures (shipments, r) == Operate(old(shipments), id, Redirect(newAddress), now)
    {
      if newAddress.city == "" || newAddress.street == "" {
        return Err(BadAddress);
      }
      if id !in shipments {
        return Err(NotFound);
      }
      var current := shipments[id];
      match current.status {
        case Delivered => return Err(CannotRedirect);
        case ReturnedToSender => return Err(CannotRedirect);
        case Cancelled => return Err(CannotRedirect);
        case Returned => return Err(CannotRedirect);
        case _ =>
      }
      var merged := MergeAddress(current.recipient, newAddress);
      var updated := current.(recipient := merged, address := Flat(merged), status := Redirected);
      shipments := shipments[id := updated];
      r := Ok(updated);
    }

    method Hold(id: Id, now: Time) returns (r: Result)
      modifies this
      ensures (shipments, r) == Operate(old(shipments), id, HoldForPickup, now)
    {
      r := SetStatus(id, HeldAtOffice, now);
    }

    /** The attempt is committed first; whether the status write works is not looked at. */
    method RecordDeliveryAttempt(id: Id, statusWriteWorks: bool, now: Time) returns (r: Result)
      modifies this
      ensures (shipments, r) == Operate(old(shipments), id, RecordAttempt(statusWriteWorks), now)
    {
      hide NextAttempt;
      if id !in shipments {
        return Err(NotFound);
      }
      var current := shipments[id];
      if IsTerminal(current.status) {
        return Err(TerminalState);
      }
      var number := MaxAttempt(current.attempts);
      number := number + 1;
      var counted := current.(attempts := current.attempts + [number]);
      counted := counted.(deliveryAttempts := counted.deliveryAttempts + 1);
      shipments := shipments[id := counted];
      if number >= 3 {
        if statusWriteWorks {
          var _ := SetStatus(id, ReturnedToSender, now);
        }
      } else if current.status != DeliveryAttempted {
        if statusWriteWorks {
          var _ := SetStatus(id, DeliveryAttempted, now);
        }
      }
      r := Ok(shipments[id]);
      assert shipments == old(shipments)[id := r.shipment];
    }

    method MaxAttempt(attempts: seq<int>) returns (max: int)
      ensures max + 1 == NextAttempt(attempts)
    {
      max := 0;
      for i := 0 to |attempts|
        invariant max + 1 == NextAttempt(attempts[..i])
      {
        assert attempts[..i + 1][..i] == attempts[..i];
        if attempts[i] > max {
          max := attempts[i];
        }
      }
      assert attempts[..|attempts|] == attempts;
    }

    method ConfirmDelivery(id: Id, signature: string, photoUrl: string, now: Time) returns (r: Result)
      modifies this
      ensures (shipments, r) == Operate(old(shipments), id, RecordDelivery(signature, photoUrl), now)
    {
      if id !in shipments {
        return Err(NotFound);
      }
      var existing := shipments[id];
      if existing.status == Delivered {
        return Err(AlreadyDelivered);
      }
      if IsTerminal(existing.status) {
        return Err(TerminalState);
      }
      var out := existing.(status := Delivered, deliveredAt := Some(now));
      out := out.(signature := NullIfEmpty(signature), photoUrl := NullIfEmpty(photoUrl));
      shipments := shipments[id := out];
      r := Ok(out);
    }
  }

  // ---------- Runs ----------

  datatype Call = Call(op: Op, now: Time)

  /** A shipment after a sequence of operations; the ones refused leave it as it was. */
  function Life(sh: Shipment, calls: seq<Call>): Shipment {
    if calls == [] then sh
    else
      var before := Life(sh, calls[..|calls| - 1]);
      var r := Perform(before, calls[|calls| - 1].op, calls[|calls| - 1].now);
      if r.Ok? then r.shipment else before
  }

  function Holds(calls: seq<Call>): nat {
    if calls == [] then 0 else Holds(calls[..|calls| - 1]) + if calls[|calls| - 1].op.HoldForPickup? then 1 else 0
  }

  /** Third or later attempts that were recorded while the write of their status was lost. */
  function LostReturns(calls: seq<Call>): nat {
    if calls == [] then 0
    else
      var before := calls[..|calls| - 1];
      LostReturns(before) + if LosesReturn(Life(NEW, before), calls[|calls| - 1].op) then 1 else 0
  }

  predicate LosesReturn(sh: Shipment, op: Op) {
    op.RecordAttempt? && !op.statusWriteWorks && !IsTerminal(sh.status) && |sh.attempts| >= 2
  }

  predicate Numbered(attempts: seq<int>) {
    forall i | 0 <= i < |attempts| :: attempts[i] == i + 1
  }

  lemma {:induction false} NumberedNext(attempts: seq<int>)
    requires Numbered(attempts)
    ensures NextAttempt(attempts) == |attempts| + 1
    ensures Numbered(attempts + [NextAttempt(attempts)])
  {
    if attempts != [] { NumberedNext(attempts[..|attempts| - 1]); }
  }

  /** What every operation keeps, with or without HoldForPickup. */
  predicate Sound(sh: Shipment) {
    && (sh.status == Delivered ==> sh.deliveredAt.Some?)
    && Numbered(sh.attempts) && sh.deliveryAttempts == |sh.attempts|
  }

  lemma PerformKeepsSound(sh: Shipment, op: Op, now: Time)
    requires Sound(sh) && Perform(sh, op, now).Ok?
    ensures Sound(Perform(sh, op, now).shipment)
  {
    if op.RecordAttempt? { NumberedNext(sh.attempts); }
  }

  /** Every hold, and every lost return, can allow one more attempt beyond the third. */
  predicate Bounded(sh: Shipment, extra: nat) {
    |sh.attempts| <= (if IsTerminal(sh.status) then 3 else 2) + extra
  }

  lemma PerformKeepsBounded(sh: Shipment, op: Op, now: Time, extra: nat)
    requires Sound(sh) && Bounded(sh, extra) && Perform(sh, op, now).Ok?
    ensures Bounded(Perform(sh, op, now).shipment, extra + if op.HoldForPickup? || LosesReturn(sh, op) then 1 else 0)
  {
    if op.RecordAttempt? { NumberedNext(sh.attempts); }
  }

  lemma {:induction false} LifeInv(calls: seq<Call>)
    ensures Sound(Life(NEW, calls)) && Bounded(Life(NEW, calls), Holds(calls) + LostReturns(calls))
  {
    if calls != [] {
      var before, call := calls[..|calls| - 1], calls[|calls| - 1];
      LifeInv(before);
      var sh := Life(NEW, before);
      if Perform(sh, call.op, call.now).Ok? {
        PerformKeepsSound(sh, call.op, call.now);
        PerformKeepsBounded(sh, call.op, call.now, Holds(before) + LostReturns(before));
      }
    }
  }

  // ---------- Main results ----------

  /** In every run: a delivered shipment has its time of delivery, the attempt numbers are exactly
      1, 2, ..., n in order, and n is the counter in the shipment's row. */
  lemma AttemptsNumbered(calls: seq<Call>)
    ensures var sh := Life(NEW, calls);
            && (sh.status == Delivered ==> sh.deliveredAt.Some?)
            && |sh.attempts| == sh.deliveryAttempts
            && forall i | 0 <= i < |sh.attempts| :: sh.attempts[i] == i + 1
  {
    LifeInv(calls);
  }

  /** In every run there are at most three attempts, one more for every hold, and one more for every
      third or later attempt whose status write was lost. */
  lemma AttemptsBounded(calls: seq<Call>)
    ensures |Life(NEW, calls).attempts| <= 3 + Holds(calls) + LostReturns(calls)
  {
    LifeInv(calls);
  }

  /** Two attempts, then `lost` ones whose status write is lost, and one that is not. */
  function Lingering(lost: nat, now: Time): seq<Call> {
    Losing(lost, now) + [Call(RecordAttempt(true), now)]
  }

  function Losing(lost: nat, now: Time): seq<Call> {
    if lost == 0 then [] + [Call(RecordAttempt(true), now)] + [Call(RecordAttempt(true), now)]
    else Losing(lost - 1, now) + [Call(RecordAttempt(false), now)]
  }

  /** After that, `holds` times, a hold and one more attempt. */
  function Reviving(holds: nat, lost: nat, now: Time): seq<Call> {
    if holds == 0 then Lingering(lost, now)
    else Reviving(holds - 1, lost, now) + [Call(HoldForPickup, now)] + [Call(RecordAttempt(true), now)]
  }

  /** The bound is reached for every number of holds and lost writes: each hold brings a returned
      shipment back for another attempt, and each lost write leaves one open for another. */
  lemma {:induction false} BoundReached(holds: nat, lost: nat, now: Time)
    ensures Holds(Reviving(holds, lost, now)) == holds && LostReturns(Reviving(holds, lost, now)) == lost
    ensures |Life(NEW, Reviving(holds, lost, now)).attempts| == 3 + holds + lost
  {
    hide Life, Holds, LostReturns;
    if holds == 0 {
      LosingLeavesOpen(lost, now);
      AttemptNext(Losing(lost, now), Call(RecordAttempt(true), now));
    } else {
      BoundReached(holds - 1, lost, now);
      Revival(Reviving(holds - 1, lost, now), Call(HoldForPickup, now), Call(RecordAttempt(true), now));
    }
  }

  /** A shipment with any number of attempts, no hold, and no end: what lost writes come to. */
  lemma {:induction false} LosingLeavesOpen(lost: nat, now: Time)
    ensures Holds(Losing(lost, now)) == 0 && LostReturns(Losing(lost, now)) == lost
    ensures |Life(NEW, Losing(lost, now)).attempts| == 2 + lost && !IsTerminal(Life(NEW, Losing(lost, now)).status)
  {
    if lost == 0 {
      assert Life(NEW, []) == NEW && Holds([]) == 0 && LostReturns([]) == 0;
      hide Life, Holds, LostReturns;
      AttemptNext([], Call(RecordAttempt(true), now));
      AttemptNext([] + [Call(RecordAttempt(true), now)], Call(RecordAttempt(true), now));
    } else {
      hide Life, Holds, LostReturns;
      LosingLeavesOpen(lost - 1, now);
      AttemptNext(Losing(lost - 1, now), Call(RecordAttempt(false), now));
    }
  }

  lemma Revival(calls: seq<Call>, hold: Call, attempt: Call)
    requires hold.op == HoldForPickup && attempt.op == RecordAttempt(true)
    ensures Holds(calls + [hold] + [attempt]) == Holds(calls) + 1
    ensures LostReturns(calls + [hold] + [attempt]) == LostReturns(calls)
    ensures |Life(NEW, calls + [hold] + [attempt]).attempts| == |Life(NEW, calls).attempts| + 1
  {
    hide Life, Holds, LostReturns;
    HoldNext(calls, hold);
    AttemptNext(calls + [hold], attempt);
  }

  lemma HoldNext(calls: seq<Call>, hold: Call)
    requires hold.op == HoldForPickup
    ensures Holds(calls + [hold]) == Holds(calls) + 1 && LostReturns(calls + [hold]) == LostReturns(calls)
    ensures Life(NEW, calls + [hold]).attempts == Life(NEW, calls).attempts
    ensures !IsTerminal(Life(NEW, calls + [hold]).status)
  {
    hide Life, Holds, LostReturns, LosesReturn;
    LifeSnoc(calls, hold);
    HoldAlways(Life(NEW, calls), hold.now);
    hide Perform, IsTerminal;
    NoReturnLost(Life(NEW, calls), hold.op);
  }

  lemma HoldAlways(sh: Shipment, now: Time)
    ensures Perform(sh, HoldForPickup, now).Ok? && Perform(sh, HoldForPickup, now).shipment.attempts == sh.attempts
    ensures !IsTerminal(Perform(sh, HoldForPickup, now).shipment.status)
  {
  }

  lemma NoReturnLost(sh: Shipment, op: Op)
    requires !op.RecordAttempt?
    ensures !LosesReturn(sh, op)
  {
  }

  /** An attempt on a shipment that is not in a terminal status is one more attempt, and ends the
      shipment if it is the third or a later one and its status write works. */
  lemma AttemptNext(calls: seq<Call>, attempt: Call)
    requires attempt.op.RecordAttempt? && !IsTerminal(Life(NEW, calls).status)
    ensures Holds(calls + [attempt]) == Holds(calls)
    ensures |Life(NEW, calls + [attempt]).attempts| == |Life(NEW, calls).attempts| + 1
    ensures IsTerminal(Life(NEW, calls + [attempt]).status) <==>
              |Life(NEW, calls).attempts| >= 2 && attempt.op.statusWriteWorks
    ensures LostReturns(calls + [attempt]) == LostReturns(calls) +
              if |Life(NEW, calls).attempts| >= 2 && !attempt.op.statusWriteWorks then 1 else 0
  {
    hide Life, Holds, LostReturns;
    LifeSnoc(calls, attempt);
    LifeInv(calls);
    NumberedNext(Life(NEW, calls).attempts);
  }

  lemma LifeSnoc(calls: seq<Call>, call: Call)
    ensures Holds(calls + [call]) == Holds(calls) + if call.op.HoldForPickup? then 1 else 0
    ensures LostReturns(calls + [call]) == LostReturns(calls) + if LosesReturn(Life(NEW, calls), call.op) then 1 else 0
    ensures Life(NEW, calls + [call]) ==
            var r := Perform(Life(NEW, calls), call.op, call.now);
            if r.Ok? then r.shipment else Life(NEW, calls)
  {
    assert (calls + [call])[..|calls|] == calls;
  }

  /** Exactly how a shipment can leave a terminal status: by a hold, which checks nothing, or from
      delivered to returned along the table. */
  lemma TerminalLeftExactly(sh: Shipment, op: Op, now: Time)
    requires IsTerminal(sh.status)
    ensures (Perform(sh, op, now).Ok? && Perform(sh, op, now).shipment.status != sh.status) <==>
            op == HoldForPickup || (sh.status == Delivered && op == UpdateStatus(Returned))
  {
  }

  /** In runs without holds, returned to sender, returned and cancelled are absorbing, and
      delivered leads to returned only. */
  lemma {:induction false} TerminalAbsorbing(calls: seq<Call>, k: nat)
    requires k <= |calls| && Holds(calls) == 0 && IsTerminal(Life(NEW, calls[..k]).status)
    ensures Life(NEW, calls).status == Life(NEW, calls[..k]).status ||
            (Life(NEW, calls[..k]).status == Delivered && Life(NEW, calls).status == Returned)
  {
    if k == |calls| {
      assert calls[..k] == calls;
    } else {
      var before, call := calls[..|calls| - 1], calls[|calls| - 1];
      assert before[..k] == calls[..k];
      TerminalAbsorbing(before, k);
      TerminalLeftExactly(Life(NEW, before), call.op, call.now);
    }
  }
}
