/** When an operation on a shipment succeeds, and what exactly it changes
    (services/logistics-service/internal/controller/service.go). */
module ShipmentLaws {
  import opened Options
  import opened Shipments

  // ---------- The transition table, read backwards ----------

  /** The statuses from which a status can be entered. */
  function EnteredFrom(to: Status): set<Status> {
    match to
    case LabelCreated => {Created}
    case AwaitingPickup => {Created, LabelCreated}
    case PickedUp => {Created, LabelCreated, AwaitingPickup}
    case Cancelled => {Created, LabelCreated, AwaitingPickup, PickedUp}
    case InTransit => {PickedUp, AtHub, Redirected}
    case AtHub => {PickedUp, InTransit, Redirected}
    case Redirected => {InTransit, AtHub}
    case OutForDelivery => {InTransit, AtHub, Redirected, DeliveryAttempted}
    case DeliveryAttempted => {OutForDelivery}
    case HeldAtOffice => {OutForDelivery, DeliveryAttempted}
    case FailedDelivery => {InTransit, OutForDelivery}
    case Delivered => {InTransit, OutForDelivery, DeliveryAttempted, HeldAtOffice}
    case ReturnedToSender => {AtHub, DeliveryAttempted, HeldAtOffice, FailedDelivery}
    case Returned => {Delivered, FailedDelivery}
    case Created => {}
    case Other(name) => {}
  }

  /** Nothing leads back to a created shipment, and a status outside the table can neither be entered nor
      left. */
  lemma TransitionsByTarget(from: Status, to: Status)
    ensures CanTransition(from, to) <==> from in EnteredFrom(to)
    ensures from.Other? || to.Other? ==> !CanTransition(from, to)
  {
  }

  // ---------- Operations ----------

  predicate Final(status: Status) {
    status == Delivered || status == ReturnedToSender || status == Returned || status == Cancelled
  }

  /** The table after an operation that succeeded with `sh`. */
  predicate Saves(table: map<Id, Shipment>, id: Id, op: Op, now: Time, sh: Shipment) {
    Operate(table, id, op, now) == (table[id := sh], Ok(sh))
  }

  predicate Refuses(table: map<Id, Shipment>, id: Id, op: Op, now: Time, error: Error) {
    Operate(table, id, op, now) == (table, Err(error))
  }

  /** No operation touches another shipment, or makes one; one that fails changes nothing. */
  lemma OthersUntouched(table: map<Id, Shipment>, id: Id, op: Op, now: Time, other: Id)
    ensures var (after, r) := Operate(table, id, op, now);
            && after.Keys == table.Keys
            && (other in table && (other != id || r.Err?) ==> after[other] == table[other])
            && (id !in table ==> r.Err?)
  {
  }

  /** A status is updated exactly along the table; being delivered is dated. */
  lemma UpdateExactly(table: map<Id, Shipment>, id: Id, next: Status, now: Time)
    ensures id !in table ==> Refuses(table, id, UpdateStatus(next), now, NotFound)
    ensures id in table && table[id].status !in EnteredFrom(next) ==>
              Refuses(table, id, UpdateStatus(next), now, InvalidTransition)
    ensures id in table && table[id].status in EnteredFrom(next) ==>
              var moved := table[id].(status := next);
              Saves(table, id, UpdateStatus(next), now,
                    if next == Delivered then moved.(deliveredAt := Some(now)) else moved)
  {
    if id in table {
      TransitionsByTarget(table[id].status, next);
      hide CanTransition, EnteredFrom;
    }
  }

  /** A shipment is held from any status at all, delivered ones included. */
  lemma HoldExactly(table: map<Id, Shipment>, id: Id, now: Time)
    ensures if id in table then Saves(table, id, HoldForPickup, now, table[id].(status := HeldAtOffice))
            else Refuses(table, id, HoldForPickup, now, NotFound)
  {
  }

  /** An attempt is refused exactly in the final statuses. It gets the next number, and if its status is
      written, the shipment is returned from the third attempt on. */
  lemma AttemptExactly(table: map<Id, Shipment>, id: Id, writes: bool, now: Time)
    requires id in table ==> Sound(table[id])
    ensures id !in table ==> Refuses(table, id, RecordAttempt(writes), now, NotFound)
    ensures id in table && Final(table[id].status) ==> Refuses(table, id, RecordAttempt(writes), now, TerminalState)
    ensures id in table && !Final(table[id].status) ==>
              var n := |table[id].attempts| + 1;
              var counted := table[id].(attempts := table[id].attempts + [n], deliveryAttempts := n);
              Saves(table, id, RecordAttempt(writes), now,
                    if !writes then counted
                    else counted.(status := if n < 3 then DeliveryAttempted else ReturnedToSender))
  {
    if id in table {
      NumberedNext(table[id].attempts);
      hide NextAttempt, Numbered;
    }
  }

  /** A delivery is confirmed exactly in the statuses that are not final; being delivered already is told
      apart. An empty signature or photo is none. */
  lemma DeliveryExactly(table: map<Id, Shipment>, id: Id, signature: string, photo: string, now: Time)
    ensures id !in table ==> Refuses(table, id, RecordDelivery(signature, photo), now, NotFound)
    ensures id in table && Final(table[id].status) ==>
              Refuses(table, id, RecordDelivery(signature, photo), now,
                      if table[id].status == Delivered then AlreadyDelivered else TerminalState)
    ensures id in table && !Final(table[id].status) ==>
              Saves(table, id, RecordDelivery(signature, photo), now,
                    table[id].(status := Delivered, deliveredAt := Some(now),
                               signature := if |signature| > 0 then Some(signature) else None,
                               photoUrl := if |photo| > 0 then Some(photo) else None))
  {
  }

  // ---------- Redirects ----------

  /** A field of the address that is shipped to: the new one if it is given, and the old one otherwise. */
  predicate Patched(was: string, patch: string, field: string) {
    (|patch| > 0 ==> field == patch) && (|patch| == 0 ==> field == was)
  }

  predicate PatchedAddress(was: Address, patch: Address, a: Address) {
    && Patched(was.fullName, patch.fullName, a.fullName) && Patched(was.phone, patch.phone, a.phone)
    && Patched(was.email, patch.email, a.email) && Patched(was.company, patch.company, a.company)
    && Patched(was.street, patch.street, a.street) && Patched(was.city, patch.city, a.city)
    && Patched(was.region, patch.region, a.region) && Patched(was.postcode, patch.postcode, a.postcode)
    && Patched(was.country, patch.country, a.country)
    && Patched(was.deliveryNotes, patch.deliveryNotes, a.deliveryNotes)
  }

  lemma PatchedIsOr(was: string, patch: string, field: string)
    ensures Patched(was, patch, field) <==> field == Or(patch, was)
  {
  }

  /** The merged address is the patched one, field by field. */
  lemma MergedIsPatched(was: Address, patch: Address, a: Address)
    ensures PatchedAddress(was, patch, a) <==> a == Merged(was, patch)
  {
    PatchedIsOr(was.fullName, patch.fullName, a.fullName);
    PatchedIsOr(was.phone, patch.phone, a.phone);
    PatchedIsOr(was.email, patch.email, a.email);
    PatchedIsOr(was.company, patch.company, a.company);
    PatchedIsOr(was.street, patch.street, a.street);
    PatchedIsOr(was.city, patch.city, a.city);
    PatchedIsOr(was.region, patch.region, a.region);
    PatchedIsOr(was.postcode, patch.postcode, a.postcode);
    PatchedIsOr(was.country, patch.country, a.country);
    PatchedIsOr(was.deliveryNotes, patch.deliveryNotes, a.deliveryNotes);
    hide Patched, Or;
  }

  lemma OrTwice(a: string, p: string, q: string)
    ensures Or(q, Or(p, a)) == Or(Or(q, p), a)
  {
  }

  /** An empty patch changes nothing, and two patches come to one in which the later wins. */
  lemma PatchesCompose(was: Address, p: Address, q: Address)
    ensures Merged(was, NO_ADDRESS) == was && Merged(NO_ADDRESS, p) == p
    ensures Merged(Merged(was, p), q) == Merged(was, Merged(p, q))
  {
    forall a, b, c ensures Or(c, Or(b, a)) == Or(Or(c, b), a) { OrTwice(a, b, c); }
    hide Or;
    assert forall a :: Or("", a) == a && Or(a, "") == a by { OrNothing(); }
  }

  lemma OrNothing()
    ensures forall a :: Or("", a) == a && Or(a, "") == a
  {
  }

  /** A redirect needs a street and a city, which is checked before anything else, and a shipment that is in
      no final status. It patches the address, writes it out again, and changes nothing else but the status. */
  lemma RedirectExactly(table: map<Id, Shipment>, id: Id, patch: Address, now: Time)
    ensures patch.street == "" || patch.city == "" ==> Refuses(table, id, Redirect(patch), now, BadAddress)
    ensures patch.street != "" && patch.city != "" && id !in table ==>
              Refuses(table, id, Redirect(patch), now, NotFound)
    ensures patch.street != "" && patch.city != "" && id in table && Final(table[id].status) ==>
              Refuses(table, id, Redirect(patch), now, CannotRedirect)
    ensures patch.street != "" && patch.city != "" && id in table && !Final(table[id].status) ==>
              var to := Merged(table[id].recipient, patch);
              && to.street == patch.street && to.city == patch.city
              && Saves(table, id, Redirect(patch), now,
                       table[id].(recipient := to, status := Redirected,
                                  address := patch.street + ", " + patch.city + ", " + to.country + ", " + to.postcode))
  {
  }
}
