/** The stock table and its movement ledger: services/inventory-service/internal/stock/storage.go.

    `Execute` says what one operation does when it runs alone: the error it ends in, or the new row
    and the movement it inserts. `StockStorage` runs the operations statement by statement. */
module StockLedger {
  import opened Options

  datatype Key = Key(product: string, warehouse: string)

  datatype Row = Row(quantity: int, reserved: int, minThreshold: int) {
    function Available(): int { quantity - reserved }
  }

  datatype MovementType = ReserveMove | ReleaseMove | Inbound | Outbound | Adjustment | Unknown(name: string)

  datatype Movement = Movement(key: Key, kind: MovementType, quantity: int, reference: string)

  datatype Db = Db(rows: map<Key, Row>, movements: seq<Movement>)

  /** The operations that change stock. */
  datatype Op =
    | Reserve(key: Key, quantity: int, reference: string)
    | Release(key: Key, quantity: int, reference: string)
    | Adjust(key: Key, quantity: int, kind: MovementType, reference: string)
    | SetThreshold(key: Key, threshold: int)
    | GetOrCreate(key: Key)

  datatype Error =
    | InvalidQuantity | StockNotFound | InsufficientStock | NothingToRelease | ReleaseExceedsReserved
    | InvalidMovementType | UpdateFailed | InsertFailed

  datatype Result = Done(row: Row) | Failed(error: Error)

  // ---------- The database's own limits ----------

  /** The range of the INT columns. */
  predicate FitsInt4(n: int) {
    -0x8000_0000 <= n <= 0x7FFF_FFFF
  }

  /** The constraint chk_reserved_le_quantity. */
  predicate ReservedLeQuantity(r: Row) {
    0 <= r.reserved <= r.quantity
  }

  predicate RowAccepted(r: Row) {
    FitsInt4(r.quantity) && FitsInt4(r.reserved) && FitsInt4(r.minThreshold) && ReservedLeQuantity(r)
  }

  /** The column `reference VARCHAR(255)`. */
  predicate MovementAccepted(m: Movement) {
    FitsInt4(m.quantity) && |m.reference| <= 255
  }

  // ---------- One transaction's decisions, on the row it has locked ----------

  predicate IsTransaction(op: Op) {
    op.Reserve? || op.Release? || op.Adjust?
  }

  function Refusal(op: Op, r: Row): Option<Error>
    requires IsTransaction(op)
  {
    match op
    case Reserve(_, q, _) => if r.Available() < q then Some(InsufficientStock) else None
    case Release(_, q, _) =>
      if r.reserved == 0 then Some(NothingToRelease)
      else if q > r.reserved then Some(ReleaseExceedsReserved)
      else None
    case Adjust(_, q, kind, _) =>
      match kind
      case Outbound => if r.Available() < q then Some(InsufficientStock) else None
      case Inbound => None
      case Adjustment => None
      case _ => Some(InvalidMovementType)
  }

  function Updated(op: Op, r: Row): Row
    requires IsTransaction(op)
  {
    match op
    case Reserve(_, q, _) => r.(reserved := r.reserved + q)
    case Release(_, q, _) => r.(reserved := r.reserved - q)
    case Adjust(_, q, kind, _) => r.(quantity := r.quantity + if kind == Outbound then -q else q)
  }

  function MovementOf(op: Op): Movement
    requires IsTransaction(op)
  {
    match op
    case Reserve(key, q, reference) => Movement(key, ReserveMove, q, reference)
    case Release(key, q, reference) => Movement(key, ReleaseMove, q, reference)
    case Adjust(key, q, kind, reference) => Movement(key, kind, q, reference)
  }

  // ---------- Whole operations, run alone ----------

  function Execute(db: Db, op: Op): (Db, Result) {
    match op
    case SetThreshold(key, threshold) =>
      if key !in db.rows then (db, Failed(StockNotFound))
      else
        var r := db.rows[key].(minThreshold := threshold);
        if RowAccepted(r) then (db.(rows := db.rows[key := r]), Done(r)) else (db, Failed(UpdateFailed))
    case GetOrCreate(key) =>
      if key in db.rows then (db, Done(db.rows[key]))
      else (db.(rows := db.rows[key := Row(0, 0, 0)]), Done(Row(0, 0, 0)))
    case _ =>
      if op.quantity <= 0 then (db, Failed(InvalidQuantity))
      else if op.key !in db.rows then (db, Failed(StockNotFound))
      else
        var refusal := Refusal(op, db.rows[op.key]);
        var r := Updated(op, db.rows[op.key]);
        if refusal.Some? then (db, Failed(refusal.value))
        else if !RowAccepted(r) then (db, Failed(UpdateFailed))
        else if !MovementAccepted(MovementOf(op)) then (db, Failed(InsertFailed))
        else (Db(db.rows[op.key := r], db.movements + [MovementOf(op)]), Done(r))
  }

  // ---------- What the movements of a row add up to ----------

  function QuantityFlow(m: Movement): int {
    match m.kind
    case Inbound => m.quantity
    case Adjustment => m.quantity
    case Outbound => -m.quantity
    case _ => 0
  }

  function ReservedFlow(m: Movement): int {
    match m.kind
    case ReserveMove => m.quantity
    case ReleaseMove => -m.quantity
    case _ => 0
  }

  /** inbound + adjustment - outbound over the row's movements. */
  function NetQuantity(ms: seq<Movement>, key: Key): int {
    if ms == [] then 0
    else
      var last := ms[|ms| - 1];
      NetQuantity(ms[..|ms| - 1], key) + if last.key == key then QuantityFlow(last) else 0
  }

  /** reserve - release over the row's movements. */
  function NetReserved(ms: seq<Movement>, key: Key): int {
    if ms == [] then 0
    else
      var last := ms[|ms| - 1];
      NetReserved(ms[..|ms| - 1], key) + if last.key == key then ReservedFlow(last) else 0
  }

  /** What a row held before its first movement; a row not yet created counts as empty. */
  function InitialQuantity(db: Db, key: Key): int {
    (if key in db.rows then db.rows[key].quantity else 0) - NetQuantity(db.movements, key)
  }

  function InitialReserved(db: Db, key: Key): int {
    (if key in db.rows then db.rows[key].reserved else 0) - NetReserved(db.movements, key)
  }

  /** Every row satisfies the column types and the constraint, and movements have positive
      quantities and belong to rows. */
  ghost predicate Consistent(db: Db) {
    && (forall key | key in db.rows :: RowAccepted(db.rows[key]))
    && (forall m | m in db.movements :: m.key in db.rows && m.quantity > 0 && MovementAccepted(m))
  }

  lemma NetSnoc(ms: seq<Movement>, m: Movement, key: Key)
    ensures NetQuantity(ms + [m], key) == NetQuantity(ms, key) + if m.key == key then QuantityFlow(m) else 0
    ensures NetReserved(ms + [m], key) == NetReserved(ms, key) + if m.key == key then ReservedFlow(m) else 0
  {
    assert (ms + [m])[..|ms|] == ms;
  }

  lemma ExecuteConsistent(db: Db, op: Op)
    requires Consistent(db)
    ensures Consistent(Execute(db, op).0)
  {
    var (after, result) := Execute(db, op);
    if result.Done? {
      forall key | key in after.rows
        ensures RowAccepted(after.rows[key])
      {
        if key != op.key { assert after.rows[key] == db.rows[key]; }
      }
    }
  }

  /** A row changes by what the movement records. */
  lemma UpdateFlows(op: Op, r: Row)
    requires IsTransaction(op)
    ensures MovementOf(op).key == op.key
    ensures Refusal(op, r).None? ==>
              && Updated(op, r).quantity == r.quantity + QuantityFlow(MovementOf(op))
              && Updated(op, r).reserved == r.reserved + ReservedFlow(MovementOf(op))
  {
  }

  /** Every operation keeps the books: 0 <= reserved <= quantity on every row, and every change of a
      row is a movement of the same amount, so that what it held initially never changes. */
  lemma ExecuteKeepsBooks(db: Db, op: Op, key: Key)
    requires Consistent(db)
    ensures Consistent(Execute(db, op).0)
    ensures InitialQuantity(Execute(db, op).0, key) == InitialQuantity(db, key)
    ensures InitialReserved(Execute(db, op).0, key) == InitialReserved(db, key)
  {
    ExecuteConsistent(db, op);
    hide Consistent, RowAccepted, MovementAccepted, NetQuantity, NetReserved, Updated, MovementOf, Refusal;
    hide QuantityFlow, ReservedFlow;
    if IsTransaction(op) {
      NetSnoc(db.movements, MovementOf(op), key);
      if op.key in db.rows {
        UpdateFlows(op, db.rows[op.key]);
      }
    }
  }

  /** A failed operation changes nothing; a successful one touches its own row only, leaves the
      threshold to `SetThreshold`, and appends exactly its movement. */
  lemma ExecuteFrame(db: Db, op: Op, other: Key)
    requires other != op.key
    ensures Execute(db, op).1.Failed? ==> Execute(db, op).0 == db
    ensures other in Execute(db, op).0.rows <==> other in db.rows
    ensures other in db.rows ==> Execute(db, op).0.rows[other] == db.rows[other]
    ensures Execute(db, op).1.Done? ==>
              && op.key in Execute(db, op).0.rows
              && Execute(db, op).0.rows[op.key] == Execute(db, op).1.row
              && Execute(db, op).0.movements == db.movements + if IsTransaction(op) then [MovementOf(op)] else []
    ensures Execute(db, op).1.Done? && !op.SetThreshold? && op.key in db.rows ==>
              Execute(db, op).1.row.minThreshold == db.rows[op.key].minThreshold
  {
    assert db.movements + [] == db.movements;
  }

  /** On a consistent row, an update that passes the checks of the code is rejected by the database
      for one reason only: the new quantity leaves the range of INT. The constraint never rejects. */
  lemma CheckNeverRejects(op: Op, r: Row)
    requires IsTransaction(op) && op.quantity > 0 && RowAccepted(r) && Refusal(op, r).None?
    ensures ReservedLeQuantity(Updated(op, r))
    ensures RowAccepted(Updated(op, r)) <==> FitsInt4(Updated(op, r).quantity)
  {
  }

  /** A release gives back exactly what a reservation took. */
  lemma ReleaseUndoesReserve(db: Db, key: Key, q: int, reference: string, reference': string)
    requires Consistent(db) && |reference'| <= 255
    requires Execute(db, Reserve(key, q, reference)).1.Done?
    ensures var (reserved, _) := Execute(db, Reserve(key, q, reference));
            var (released, result) := Execute(reserved, Release(key, q, reference'));
            result == Done(db.rows[key]) && released.rows == db.rows
  {
    var (reserved, _) := Execute(db, Reserve(key, q, reference));
    var (released, _) := Execute(reserved, Release(key, q, reference'));
    assert released.rows[key] == db.rows[key];
  }

  // ---------- When an operation succeeds, and with what ----------

  /** What is answered when a checked operation is carried out: a reference that does not fit its column is
      the last thing that can go wrong. */
  function Recorded(reference: string, row: Row): Result {
    if |reference| > 255 then Failed(InsertFailed) else Done(row)
  }

  /** A reservation succeeds exactly up to what is available. */
  lemma ReserveExactly(db: Db, key: Key, q: int, reference: string)
    requires Consistent(db)
    ensures Execute(db, Reserve(key, q, reference)).1 ==
            if q <= 0 then Failed(InvalidQuantity)
            else if key !in db.rows then Failed(StockNotFound)
            else
              var r := db.rows[key];
              if q <= r.quantity - r.reserved
              then Recorded(reference, Row(r.quantity, r.reserved + q, r.minThreshold))
              else Failed(InsufficientStock)
  {
  }

  /** A release succeeds exactly up to what is reserved. */
  lemma ReleaseExactly(db: Db, key: Key, q: int, reference: string)
    requires Consistent(db)
    ensures Execute(db, Release(key, q, reference)).1 ==
            if q <= 0 then Failed(InvalidQuantity)
            else if key !in db.rows then Failed(StockNotFound)
            else
              var r := db.rows[key];
              if q <= r.reserved then Recorded(reference, Row(r.quantity, r.reserved - q, r.minThreshold))
              else Failed(if r.reserved == 0 then NothingToRelease else ReleaseExceedsReserved)
  {
  }

  /** Stock goes out exactly up to what is available. */
  lemma OutboundExactly(db: Db, key: Key, q: int, reference: string)
    requires Consistent(db)
    ensures Execute(db, Adjust(key, q, Outbound, reference)).1 ==
            if q <= 0 then Failed(InvalidQuantity)
            else if key !in db.rows then Failed(StockNotFound)
            else
              var r := db.rows[key];
              if q <= r.quantity - r.reserved
              then Recorded(reference, Row(r.quantity - q, r.reserved, r.minThreshold))
              else Failed(InsufficientStock)
  {
  }

  /** Stock comes in, or is adjusted upwards, exactly as long as the quantity fits its column; no other
      type of movement can be named. */
  lemma InboundExactly(db: Db, key: Key, q: int, kind: MovementType, reference: string)
    requires Consistent(db) && kind != Outbound
    ensures Execute(db, Adjust(key, q, kind, reference)).1 ==
            if q <= 0 then Failed(InvalidQuantity)
            else if key !in db.rows then Failed(StockNotFound)
            else if kind != Inbound && kind != Adjustment then Failed(InvalidMovementType)
            else
              var r := db.rows[key];
              if r.quantity + q < 0x8000_0000
              then Recorded(reference, Row(r.quantity + q, r.reserved, r.minThreshold))
              else Failed(UpdateFailed)
  {
  }

  /** The threshold can be any number that fits; asking for a row never fails. */
  lemma OthersExactly(db: Db, key: Key, threshold: int)
    requires Consistent(db)
    ensures Execute(db, SetThreshold(key, threshold)).1 ==
            if key !in db.rows then Failed(StockNotFound)
            else if -0x8000_0000 <= threshold < 0x8000_0000
            then Done(Row(db.rows[key].quantity, db.rows[key].reserved, threshold))
            else Failed(UpdateFailed)
    ensures Execute(db, GetOrCreate(key)).1 == Done(if key in db.rows then db.rows[key] else Row(0, 0, 0))
  {
  }

  // ---------- The operations, statement by statement ----------

  class StockStorage {
    var rows: map<Key, Row>
    var movements: seq<Movement>

    function Contents(): Db
      reads this
    {
      Db(rows, movements)
    }

    constructor ()
      ensures Contents() == Db(map[], [])
    {
      rows := map[];
      movements := [];
    }

    method ReserveStock(key: Key, quantity: int, reference: string) returns (result: Result)
      modifies this
      ensures (Contents(), result) == Execute(old(Contents()), Reserve(key, quantity, reference))
    {
      if quantity <= 0 {
        return Failed(InvalidQuantity);
      }
      if key !in rows {
        return Failed(StockNotFound);
      }
      var st := rows[key];
      if st.quantity - st.reserved < quantity {
        return Failed(InsufficientStock);
      }
      st := st.(reserved := st.reserved + quantity);
      result := UpdateAndRecord(st, Movement(key, ReserveMove, quantity, reference));
    }

    method ReleaseStock(key: Key, quantity: int, reference: string) returns (result: Result)
      modifies this
      ensures (Contents(), result) == Execute(old(Contents()), Release(key, quantity, reference))
    {
      if quantity <= 0 {
        return Failed(InvalidQuantity);
      }
      if key !in rows {
        return Failed(StockNotFound);
      }
      var st := rows[key];
      if st.reserved == 0 {
        return Failed(NothingToRelease);
      }
      if quantity > st.reserved {
        return Failed(ReleaseExceedsReserved);
      }
      st := st.(reserved := st.reserved - quantity);
      result := UpdateAndRecord(st, Movement(key, ReleaseMove, quantity, reference));
    }

    method AdjustStock(key: Key, quantity: int, kind: MovementType, reference: string) returns (result: Result)
      modifies this
      ensures (Contents(), result) == Execute(old(Contents()), Adjust(key, quantity, kind, reference))
    {
      if quantity <= 0 {
        return Failed(InvalidQuantity);
      }
      if key !in rows {
        return Failed(StockNotFound);
      }
      var st := rows[key];
      var delta := 0;
      match kind {
        case Outbound =>
          if st.quantity - st.reserved < quantity {
            return Failed(InsufficientStock);
          }
          delta := -quantity;
        case Inbound => delta := quantity;
        case Adjustment => delta := quantity;
        case _ => return Failed(InvalidMovementType);
      }
      st := st.(quantity := st.quantity + delta);
      result := UpdateAndRecord(st, Movement(key, kind, quantity, reference));
    }

    /** UPDATE, INSERT and COMMIT; an error in either statement rolls both back. */
    method UpdateAndRecord(st: Row, movement: Movement) returns (result: Result)
      requires movement.key in rows
      modifies this
      ensures result ==
              if !RowAccepted(st) then Failed(UpdateFailed)
              else if !MovementAccepted(movement) then Failed(InsertFailed)
              else Done(st)
      ensures Contents() ==
              if result.Done? then Db(old(rows)[movement.key := st], old(movements) + [movement]) else old(Contents())
    {
      var before := rows;
      if !RowAccepted(st) {
        return Failed(UpdateFailed);
      }
      rows := rows[movement.key := st];
      if !MovementAccepted(movement) {
        rows := before;
        return Failed(InsertFailed);
      }
      movements := movements + [movement];
      result := Done(st);
    }

    method UpdateMinThreshold(key: Key, threshold: int) returns (result: Result)
      modifies this
      ensures (Contents(), result) == Execute(old(Contents()), SetThreshold(key, threshold))
    {
      if key !in rows {
        return Failed(StockNotFound);
      }
      var st := rows[key].(minThreshold := threshold);
      if !RowAccepted(st) {
        return Failed(UpdateFailed);
      }
      rows := rows[key := st];
      result := Done(st);
    }

    method GetOrCreateStock(key: Key) returns (result: Result)
      modifies this
      ensures (Contents(), result) == Execute(old(Contents()), GetOrCreate(key))
    {
      if key in rows {
        return Done(rows[key]);
      }
      rows := rows[key := Row(0, 0, 0)];
      result := Done(rows[key]);
    }
  }
}
