/** Concurrent transactions on the stock table: each operation of StockLedger as the statements it
    sends, with the row lock of SELECT ... FOR UPDATE, interleaved in any order, with a commit or a
    rollback at any point. The committed state is that of the committed operations run one by one
    in the order of their commits. */
module StockTransactions {
  import opened Options
  import opened StockLedger

  type TxId = nat

  /** How far a transaction has come. `read` is the row SELECT ... FOR UPDATE returned. */
  datatype Stage =
    | Begun
    | Locked(read: Row)
    | Checked(read: Row)
    | RowUpdated(read: Row, pending: Row)
    | Recorded(read: Row, pending: Row, movement: Movement)

  datatype Tx = Tx(op: Op, stage: Stage)

  /** `log` is the history of committed operations; it is not stored anywhere. */
  datatype State = State(db: Db, locks: map<Key, TxId>, active: map<TxId, Tx>, log: seq<Op>)

  datatype Step =
    | Begin(tx: TxId, op: Op)
    | Lock(tx: TxId)
    | Check(tx: TxId)
    | Update(tx: TxId)
    | Record(tx: TxId)
    | Commit(tx: TxId)
    | Rollback(tx: TxId)
    | Autocommit(op: Op)       // a statement that is a transaction of its own

  function Start(db: Db): State {
    State(db, map[], map[], [])
  }

  /** When a step can be taken. A statement that fails leaves only `Rollback`; one that must wait
      for a lock is not enabled. */
  predicate Enabled(s: State, step: Step) {
    match step
    case Begin(tx, op) => tx !in s.active && IsTransaction(op) && op.quantity > 0
    case Lock(tx) =>
      tx in s.active && s.active[tx].stage.Begun?
      && s.active[tx].op.key in s.db.rows && s.active[tx].op.key !in s.locks
    case Check(tx) =>
      tx in s.active && s.active[tx].stage.Locked? && IsTransaction(s.active[tx].op)
      && Refusal(s.active[tx].op, s.active[tx].stage.read).None?
    case Update(tx) =>
      tx in s.active && s.active[tx].stage.Checked? && IsTransaction(s.active[tx].op)
      && s.active[tx].op.key in s.db.rows
      && RowAccepted(Updated(s.active[tx].op, s.db.rows[s.active[tx].op.key]))
    case Record(tx) =>
      tx in s.active && s.active[tx].stage.RowUpdated? && IsTransaction(s.active[tx].op)
      && MovementAccepted(MovementOf(s.active[tx].op))
    case Commit(tx) => tx in s.active && s.active[tx].stage.Recorded?
    case Rollback(tx) => tx in s.active
    case Autocommit(op) => !IsTransaction(op) && op.key !in s.locks && Execute(s.db, op).1.Done?
  }

  function SetStage(s: State, tx: TxId, stage: Stage): State
    requires tx in s.active
  {
    s.(active := s.active[tx := s.active[tx].(stage := stage)])
  }

  /** Ending a transaction releases its lock. */
  function End(s: State, tx: TxId): State
    requires tx in s.active
  {
    s.(active := s.active - {tx}, locks := map key | key in s.locks && s.locks[key] != tx :: s.locks[key])
  }

  /** UPDATE computes from the row as it is in the table, not from the row that was read. */
  function Do(s: State, step: Step): State
    requires Enabled(s, step)
  {
    match step
    case Begin(tx, op) => s.(active := s.active[tx := Tx(op, Begun)])
    case Lock(tx) =>
      var key := s.active[tx].op.key;
      SetStage(s.(locks := s.locks[key := tx]), tx, Locked(s.db.rows[key]))
    case Check(tx) => SetStage(s, tx, Checked(s.active[tx].stage.read))
    case Update(tx) =>
      var t := s.active[tx];
      SetStage(s, tx, RowUpdated(t.stage.read, Updated(t.op, s.db.rows[t.op.key])))
    case Record(tx) =>
      var t := s.active[tx];
      SetStage(s, tx, Recorded(t.stage.read, t.stage.pending, MovementOf(t.op)))
    case Commit(tx) =>
      var t := s.active[tx];
      End(s, tx).(db := Db(s.db.rows[t.op.key := t.stage.pending], s.db.movements + [t.stage.movement]),
                  log := s.log + [t.op])
    case Rollback(tx) => End(s, tx)
    case Autocommit(op) => s.(db := Execute(s.db, op).0, log := s.log + [op])
  }

  /** The state after the steps, or None if some step could not be taken. */
  function Run(s: State, steps: seq<Step>): Option<State>
    decreases |steps|
  {
    if steps == [] then Some(s)
    else if !Enabled(s, steps[0]) then None
    else Run(Do(s, steps[0]), steps[1..])
  }

  /** The operations run alone, one after the other. */
  function Serial(db: Db, ops: seq<Op>): Db {
    if ops == [] then db else Execute(Serial(db, ops[..|ops| - 1]), ops[|ops| - 1]).0
  }

  /** Every one of them succeeds there. */
  predicate AllSucceed(db: Db, ops: seq<Op>) {
    ops == [] ||
    (AllSucceed(db, ops[..|ops| - 1]) && Execute(Serial(db, ops[..|ops| - 1]), ops[|ops| - 1]).1.Done?)
  }

  lemma SerialSnoc(db: Db, ops: seq<Op>, op: Op)
    ensures Serial(db, ops + [op]) == Execute(Serial(db, ops), op).0
    ensures AllSucceed(db, ops + [op]) <==> AllSucceed(db, ops) && Execute(Serial(db, ops), op).1.Done?
  {
    assert (ops + [op])[..|ops|] == ops;
  }

  // ---------- What every step keeps ----------

  /** A transaction past its lock holds it, has read the row that is in the table, and every later
      stage is what the code computes from that row. */
  predicate TxInv(s: State, tx: TxId)
    requires tx in s.active
  {
    var t := s.active[tx];
    && IsTransaction(t.op) && t.op.quantity > 0
    && (!t.stage.Begun? ==>
          && t.op.key in s.locks && s.locks[t.op.key] == tx
          && t.op.key in s.db.rows && t.stage.read == s.db.rows[t.op.key])
    && (!t.stage.Begun? && !t.stage.Locked? ==> Refusal(t.op, t.stage.read).None?)
    && (t.stage.RowUpdated? || t.stage.Recorded? ==>
          t.stage.pending == Updated(t.op, t.stage.read) && RowAccepted(t.stage.pending))
    && (t.stage.Recorded? ==> t.stage.movement == MovementOf(t.op) && MovementAccepted(t.stage.movement))
  }

  /** Every lock belongs to a live transaction on that row. */
  predicate LocksInv(s: State) {
    forall key | key in s.locks ::
      s.locks[key] in s.active && s.active[s.locks[key]].op.key == key && !s.active[s.locks[key]].stage.Begun?
  }

  ghost predicate Inv(db0: Db, s: State) {
    && (forall tx | tx in s.active :: TxInv(s, tx))
    && LocksInv(s)
    && s.db == Serial(db0, s.log) && AllSucceed(db0, s.log)
  }

  /** What a commit publishes is what the operation does when run alone on the state before it. */
  lemma CommitIsExecute(s: State, tx: TxId)
    requires Enabled(s, Commit(tx)) && TxInv(s, tx)
    ensures Execute(s.db, s.active[tx].op) == (Do(s, Commit(tx)).db, Done(s.active[tx].stage.pending))
  {
  }

  /** A transaction's own step. */
  lemma OwnStepKeepsTxInv(s: State, step: Step, tx: TxId)
    requires !step.Autocommit? && tx == step.tx && (tx in s.active ==> TxInv(s, tx))
    requires Enabled(s, step) && tx in Do(s, step).active
    ensures TxInv(Do(s, step), tx)
  {
    hide Refusal, Updated, MovementOf, RowAccepted, MovementAccepted;
  }

  /** Another transaction's step: its lock is on another row. */
  lemma OtherStepKeepsTxInv(s: State, step: Step, tx: TxId)
    requires !step.Autocommit? && tx != step.tx && tx in s.active && TxInv(s, tx)
    requires (step.tx in s.active ==> TxInv(s, step.tx)) && LocksInv(s)
    requires Enabled(s, step) && tx in Do(s, step).active
    ensures TxInv(Do(s, step), tx)
  {
    hide Refusal, Updated, MovementOf, RowAccepted, MovementAccepted;
  }

  lemma StepKeepsTxInv(s: State, step: Step, tx: TxId)
    requires (forall t | t in s.active :: TxInv(s, t)) && LocksInv(s)
    requires Enabled(s, step) && tx in Do(s, step).active
    ensures TxInv(Do(s, step), tx)
  {
    if step.Autocommit? {
      if step.op.key != s.active[tx].op.key {
        ExecuteFrame(s.db, step.op, s.active[tx].op.key);
      }
    } else {
      hide TxInv, LocksInv;
      if tx == step.tx {
        OwnStepKeepsTxInv(s, step, tx);
      } else {
        OtherStepKeepsTxInv(s, step, tx);
      }
    }
  }

  lemma StepKeepsLocksInv(s: State, step: Step)
    requires (forall t | t in s.active :: TxInv(s, t)) && LocksInv(s)
    requires Enabled(s, step)
    ensures LocksInv(Do(s, step))
  {
  }

  lemma StepKeepsInv(db0: Db, s: State, step: Step)
    requires Inv(db0, s) && Enabled(s, step)
    ensures Inv(db0, Do(s, step))
  {
    forall tx | tx in Do(s, step).active
      ensures TxInv(Do(s, step), tx)
    {
      StepKeepsTxInv(s, step, tx);
    }
    StepKeepsLocksInv(s, step);
    if step.Commit? {
      CommitIsExecute(s, step.tx);
      SerialSnoc(db0, s.log, s.active[step.tx].op);
    } else if step.Autocommit? {
      SerialSnoc(db0, s.log, step.op);
    }
  }

  lemma {:induction false} RunKeepsInv(db0: Db, s: State, steps: seq<Step>)
    requires Inv(db0, s) && Run(s, steps).Some?
    ensures Inv(db0, Run(s, steps).value)
    decreases |steps|
  {
    if steps != [] {
      StepKeepsInv(db0, s, steps[0]);
      RunKeepsInv(db0, Do(s, steps[0]), steps[1..]);
    }
  }

  // ---------- Main results ----------

  /** Serializability: however the transactions interleave and wherever they are rolled back, the
      committed rows and movements are those of the committed operations run alone in commit
      order, and there, too, every one of them succeeds. */
  lemma Serializable(db0: Db, steps: seq<Step>)
    requires Run(Start(db0), steps).Some?
    ensures var s := Run(Start(db0), steps).value;
            s.db == Serial(db0, s.log) && AllSucceed(db0, s.log)
  {
    RunKeepsInv(db0, Start(db0), steps);
  }

  lemma {:induction false} SerialKeepsBooks(db0: Db, ops: seq<Op>, key: Key)
    requires Consistent(db0)
    ensures Consistent(Serial(db0, ops))
    ensures InitialQuantity(Serial(db0, ops), key) == InitialQuantity(db0, key)
    ensures InitialReserved(Serial(db0, ops), key) == InitialReserved(db0, key)
  {
    if ops != [] {
      SerialKeepsBooks(db0, ops[..|ops| - 1], key);
      ExecuteKeepsBooks(Serial(db0, ops[..|ops| - 1]), ops[|ops| - 1], key);
    }
  }

  /** In every reachable committed state 0 <= reserved <= quantity on every row; the quantity is the
      initial one plus inbound plus adjustment minus outbound, and the reserved amount the initial
      one plus reserve minus release, over the row's movements. */
  lemma BooksBalance(db0: Db, steps: seq<Step>, key: Key)
    requires Consistent(db0) && Run(Start(db0), steps).Some?
    requires key in Run(Start(db0), steps).value.db.rows
    ensures var db := Run(Start(db0), steps).value.db;
            && 0 <= db.rows[key].reserved <= db.rows[key].quantity
            && db.rows[key].quantity == InitialQuantity(db0, key) + NetQuantity(db.movements, key)
            && db.rows[key].reserved == InitialReserved(db0, key) + NetReserved(db.movements, key)
  {
    Serializable(db0, steps);
    SerialKeepsBooks(db0, Run(Start(db0), steps).value.log, key);
  }

  /** In every reachable state, a transaction that has passed its checks can update its row unless
      the new quantity leaves the range of INT: the constraint chk_reserved_le_quantity never stands
      in its way, whatever the others have done since it read the row. */
  lemma ConstraintNeverRejects(db0: Db, steps: seq<Step>, tx: TxId)
    requires Consistent(db0) && Run(Start(db0), steps).Some?
    requires var s := Run(Start(db0), steps).value; tx in s.active && s.active[tx].stage.Checked?
    ensures var s := Run(Start(db0), steps).value;
            var op := s.active[tx].op;
            && IsTransaction(op) && op.key in s.db.rows
            && ReservedLeQuantity(Updated(op, s.db.rows[op.key]))
            && (Enabled(s, Update(tx)) <==> FitsInt4(Updated(op, s.db.rows[op.key]).quantity))
  {
    var s := Run(Start(db0), steps).value;
    RunKeepsInv(db0, Start(db0), steps);
    assert TxInv(s, tx);
    SerialKeepsBooks(db0, s.log, s.active[tx].op.key);
    CheckNeverRejects(s.active[tx].op, s.db.rows[s.active[tx].op.key]);
  }

  // ---------- Progress ----------

  function AllSteps(tx: TxId, op: Op): seq<Step> {
    [Begin(tx, op), Lock(tx), Check(tx), Update(tx), Record(tx), Commit(tx)]
  }

  predicate StepsTo(s: State, step: Step, after: State) {
    Enabled(s, step) && Do(s, step) == after
  }

  lemma SixSteps(s: State, s1: State, s2: State, s3: State, s4: State, s5: State, s6: State, tx: TxId, op: Op)
    requires StepsTo(s, Begin(tx, op), s1) && StepsTo(s1, Lock(tx), s2) && StepsTo(s2, Check(tx), s3)
    requires StepsTo(s3, Update(tx), s4) && StepsTo(s4, Record(tx), s5) && StepsTo(s5, Commit(tx), s6)
    ensures Run(s, AllSteps(tx, op)) == Some(s6)
  {
    var steps := AllSteps(tx, op);
    hide Do, Enabled;
    assert Run(s5, steps[5..]) == Some(s6);
    assert Run(s4, steps[4..]) == Run(s5, steps[5..]);
    assert Run(s3, steps[3..]) == Run(s4, steps[4..]);
    assert Run(s2, steps[2..]) == Run(s3, steps[3..]);
    assert Run(s1, steps[1..]) == Run(s2, steps[2..]);
  }

  lemma SucceedsAlone(db: Db, op: Op)
    requires IsTransaction(op) && Execute(db, op).1.Done?
    ensures op.quantity > 0 && op.key in db.rows && Refusal(op, db.rows[op.key]).None?
    ensures RowAccepted(Updated(op, db.rows[op.key])) && MovementAccepted(MovementOf(op))
    ensures Execute(db, op).0 ==
            Db(db.rows[op.key := Updated(op, db.rows[op.key])], db.movements + [MovementOf(op)])
  {
  }

  /** The state with a transaction that holds its row. */
  function Holding(s: State, tx: TxId, op: Op, stage: Stage): State {
    s.(active := s.active[tx := Tx(op, stage)], locks := s.locks[op.key := tx])
  }

  lemma FirstSteps(s: State, tx: TxId, op: Op)
    requires tx !in s.active && IsTransaction(op) && op.quantity > 0 && op.key in s.db.rows && op.key !in s.locks
    ensures var begun := s.(active := s.active[tx := Tx(op, Begun)]);
            && StepsTo(s, Begin(tx, op), begun)
            && StepsTo(begun, Lock(tx), Holding(s, tx, op, Locked(s.db.rows[op.key])))
  {
    hide Refusal, Updated, MovementOf, RowAccepted, MovementAccepted, Execute;
    var begun := s.(active := s.active[tx := Tx(op, Begun)]);
    var locked := Tx(op, Locked(s.db.rows[op.key]));
    assert begun.active[tx := locked] == s.active[tx := locked];
  }

  lemma HoldingOn(s: State, tx: TxId, op: Op, stage: Stage, next: Stage)
    ensures var held := Holding(s, tx, op, stage);
            && tx in held.active && held.active[tx] == Tx(op, stage) && held.db == s.db
            && SetStage(held, tx, next) == Holding(s, tx, op, next)
  {
    assert s.active[tx := Tx(op, stage)][tx := Tx(op, next)] == s.active[tx := Tx(op, next)];
  }

  lemma MiddleSteps(s: State, tx: TxId, op: Op, row: Row, pending: Row)
    requires IsTransaction(op) && op.key in s.db.rows && s.db.rows[op.key] == row && Refusal(op, row).None?
    requires pending == Updated(op, row) && RowAccepted(pending) && MovementAccepted(MovementOf(op))
    ensures StepsTo(Holding(s, tx, op, Locked(row)), Check(tx), Holding(s, tx, op, Checked(row)))
    ensures StepsTo(Holding(s, tx, op, Checked(row)), Update(tx), Holding(s, tx, op, RowUpdated(row, pending)))
    ensures StepsTo(Holding(s, tx, op, RowUpdated(row, pending)), Record(tx),
                    Holding(s, tx, op, Recorded(row, pending, MovementOf(op))))
  {
    hide Refusal, Updated, MovementOf, RowAccepted, MovementAccepted, Execute, SetStage, Holding;
    HoldingOn(s, tx, op, Locked(row), Checked(row));
    HoldingOn(s, tx, op, Checked(row), RowUpdated(row, pending));
    HoldingOn(s, tx, op, RowUpdated(row, pending), Recorded(row, pending, MovementOf(op)));
  }

  lemma LastStep(s: State, tx: TxId, op: Op, row: Row, pending: Row, m: Movement)
    requires tx !in s.active && op.key !in s.locks && forall key | key in s.locks :: s.locks[key] in s.active
    ensures StepsTo(Holding(s, tx, op, Recorded(row, pending, m)), Commit(tx),
                    s.(db := Db(s.db.rows[op.key := pending], s.db.movements + [m]), log := s.log + [op]))
  {
    hide Refusal, Updated, MovementOf, RowAccepted, MovementAccepted, Execute;
    var held := Holding(s, tx, op, Recorded(row, pending, m));
    assert held.active - {tx} == s.active;
    assert End(held, tx).locks == s.locks;
  }

  /** In every reachable state, whatever the others are at: an operation whose row is not locked can be run
      to its commit if it would succeed alone, and then does just that; the others stay where they are. */
  lemma CanCommit(db0: Db, s: State, tx: TxId, op: Op)
    requires Inv(db0, s)
    requires tx !in s.active && IsTransaction(op) && op.key !in s.locks && Execute(s.db, op).1.Done?
    ensures Run(s, AllSteps(tx, op)) == Some(State(Execute(s.db, op).0, s.locks, s.active, s.log + [op]))
  {
    SucceedsAlone(s.db, op);
    assert forall key | key in s.locks :: s.locks[key] in s.active;
    hide *;
    var row, m := s.db.rows[op.key], MovementOf(op);
    var pending := Updated(op, row);
    FirstSteps(s, tx, op);
    MiddleSteps(s, tx, op, row, pending);
    LastStep(s, tx, op, row, pending, m);
    SixSteps(s, s.(active := s.active[tx := Tx(op, Begun)]), Holding(s, tx, op, Locked(row)),
             Holding(s, tx, op, Checked(row)), Holding(s, tx, op, RowUpdated(row, pending)),
             Holding(s, tx, op, Recorded(row, pending, m)),
             s.(db := Db(s.db.rows[op.key := pending], s.db.movements + [m]), log := s.log + [op]), tx, op);
  }

  /** A transaction can be rolled back at any point; that changes nothing and frees its row. */
  lemma CanRollBack(s: State, tx: TxId)
    requires tx in s.active
    ensures Enabled(s, Rollback(tx))
    ensures var after := Do(s, Rollback(tx));
            && after.db == s.db && after.log == s.log && after.active == s.active - {tx}
            && forall key :: key in after.locks <==> key in s.locks && s.locks[key] != tx
  {
  }

  /** No transaction stands in another's way, except by taking the lock that the other was about to take. */
  lemma OthersDoNotBlock(db0: Db, s: State, step: Step, other: Step)
    requires Inv(db0, s) && Enabled(s, step) && Enabled(s, other)
    requires !step.Autocommit? && !other.Autocommit? && step.tx != other.tx
    requires step.Lock? && other.Lock? ==> s.active[step.tx].op.key != s.active[other.tx].op.key
    ensures Enabled(Do(s, step), other)
  {
    if step.Commit? {
      assert TxInv(s, step.tx);
      if other.Update? {
        assert TxInv(s, other.tx);
      }
    }
  }
}
