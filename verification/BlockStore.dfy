/** The two tables the payment pipeline writes, and the database-visible steps
    of processing one block (services/manager/internal/scanner/scanner.go). */
module BlockStore {
  import opened Prelude
  import opened Payout

  /** A row of p2pool_blocks; the indexer inserts it with "" and 0. */
  datatype Row = Row(hash: string, reward: uint64)

  /** One committed insert transaction on the payments table. */
  datatype Batch = Batch(height: nat, payments: seq<Payment>)

  datatype Db = Db(blocks: map<nat, Row>, ledger: seq<Batch>)

  /** The row lacks its hash or its reward: recovery looks for it, the backfill
      fills it. */
  predicate Unprocessed(r: Row) {
    r.hash == "" || r.reward == 0
  }

  function UnprocessedHeights(db: Db): set<nat> {
    set h | h in db.blocks && Unprocessed(db.blocks[h])
  }

  predicate Paid(db: Db, h: nat) {
    exists i :: 0 <= i < |db.ledger| && db.ledger[i].height == h
  }

  /** The indexer's insert: a row that is there stays as it is. */
  function IndexBlock(db: Db, h: nat): Db {
    if h in db.blocks then db else db.(blocks := db.blocks[h := Row("", 0)])
  }

  /** The scanner's update: only a row that still lacks hash or reward is filled. */
  function Backfill(db: Db, h: nat, hash: string, reward: uint64): Db {
    if h in db.blocks && Unprocessed(db.blocks[h]) then db.(blocks := db.blocks[h := Row(hash, reward)]) else db
  }

  // Answers of monerod and of the database; any of them may be an error.
  datatype BlockAnswer = BlockError | Orphan | Block(hash: string, reward: uint64)
  datatype TxAnswer = TxError | Tx(vin: seq<Option<nat>>)
  datatype RateAnswer = RateError | Rates(order: seq<Address>, miners: map<Address, uint64>, total: uint64)

  ghost predicate ValidRates(r: RateAnswer) {
    r.Rates? ==> IsOrder(r.order, r.miners.Keys)
  }

  /** Where processBlock stands between two statements that touch shared rows. */
  datatype Stage = AtExists | AtBackfill | AtExtract(hash: string) | AtRecord(payments: seq<Payment>)
  datatype Next = Continue(stage: Stage) | Return(ok: bool)

  /** The existence check: an unknown height is skipped with success. */
  function AfterExists(db: Db, h: nat, readOk: bool): Next {
    if !readOk then Return(false)
    else if h !in db.blocks then Return(true)
    else Continue(AtBackfill)
  }

  /** GetBlock and the backfill; a failing update is only logged. */
  function AfterBlock(db: Db, h: nat, answer: BlockAnswer, updateOk: bool): (Db, Next) {
    match answer
    case BlockError => (db, Return(false))
    case Orphan => (db, Return(true))
    case Block(hash, reward) =>
      (if updateOk then Backfill(db, h, hash, reward) else db, Continue(AtExtract(hash)))
  }

  /** A coinbase transaction has one input, generated at this very height. */
  predicate IsCoinbase(vin: seq<Option<nat>>, h: nat) {
    |vin| == 1 && vin[0] == Some(h)
  }

  /** The sweep guard and the extraction of payments. */
  function AfterExtract(db: Db, h: nat, hash: string, tx: TxAnswer, rates: RateAnswer): Next
    requires rates.Rates? ==> forall a | a in rates.order :: a in rates.miners
  {
    if tx.TxError? then Return(false)
    else if !IsCoinbase(tx.vin, h) then Return(true)
    else if h !in db.blocks || rates.RateError? then Return(false)
    else
      var payments := PaymentsFor(rates.order, rates.miners, db.blocks[h].reward, rates.total, h, hash);
      if payments == [] then Return(true) else Continue(AtRecord(payments))
  }

  /** The insert transaction: all rows or none. */
  function AfterRecord(db: Db, h: nat, payments: seq<Payment>, commitOk: bool): (Db, Next) {
    if commitOk then (db.(ledger := db.ledger + [Batch(h, payments)]), Return(true))
    else (db, Return(false))
  }

  /** Everything the outside world answers while one block is processed. */
  datatype Answers = Answers(readOk: bool, block: BlockAnswer, updateOk: bool,
                             tx: TxAnswer, rates: RateAnswer, failedInserts: set<nat>, commitOk: bool)

  /** Does the insert transaction for these payments go through? */
  predicate WriteOk(a: Answers, payments: seq<Payment>) {
    a.commitOk && forall i | 0 <= i < |payments| :: i !in a.failedInserts
  }

  /** processBlock run without interference, from a given stage. */
  function ProcessFrom(db: Db, h: nat, stage: Stage, a: Answers): (Db, bool)
    requires ValidRates(a.rates)
    decreases match stage case AtExists => 3 case AtBackfill => 2 case AtExtract(_) => 1 case AtRecord(_) => 0
  {
    match stage
    case AtExists =>
      (match AfterExists(db, h, a.readOk)
       case Return(ok) => (db, ok)
       case Continue(_) => ProcessFrom(db, h, AtBackfill, a))
    case AtBackfill =>
      var (db', next) := AfterBlock(db, h, a.block, a.updateOk);
      (match next
       case Return(ok) => (db', ok)
       case Continue(_) => ProcessFrom(db', h, AtExtract(a.block.hash), a))
    case AtExtract(hash) =>
      (match AfterExtract(db, h, hash, a.tx, a.rates)
       case Return(ok) => (db, ok)
       case Continue(s) => ProcessFrom(db, h, AtRecord(s.payments), a))
    case AtRecord(payments) =>
      var (db', next) := AfterRecord(db, h, payments, WriteOk(a, payments));
      (db', next == Return(true))
  }
}
