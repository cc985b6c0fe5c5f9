/** The coinbase scanner object, run by one goroutine at a time
    (services/manager/internal/scanner/scanner.go). */
module CoinbaseScanner {
  import opened Prelude
  import opened Payout
  import opened BlockStore
  import opened ScannerMachine

  /** What the world answers for each height. */
  type World = nat -> Answers

  ghost predicate ValidWorld(world: World) {
    forall h: nat :: ValidRates(world(h).rates)
  }

  ghost function Outcome(db: Db, h: nat, world: World): (Db, bool)
    requires ValidWorld(world)
  {
    ProcessFrom(db, h, AtExists, world(h))
  }

  /** The database after a list of blocks, one after the other. */
  ghost function ProcessAll(db: Db, order: seq<nat>, world: World): Db
    requires ValidWorld(world)
  {
    if order == [] then db
    else Outcome(ProcessAll(db, order[..|order| - 1], world), order[|order| - 1], world).0
  }

  ghost function Succeeds(db: Db, order: seq<nat>, i: nat, world: World): bool
    requires ValidWorld(world) && i < |order|
  {
    Outcome(ProcessAll(db, order[..i], world), order[i], world).1
  }

  /** The blocks of the list that were processed without error, in order. */
  ghost function Successes(db: Db, order: seq<nat>, world: World): seq<nat>
    requires ValidWorld(world)
  {
    if order == [] then [] else
      var n := |order| - 1;
      Successes(db, order[..n], world) + (if Succeeds(db, order, n, world) then [order[n]] else [])
  }

  ghost function Failures(db: Db, order: seq<nat>, world: World): set<nat>
    requires ValidWorld(world)
  {
    if order == [] then {} else
      var n := |order| - 1;
      Failures(db, order[..n], world) + (if Succeeds(db, order, n, world) then {} else {order[n]})
  }

  type Depth = d: nat | 0 < d witness 1

  class Scanner {
    const confirmDepth: Depth
    var pendingBlocks: set<nat>
    var db: Db
    ghost var processed: seq<nat>  // heights processed without error, in order

    constructor (db: Db, confirmDepth: nat)
      ensures this.confirmDepth == (if confirmDepth == 0 then 10 else confirmDepth)
      ensures pendingBlocks == {} && processed == [] && this.db == db
    {
      this.confirmDepth := if confirmDepth == 0 then 10 else confirmDepth;
      pendingBlocks := {};
      this.db := db;
      processed := [];
    }

    /** Inserts the rows in one transaction: a failing insert or commit leaves
        the ledger as it was. */
    method RecordPayments(height: nat, payments: seq<Payment>, a: Answers) returns (ok: bool)
      modifies this`db
      ensures ok == WriteOk(a, payments)
      ensures db == AfterRecord(old(db), height, payments, ok).0
    {
      var rows: seq<Payment> := [];
      var i := 0;
      while i < |payments|
        invariant 0 <= i <= |payments| && rows == payments[..i]
        invariant forall j | 0 <= j < i :: j !in a.failedInserts
      {
        if i in a.failedInserts {
          return false;
        }
        rows := rows + [payments[i]];
        i := i + 1;
      }
      if !a.commitOk {
        return false;
      }
      assert rows == payments;
      db := db.(ledger := db.ledger + [Batch(height, rows)]);
      return true;
    }

    method ProcessBlock(height: nat, a: Answers) returns (ok: bool)
      requires ValidRates(a.rates)
      modifies this`db
      ensures (db, ok) == ProcessFrom(old(db), height, AtExists, a)
    {
      if !a.readOk {
        return false;
      }
      if height !in db.blocks {
        return true;
      }
      if a.block.BlockError? {
        return false;
      }
      if a.block.Orphan? {
        return true;
      }
      if a.updateOk && Unprocessed(db.blocks[height]) {
        db := db.(blocks := db.blocks[height := Row(a.block.hash, a.block.reward)]);
      }
      ghost var filled := db;
      assert (filled, Continue(AtExtract(a.block.hash))) == AfterBlock(old(db), height, a.block, a.updateOk);
      if a.tx.TxError? {
        return false;
      }
      if |a.tx.vin| != 1 || a.tx.vin[0].None? {
        return true;
      }
      if a.tx.vin[0].value != height {
        return true;
      }
      if a.rates.RateError? {
        return false;
      }
      var payments := Payout.ExtractPayments(a.rates.order, a.rates.miners, db.blocks[height].reward,
                                             a.rates.total, height, a.block.hash);
      if |payments| == 0 {
        return true;
      }
      ok := RecordPayments(height, payments, a);
    }

    /** Takes every pending height that is deep enough, then processes them one
        by one; those that fail go back. */
    method CheckConfirmations(currentHeight: nat, world: World) returns (confirmed: seq<nat>)
      requires ValidWorld(world)
      modifies this
      ensures IsOrder(confirmed, Confirmed(old(pendingBlocks), currentHeight, confirmDepth))
      ensures db == ProcessAll(old(db), confirmed, world)
      ensures processed == old(processed) + Successes(old(db), confirmed, world)
      ensures pendingBlocks == old(pendingBlocks) - Confirmed(old(pendingBlocks), currentHeight, confirmDepth)
                               + Failures(old(db), confirmed, world)
    {
      confirmed := Collect(currentHeight);
      TakeOut(confirmed);
      var i := 0;
      while i < |confirmed|
        invariant 0 <= i <= |confirmed|
        invariant db == ProcessAll(old(db), confirmed[..i], world)
        invariant processed == old(processed) + Successes(old(db), confirmed[..i], world)
        invariant pendingBlocks == old(pendingBlocks) - Confirmed(old(pendingBlocks), currentHeight, confirmDepth)
                                   + Failures(old(db), confirmed[..i], world)
      {
        assert confirmed[..i + 1][..i] == confirmed[..i];
        var ok := ProcessBlock(confirmed[i], world(confirmed[i]));
        if ok {
          processed := processed + [confirmed[i]];
        } else {
          pendingBlocks := pendingBlocks + {confirmed[i]};
        }
        i := i + 1;
      }
      assert confirmed[..i] == confirmed;
    }

    method Collect(currentHeight: nat) returns (confirmed: seq<nat>)
      ensures IsOrder(confirmed, Confirmed(pendingBlocks, currentHeight, confirmDepth))
    {
      confirmed := [];
      var rest := pendingBlocks;
      while rest != {}
        invariant rest <= pendingBlocks
        invariant IsOrder(confirmed, Confirmed(pendingBlocks - rest, currentHeight, confirmDepth))
      {
        var h :| h in rest;
        ghost var visited := Confirmed(pendingBlocks - rest, currentHeight, confirmDepth);
        assert pendingBlocks - (rest - {h}) == pendingBlocks - rest + {h};
        OrderSnoc(confirmed, visited, h);
        if h <= currentHeight && currentHeight - h >= confirmDepth {
          confirmed := confirmed + [h];
          assert Confirmed(pendingBlocks - (rest - {h}), currentHeight, confirmDepth) == visited + {h};
        } else {
          assert Confirmed(pendingBlocks - (rest - {h}), currentHeight, confirmDepth) == visited;
        }
        rest := rest - {h};
      }
      assert pendingBlocks - rest == pendingBlocks;
    }

    method TakeOut(confirmed: seq<nat>)
      modifies this`pendingBlocks
      ensures pendingBlocks == old(pendingBlocks) - (set h | h in confirmed)
    {
      var i := 0;
      while i < |confirmed|
        invariant 0 <= i <= |confirmed|
        invariant pendingBlocks == old(pendingBlocks) - (set h | h in confirmed[..i])
      {
        pendingBlocks := pendingBlocks - {confirmed[i]};
        i := i + 1;
      }
      assert confirmed[..i] == confirmed;
    }

    method HandleNewBlock(height: nat, world: World) returns (confirmed: seq<nat>)
      requires ValidWorld(world)
      modifies this
      ensures var pending := old(pendingBlocks) + {height};
              && IsOrder(confirmed, Confirmed(pending, height, confirmDepth))
              && pendingBlocks == pending - Confirmed(pending, height, confirmDepth)
                                  + Failures(old(db), confirmed, world)
      ensures db == ProcessAll(old(db), confirmed, world)
      ensures processed == old(processed) + Successes(old(db), confirmed, world)
    {
      pendingBlocks := pendingBlocks + {height};
      confirmed := CheckConfirmations(height, world);
    }

    /** Adds every row that was never backfilled; processes what is deep enough
        if the chain tip can be fetched. */
    method RecoverUnprocessed(queryOk: bool, tip: Option<nat>, world: World) returns (confirmed: seq<nat>, ok: bool)
      requires ValidWorld(world)
      modifies this
      ensures ok == queryOk
      ensures !queryOk ==> confirmed == [] && pendingBlocks == old(pendingBlocks)
      ensures queryOk ==>
                var ready := RecoveryReady(old(pendingBlocks), old(db), tip, confirmDepth);
                && IsOrder(confirmed, ready)
                && pendingBlocks == old(pendingBlocks) + UnprocessedHeights(old(db)) - ready
                                    + Failures(old(db), confirmed, world)
      ensures queryOk ==>
                forall h | h in old(db).blocks && (old(db).blocks[h].hash == "" || old(db).blocks[h].reward == 0) ::
                  h in pendingBlocks || h in confirmed
      ensures db == ProcessAll(old(db), confirmed, world)
      ensures processed == old(processed) + Successes(old(db), confirmed, world)
    {
      confirmed := [];
      if !queryOk {
        return confirmed, false;
      }
      var heights := set h | h in db.blocks && Unprocessed(db.blocks[h]);
      if heights == {} {
        return confirmed, true;
      }
      pendingBlocks := pendingBlocks + heights;
      match tip {
        case None =>
        case Some(t) => confirmed := CheckConfirmations(t, world);
      }
      ok := true;
    }
  }
}
