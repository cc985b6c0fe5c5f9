/** Where the numbers in the blocks table and the ledger come from: what one
    processed block does, and what monerod answered in the course of a run
    (services/manager/internal/scanner/scanner.go). */
module BlockAnswers {
  import opened Prelude
  import opened Payout
  import opened BlockStore
  import opened ScannerMachine
  import opened ScannerPayments

  // ----- Processing one block, as a decision -----

  /** The block's payments get as far as the insert: the block is found and on the
      chain, its first transaction is its coinbase, and there is a reward to
      share among some miner. */
  predicate Reaches(db: Db, h: nat, a: Answers) {
    && a.readOk && h in db.blocks && a.block.Block? && a.tx.Tx? && a.tx.vin == [Some(h)] && a.rates.Rates?
    && a.rates.total != 0 && a.rates.miners != map[] && RewardToShare(db, h, a) != 0
  }

  /** A row lacking hash or reward is filled with monerod's answer, if the update
      goes through; any other keeps its reward. */
  function RewardToShare(db: Db, h: nat, a: Answers): uint64
    requires h in db.blocks && a.block.Block?
  {
    if a.updateOk && (db.blocks[h].hash == "" || db.blocks[h].reward == 0) then a.block.reward else db.blocks[h].reward
  }

  /** When processing reports success: for a height that is no found block, an
      orphan, a block whose first transaction is not its coinbase, and otherwise
      when there is nobody to pay or the insert transaction goes through. */
  lemma ProcessVerdict(db: Db, h: nat, a: Answers)
    requires ValidRates(a.rates)
    ensures ProcessFrom(db, h, AtExists, a).1 <==>
            a.readOk && (|| h !in db.blocks
                         || a.block.Orphan?
                         || (&& a.block.Block? && a.tx.Tx?
                             && (|| a.tx.vin != [Some(h)]
                                 || (&& a.rates.Rates?
                                     && (!Reaches(db, h, a) || CommitsFor(db, h, a))))))
  {
    if h in db.blocks && a.block.Block? {
      ToShare(db, h, a);
    }
  }

  /** The insert transaction for this block goes through. */
  predicate CommitsFor(db: Db, h: nat, a: Answers)
    requires Reaches(db, h, a) && ValidRates(a.rates)
  {
    a.commitOk && forall i | 0 <= i < |PaymentsOf(db, h, a)| :: i !in a.failedInserts
  }

  function PaymentsOf(db: Db, h: nat, a: Answers): seq<Payment>
    requires Reaches(db, h, a) && ValidRates(a.rates)
  {
    PaymentsFor(a.rates.order, a.rates.miners, RewardToShare(db, h, a), a.rates.total, h, a.block.hash)
  }

  lemma ToShare(db: Db, h: nat, a: Answers)
    requires ValidRates(a.rates) && h in db.blocks && a.block.Block?
    ensures var db' := AfterBlock(db, h, a.block, a.updateOk).0;
            && h in db'.blocks && db'.blocks[h].reward == RewardToShare(db, h, a)
            && (a.rates.Rates? ==>
                  (PaymentsFor(a.rates.order, a.rates.miners, RewardToShare(db, h, a), a.rates.total, h, a.block.hash)
                   == []
                   <==> a.rates.total == 0 || RewardToShare(db, h, a) == 0 || a.rates.miners == map[]))
  {
    if a.rates.Rates? {
      NobodyPaid(a.rates.order, a.rates.miners, RewardToShare(db, h, a), a.rates.total, h, a.block.hash);
    }
  }

  /** What processing leaves in the tables: only this block's row may change, from
      one lacking hash or reward to exactly what monerod answered; and one batch
      with this block's payments is added, or none. */
  lemma ProcessTables(db: Db, h: nat, a: Answers)
    requires ValidRates(a.rates)
    ensures var db' := ProcessFrom(db, h, AtExists, a).0;
            && db'.blocks ==
               (if a.readOk && h in db.blocks && a.block.Block? && a.updateOk
                   && (db.blocks[h].hash == "" || db.blocks[h].reward == 0)
                then db.blocks[h := Row(a.block.hash, a.block.reward)] else db.blocks)
            && db'.ledger == db.ledger +
               (if Reaches(db, h, a) && CommitsFor(db, h, a) then [Batch(h, PaymentsOf(db, h, a))] else [])
  {
    assert db.ledger + [] == db.ledger;
    if h in db.blocks && a.block.Block? {
      ToShare(db, h, a);
    }
  }

  // ----- Rows are answers -----

  /** Step i of the run is a goroutine's answer from monerod for block h. */
  ghost predicate AsksAt(s: State, es: seq<Step>, i: nat, h: nat)
    requires IsRun(s, es)
  {
    && i < |es| && es[i].GetBlock? && es[i].answer.Block? && IsRun(s, es[..i])
    && es[i].w < |Run(s, es[..i]).workers| && Run(s, es[..i]).workers[es[i].w].Processing?
    && Run(s, es[..i]).workers[es[i].w].height == h
  }

  /** At some step monerod answered with this hash for block h. */
  ghost predicate HashAnswered(s: State, es: seq<Step>, h: nat, hash: string)
    requires IsRun(s, es)
  {
    exists i: nat :: AsksAt(s, es, i, h) && es[i].answer.hash == hash
  }

  /** At some step monerod answered with this hash and reward for block h, and the
      update went through. */
  ghost predicate RowAnswered(s: State, es: seq<Step>, h: nat, row: Row)
    requires IsRun(s, es)
  {
    exists i: nat :: AsksAt(s, es, i, h) && es[i].updateOk && es[i].answer == Block(row.hash, row.reward)
  }

  lemma AnswersStay(s: State, es: seq<Step>, h: nat)
    requires IsRun(s, es) && es != []
    ensures forall hash | HashAnswered(s, es[..|es| - 1], h, hash) :: HashAnswered(s, es, h, hash)
    ensures forall row | RowAnswered(s, es[..|es| - 1], h, row) :: RowAnswered(s, es, h, row)
  {
    var front := es[..|es| - 1];
    forall i: nat | AsksAt(s, front, i, h) ensures AsksAt(s, es, i, h) && es[i] == front[i] {
      assert front[..i] == es[..i];
    }
  }

  /** One step and a row: it is left alone, inserted empty, or filled. */
  lemma StepRow(s: State, e: Step, h: nat)
    requires Enabled(s, e)
    ensures var rows, rows' := s.db.blocks, Apply(s, e).db.blocks;
            && (h in rows ==> h in rows')
            && (h !in rows && h in rows' ==> e == Index(h) && rows'[h] == Row("", 0))
            && (h in rows ==>
                  rows'[h] == if e.GetBlock? && e.answer.Block? && e.updateOk && s.workers[e.w].height == h
                                 && (rows[h].hash == "" || rows[h].reward == 0)
                              then Row(e.answer.hash, e.answer.reward) else rows[h])
  {
  }

  /** Over every run: a block's row is the one it had at the start, the empty one
      the indexer inserts, or exactly what monerod answered for that height. */
  lemma {:induction false} RowsAreAnswers(s: State, es: seq<Step>, h: nat)
    requires IsRun(s, es) && h in Run(s, es).db.blocks
    ensures var row := Run(s, es).db.blocks[h];
            || (h in s.db.blocks && row == s.db.blocks[h])
            || row == Row("", 0)
            || RowAnswered(s, es, h, row)
    decreases |es|
  {
    if es == [] {
    } else {
      var n := |es| - 1;
      var m := Run(s, es[..n]);
      StepRow(m, es[n], h);
      if h in m.db.blocks {
        RowsAreAnswers(s, es[..n], h);
        AnswersStay(s, es, h);
        if Run(s, es).db.blocks[h] != m.db.blocks[h] {
          assert AsksAt(s, es, n, h);
        }
      }
    }
  }

  // ----- Batches are about their block -----

  /** Each payment names the height and a hash monerod answered for it. */
  ghost predicate Named(s: State, es: seq<Step>, h: nat, payments: seq<Payment>)
    requires IsRun(s, es)
  {
    forall p | p in payments :: p.height == h && HashAnswered(s, es, h, p.hash)
  }

  /** What the goroutines carry from monerod's answer to the ledger. */
  ghost predicate CarriesAnswers(s: State, es: seq<Step>)
    requires IsRun(s, es)
  {
    var m := Run(s, es);
    && (forall w | 0 <= w < |m.workers| && m.workers[w].Processing? ::
          && (m.workers[w].stage.AtExtract? ==> HashAnswered(s, es, m.workers[w].height, m.workers[w].stage.hash))
          && (m.workers[w].stage.AtRecord? ==> Named(s, es, m.workers[w].height, m.workers[w].stage.payments)))
    && |s.db.ledger| <= |m.db.ledger|
    && (forall i | |s.db.ledger| <= i < |m.db.ledger| ::
          Named(s, es, m.db.ledger[i].height, m.db.ledger[i].payments))
  }

  lemma NamedStays(s: State, es: seq<Step>, h: nat, payments: seq<Payment>)
    requires IsRun(s, es) && es != [] && Named(s, es[..|es| - 1], h, payments)
    ensures Named(s, es, h, payments)
  {
    AnswersStay(s, es, h);
  }

  lemma ExtractNames(db: Db, h: nat, hash: string, tx: TxAnswer, rates: RateAnswer)
    requires ValidRates(rates) && AfterExtract(db, h, hash, tx, rates).Continue?
    ensures forall p | p in AfterExtract(db, h, hash, tx, rates).stage.payments :: p.height == h && p.hash == hash
  {
    EmittedTotal(rates.order, Amounts(Hashrates(rates.order, rates.miners), db.blocks[h].reward, rates.total), h, hash);
  }

  /** How a goroutine gets to a stage that carries an answer. */
  lemma StageStep(m: State, e: Step, w: nat)
    requires Enabled(m, e) && w < |Apply(m, e).workers| == |m.workers|
    requires Apply(m, e).workers[w].Processing? && Apply(m, e).workers[w] != m.workers[w]
    ensures var pc, pc' := m.workers[w], Apply(m, e).workers[w];
            && (pc'.stage.AtExtract? ==>
                  && e.GetBlock? && e.w == w && e.answer.Block? && pc.Processing? && pc.height == pc'.height
                  && pc'.stage.hash == e.answer.hash)
            && (pc'.stage.AtRecord? ==>
                  && pc.Processing? && pc.stage.AtExtract? && pc.height == pc'.height
                  && forall p | p in pc'.stage.payments :: p.height == pc.height && p.hash == pc.stage.hash)
  {
    if e.Extract? && e.w == w {
      ExtractNames(m.db, m.workers[w].height, m.workers[w].stage.hash, e.tx, e.rates);
    }
  }

  lemma WorkerCarries(s: State, es: seq<Step>, w: nat)
    requires IsRun(s, es) && es != [] && CarriesAnswers(s, es[..|es| - 1])
    requires w < |Run(s, es).workers| && Run(s, es).workers[w].Processing?
    ensures var pc := Run(s, es).workers[w];
            && (pc.stage.AtExtract? ==> HashAnswered(s, es, pc.height, pc.stage.hash))
            && (pc.stage.AtRecord? ==> Named(s, es, pc.height, pc.stage.payments))
  {
    var n := |es| - 1;
    var m, pc := Run(s, es[..n]), Run(s, es).workers[w];
    AnswersStay(s, es, pc.height);
    if pc != m.workers[w] {
      StageStep(m, es[n], w);
      if pc.stage.AtExtract? {
        assert AsksAt(s, es, n, pc.height);
      }
    }
  }

  lemma {:induction false} BatchesAreNamed(s: State, es: seq<Step>)
    requires Init(s) && IsRun(s, es)
    ensures CarriesAnswers(s, es)
    decreases |es|
  {
    if es == [] {
    } else {
      var n := |es| - 1;
      BatchesAreNamed(s, es[..n]);
      var m, m' := Run(s, es[..n]), Run(s, es);
      forall w | 0 <= w < |m'.workers| && m'.workers[w].Processing?
        ensures m'.workers[w].stage.AtExtract? ==> HashAnswered(s, es, m'.workers[w].height, m'.workers[w].stage.hash)
        ensures m'.workers[w].stage.AtRecord? ==> Named(s, es, m'.workers[w].height, m'.workers[w].stage.payments)
      {
        WorkerCarries(s, es, w);
      }
      LedgerStep(m, es[n]);
      forall i | |s.db.ledger| <= i < |m'.db.ledger|
        ensures Named(s, es, m'.db.ledger[i].height, m'.db.ledger[i].payments)
      {
        if i < |m.db.ledger| {
          assert m'.db.ledger[i] == m.db.ledger[i];
          NamedStays(s, es, m.db.ledger[i].height, m.db.ledger[i].payments);
        } else {
          NamedStays(s, es, m.workers[es[n].w].height, m.workers[es[n].w].stage.payments);
        }
      }
    }
  }

  /** The ledger only grows, by the batch a goroutine was about to commit. */
  lemma LedgerStep(s: State, e: Step)
    requires Enabled(s, e)
    ensures Apply(s, e).db.ledger ==
            s.db.ledger + (if e.Record? && e.commitOk
                           then [Batch(s.workers[e.w].height, s.workers[e.w].stage.payments)] else [])
  {
  }

  /** From monerod to the ledger: in disciplined runs whose hashrates cover the
      miners, each batch of a block backfilled in the run adds up to a reward that
      monerod answered for that height, and each batch of the run names a hash it
      answered. */
  lemma PaidWhatWasAnswered(s: State, es: seq<Step>, i: nat)
    requires Init(s) && SoundDb(s.db) && LedgerAddsUp(s.db)
    requires IsRun(s, es) && IsDisciplinedRun(s, es) && IsCoveredRun(s, es)
    requires |s.db.ledger| <= i < |Run(s, es).db.ledger|
    ensures var db := Run(s, es).db;
            var h, payments := db.ledger[i].height, db.ledger[i].payments;
            && h in db.blocks && Total(payments) == db.blocks[h].reward
            && ((h in s.db.blocks && db.blocks[h] == s.db.blocks[h]) || RowAnswered(s, es, h, db.blocks[h]))
            && forall p | p in payments :: p.height == h && HashAnswered(s, es, h, p.hash)
  {
    var db := Run(s, es).db;
    PaidInFullOnce(s, es);
    assert AddsUp(db, db.ledger[i].height, db.ledger[i].payments);
    RowsAreAnswers(s, es, db.ledger[i].height);
    BatchesAreNamed(s, es);
  }
}
