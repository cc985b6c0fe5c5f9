/** Each found block is paid at most once, and its payments add up to its
    reward, in runs where recovery keeps clear of blocks in flight. */
module ScannerPayments {
  import opened Prelude
  import opened Payout
  import opened BlockStore
  import opened ScannerMachine

  /** What a run must respect. Nothing here restricts failures, orders,
      crashes or the number of goroutines. */
  ghost predicate Disciplined(s: State, e: Step)
    requires Enabled(s, e)
  {
    match e
    // A height is not announced while in flight, nor after it was paid.
    case Announce(_, h) => !Held(s, h) && !Paid(s.db, h)
    // Recovery does not read its rows while one of them is in flight,
    case SelectRows(_) => forall h | h in UnprocessedHeights(s.db) :: !Held(s, h)
    // and none of them is taken before recovery has added them.
    case Take(_, order) =>
      forall v, h | 0 <= v < |s.workers| && s.workers[v].Selected? && h in order :: h !in s.workers[v].heights
    // A reward that is backfilled comes with a block hash.
    case GetBlock(w, answer, updateOk) =>
      answer.Block? && updateOk && s.workers[w].height in UnprocessedHeights(s.db) && answer.reward != 0 ==>
        answer.hash != ""
    case _ => true
  }

  /** The hashrates read cover the miners and do not overflow. */
  ghost predicate Covered(s: State, e: Step)
    requires Enabled(s, e)
  {
    e.Extract? && e.rates.Rates? && e.rates.total != 0 && s.workers[e.w].height in s.db.blocks ==>
      && LoopFits(e.rates.order, e.rates.miners, s.db.blocks[s.workers[e.w].height].reward)
      && Sum(Hashrates(e.rates.order, e.rates.miners)) <= e.rates.total
  }

  ghost predicate HandsDisjoint(workers: seq<Pc>) {
    && (forall w | 0 <= w < |workers| :: Distinct(Holds(workers[w])))
    && (forall v, w, h | 0 <= v < |workers| && 0 <= w < |workers| && v != w
          && h in Holds(workers[v]) :: h !in Holds(workers[w]))
  }

  /** A height is in at most one place: pending, or once in one goroutine. */
  ghost predicate SingleOwner(s: State) {
    && HandsDisjoint(s.workers)
    && (forall h | h in s.pending :: !Held(s, h))
  }

  /** A backfilled row is final: neither statement touches it again. */
  predicate Final(db: Db, h: nat) {
    h in db.blocks && !Unprocessed(db.blocks[h])
  }

  ghost predicate RowsNamed(db: Db) {
    forall h | h in db.blocks && db.blocks[h].reward != 0 :: db.blocks[h].hash != ""
  }

  ghost predicate LedgerDistinct(db: Db) {
    forall i, j | 0 <= i < j < |db.ledger| :: db.ledger[i].height != db.ledger[j].height
  }

  /** A paid height is over and done with: its row is final, and it is nowhere
      in the pipeline, not even in a recovery about to add its rows. */
  ghost predicate PaidIsOver(s: State) {
    forall h | Paid(s.db, h) ::
      && Final(s.db, h) && h !in s.pending && !Held(s, h)
      && forall v | 0 <= v < |s.workers| && s.workers[v].Selected? :: h !in s.workers[v].heights
  }

  /** Rows read by a recovery that has not added them yet are in nobody's hands. */
  ghost predicate SelectedFree(s: State) {
    forall v, h | 0 <= v < |s.workers| && s.workers[v].Selected? && h in s.workers[v].heights :: !Held(s, h)
  }

  ghost predicate ReadyIsFinal(s: State) {
    forall w | 0 <= w < |s.workers| && s.workers[w].Processing? && s.workers[w].stage.AtRecord? ::
      Final(s.db, s.workers[w].height)
  }

  ghost predicate Inv(s: State) {
    SingleOwner(s) && PaidIsOver(s) && SelectedFree(s) && ReadyIsFinal(s) && RowsNamed(s.db) && LedgerDistinct(s.db)
  }

  // ----- What one step does to the database -----

  lemma StepDb(s: State, e: Step)
    requires Enabled(s, e) && Disciplined(s, e) && RowsNamed(s.db)
    ensures RowsNamed(Apply(s, e).db)
    ensures forall h | Final(s.db, h) ::
              Final(Apply(s, e).db, h) && Apply(s, e).db.blocks[h] == s.db.blocks[h]
    ensures !(e.Record? && e.commitOk) ==> Apply(s, e).db.ledger == s.db.ledger
  {
  }

  /** Except for Take, a step leaves a goroutine's heights alone or drops the first. */
  lemma StepHolds(s: State, e: Step)
    requires Enabled(s, e) && !e.Index? && !e.Crash? && !e.Take?
    ensures var before, after := Holds(s.workers[Actor(e)]), Holds(Apply(s, e).workers[Actor(e)]);
            after == before || (before != [] && after == before[1..])
    ensures forall v | 0 <= v < |s.workers| && v != Actor(e) :: Apply(s, e).workers[v] == s.workers[v]
  {
    var before, after := Holds(s.workers[Actor(e)]), Holds(Apply(s, e).workers[Actor(e)]);
    match e {
      case Begin(w) => assert after == before;
      case CheckExists(w, _) => assert after == before || after == before[1..];
      case GetBlock(w, _, _) => assert after == before || after == before[1..];
      case Extract(w, _, _) => assert after == before || after == before[1..];
      case Record(w, _) => assert after == before || after == before[1..];
      case Requeue(w) => assert after == before[1..];
      case _ =>
    }
  }

  lemma NotHeldAfter(s: State, e: Step, h: nat)
    requires Enabled(s, e) && !Held(s, h) && (e.Take? ==> h !in e.order)
    ensures !Held(Apply(s, e), h)
  {
    if !e.Index? && !e.Crash? && !e.Take? {
      StepHolds(s, e);
    }
  }

  /** A height that leaves a goroutine's hands is in nobody else's. */
  lemma ReleasedNotHeld(s: State, e: Step)
    requires SingleOwner(s) && Enabled(s, e)
    requires (e.Requeue? || IsProcessing(e)) && Apply(s, e).workers[e.w].Working?
    ensures !Held(Apply(s, e), s.workers[e.w].height)
  {
    ReleasedStep(s, e);
    DroppedNotHeld(s.workers, Apply(s, e).workers, e.w, s.workers[e.w].height);
  }

  lemma ReleasedStep(s: State, e: Step)
    requires Enabled(s, e) && (e.Requeue? || IsProcessing(e)) && Apply(s, e).workers[e.w].Working?
    ensures Apply(s, e).workers == s.workers[e.w := Working(s.workers[e.w].tip, s.workers[e.w].todo)]
  {
  }

  lemma DroppedNotHeld(before: seq<Pc>, after: seq<Pc>, w: nat, h: nat)
    requires HandsDisjoint(before) && w < |before| == |after|
    requires Holds(before[w]) == [h] + Holds(after[w])
    requires forall v | 0 <= v < |before| && v != w :: after[v] == before[v]
    ensures forall v | 0 <= v < |after| :: h !in Holds(after[v])
  {
    assert Holds(before[w])[0] == h;
    forall v | 0 <= v < |after| ensures h !in Holds(after[v]) {
      if v == w {
        assert forall i | 0 <= i < |Holds(after[w])| :: Holds(after[w])[i] == Holds(before[w])[i + 1];
      }
    }
  }

  lemma DropKeepsDisjoint(before: seq<Pc>, after: seq<Pc>, w: nat)
    requires HandsDisjoint(before) && |after| == |before| && w < |before|
    requires Holds(after[w]) == Holds(before[w])
             || (Holds(before[w]) != [] && Holds(after[w]) == Holds(before[w])[1..])
    requires forall v | 0 <= v < |before| && v != w :: after[v] == before[v]
    ensures HandsDisjoint(after)
  {
    assert forall h | h in Holds(after[w]) :: h in Holds(before[w]);
  }

  lemma SingleOwnerStep(s: State, e: Step)
    requires Inv(s) && Enabled(s, e) && Disciplined(s, e)
    ensures SingleOwner(Apply(s, e))
  {
    if e.Take? {
      TakeKeepsSingleOwner(s, e);
    } else if !e.Index? && !e.Crash? {
      StepHolds(s, e);
      DropKeepsDisjoint(s.workers, Apply(s, e).workers, Actor(e));
      PendingKeepsFree(s, e);
    }
  }

  lemma PendingKeepsFree(s: State, e: Step)
    requires Inv(s) && Enabled(s, e) && Disciplined(s, e) && !e.Take?
    ensures forall h | h in Apply(s, e).pending :: !Held(Apply(s, e), h)
  {
    forall h | h in Apply(s, e).pending ensures !Held(Apply(s, e), h) {
      if e.Requeue? && h == s.workers[e.w].height {
        ReleasedNotHeld(s, e);
      } else {
        NotHeldAfter(s, e, h);
      }
    }
  }

  lemma TakeKeepsSingleOwner(s: State, e: Step)
    requires Inv(s) && Enabled(s, e) && e.Take?
    ensures SingleOwner(Apply(s, e))
  {
    var s' := Apply(s, e);
    forall v, h | 0 <= v < |s.workers| && v != e.w && h in Holds(s'.workers[v]) ensures h !in e.order {
      assert Held(s, h);
    }
    forall h | h in s'.pending ensures !Held(s', h) {
      NotHeldAfter(s, e, h);
    }
  }

  lemma PaidIsOverStep(s: State, e: Step)
    requires Inv(s) && Enabled(s, e) && Disciplined(s, e)
    ensures PaidIsOver(Apply(s, e))
  {
    var s' := Apply(s, e);
    StepDb(s, e);
    forall h | Paid(s'.db, h)
      ensures Final(s'.db, h) && h !in s'.pending && !Held(s', h)
      ensures forall v | 0 <= v < |s'.workers| && s'.workers[v].Selected? :: h !in s'.workers[v].heights
    {
      if Paid(s.db, h) {
        NotHeldAfter(s, e, h);
      } else {
        assert e.Record? && h == s.workers[e.w].height;
        ReleasedNotHeld(s, e);
        assert Holds(s.workers[e.w])[0] == h;
        assert Held(s, h);
      }
    }
  }

  lemma SelectedFreeStep(s: State, e: Step)
    requires Inv(s) && Enabled(s, e) && Disciplined(s, e)
    ensures SelectedFree(Apply(s, e))
  {
    var s' := Apply(s, e);
    forall v, h | 0 <= v < |s'.workers| && s'.workers[v].Selected? && h in s'.workers[v].heights
      ensures !Held(s', h)
    {
      if e.SelectRows? && v == e.w {
        assert !Held(s, h);
      } else {
        assert s'.workers[v] == s.workers[v];
      }
      NotHeldAfter(s, e, h);
    }
  }

  lemma ReadyIsFinalStep(s: State, e: Step)
    requires Inv(s) && Enabled(s, e) && Disciplined(s, e)
    ensures ReadyIsFinal(Apply(s, e))
  {
    StepDb(s, e);
    if e.Extract? && e.rates.Rates? {
      var h := s.workers[e.w].height;
      NoRewardNoPayments(e.rates.order, e.rates.miners, e.rates.total, h, s.workers[e.w].stage.hash);
    }
  }

  lemma LedgerDistinctStep(s: State, e: Step)
    requires Inv(s) && Enabled(s, e) && Disciplined(s, e)
    ensures LedgerDistinct(Apply(s, e).db)
  {
    StepDb(s, e);
    if e.Record? && e.commitOk {
      var h := s.workers[e.w].height;
      assert Holds(s.workers[e.w])[0] == h;
      assert Held(s, h);
      assert forall i | 0 <= i < |s.db.ledger| :: Paid(s.db, s.db.ledger[i].height);
    }
  }

  lemma InvStep(s: State, e: Step)
    requires Inv(s) && Enabled(s, e) && Disciplined(s, e)
    ensures Inv(Apply(s, e))
  {
    SingleOwnerStep(s, e);
    PaidIsOverStep(s, e);
    SelectedFreeStep(s, e);
    ReadyIsFinalStep(s, e);
    LedgerDistinctStep(s, e);
    StepDb(s, e);
  }

  ghost predicate IsDisciplinedRun(s: State, es: seq<Step>)
    requires IsRun(s, es)
    decreases |es|
  {
    es == [] ||
    var n := |es| - 1;
    IsDisciplinedRun(s, es[..n]) && Disciplined(Run(s, es[..n]), es[n])
  }

  /** Rows with a reward are named, paid ones are final, none is paid twice: true
      of an empty database, and of what any disciplined run leaves. */
  ghost predicate SoundDb(db: Db) {
    RowsNamed(db) && LedgerDistinct(db) && forall h | Paid(db, h) :: Final(db, h)
  }

  lemma SoundDbs(s: State)
    ensures SoundDb(Db(map[], []))
    ensures Inv(s) ==> SoundDb(s.db)
    ensures Init(s) && SoundDb(s.db) ==> Inv(s)
  {
  }

  lemma {:induction false} InvRun(s: State, es: seq<Step>)
    requires Inv(s) && IsRun(s, es) && IsDisciplinedRun(s, es)
    ensures Inv(Run(s, es))
    decreases |es|
  {
    if es == [] {
    } else {
      var n := |es| - 1;
      InvRun(s, es[..n]);
      InvStep(Run(s, es[..n]), es[n]);
    }
  }

  /** At-most-once pay: in every disciplined run, with any failures, retries,
      recoveries and crashes, no height has two committed batches. */
  lemma PaidAtMostOnce(s: State, es: seq<Step>)
    requires Init(s) && SoundDb(s.db) && IsRun(s, es) && IsDisciplinedRun(s, es)
    ensures Inv(Run(s, es))
    ensures LedgerDistinct(Run(s, es).db) && SoundDb(Run(s, es).db)
  {
    SoundDbs(s);
    InvRun(s, es);
    SoundDbs(Run(s, es));
  }

  /** Every goroutine but the acting one is idle. */
  ghost predicate Serial(s: State, e: Step) {
    e.Index? || e.Crash? || forall v | 0 <= v < |s.workers| && v != Actor(e) :: s.workers[v].Idle?
  }

  /** A listener that does not come back to paid heights, and a node whose
      blocks have hashes. */
  ghost predicate NeverBack(s: State, e: Step) {
    && (e.Announce? ==> !Paid(s.db, e.h))
    && (e.GetBlock? && e.answer.Block? ==> e.answer.hash != "")
  }

  lemma SerialIsDisciplined(s: State, e: Step)
    requires Enabled(s, e) && Serial(s, e) && NeverBack(s, e)
    ensures Disciplined(s, e)
  {
  }

  ghost predicate IsSerialRun(s: State, es: seq<Step>)
    requires IsRun(s, es)
    decreases |es|
  {
    es == [] ||
    var n := |es| - 1;
    IsSerialRun(s, es[..n]) && Serial(Run(s, es[..n]), es[n]) && NeverBack(Run(s, es[..n]), es[n])
  }

  /** If callbacks and recovery passes never overlapped, no height would be paid
      twice, whatever fails or crashes. */
  lemma {:induction false} SerialRunsPayOnce(s: State, es: seq<Step>)
    requires Init(s) && SoundDb(s.db) && IsRun(s, es) && IsSerialRun(s, es)
    ensures IsDisciplinedRun(s, es) && LedgerDistinct(Run(s, es).db)
    decreases |es|
  {
    if es == [] {
    } else {
      var n := |es| - 1;
      SerialRunsPayOnce(s, es[..n]);
      SerialIsDisciplined(Run(s, es[..n]), es[n]);
    }
    PaidAtMostOnce(s, es);
  }

  // ----- Conservation through the pipeline -----

  ghost predicate AddsUp(db: Db, h: nat, payments: seq<Payment>) {
    Final(db, h) && Total(payments) == db.blocks[h].reward
  }

  ghost predicate LedgerAddsUp(db: Db) {
    forall i | 0 <= i < |db.ledger| :: AddsUp(db, db.ledger[i].height, db.ledger[i].payments)
  }

  /** Every committed batch, and every batch about to be committed, adds up to
      the reward recorded for its block. */
  ghost predicate PaidInFull(s: State) {
    && LedgerAddsUp(s.db)
    && (forall w | 0 <= w < |s.workers| && s.workers[w].Processing? && s.workers[w].stage.AtRecord? ::
          AddsUp(s.db, s.workers[w].height, s.workers[w].stage.payments))
  }

  lemma ExtractPaysInFull(s: State, e: Step)
    requires Enabled(s, e) && Covered(s, e) && e.Extract?
    requires AfterExtract(s.db, s.workers[e.w].height, s.workers[e.w].stage.hash, e.tx, e.rates).Continue?
    ensures s.workers[e.w].height in s.db.blocks
    ensures Total(AfterExtract(s.db, s.workers[e.w].height, s.workers[e.w].stage.hash, e.tx, e.rates).stage.payments)
            == s.db.blocks[s.workers[e.w].height].reward
  {
    var r, h := e.rates, s.workers[e.w].height;
    assert r.miners != map[] by {
      OrderLength(r.order, r.miners.Keys);
    }
    PayoutConserves(r.order, r.miners, s.db.blocks[h].reward, r.total, h, s.workers[e.w].stage.hash);
  }

  lemma ReadyAddsUp(s: State, e: Step, w: nat)
    requires Inv(s) && Enabled(s, e) && Disciplined(s, e) && Covered(s, e) && PaidInFull(s)
    requires w < |s.workers| && Apply(s, e).workers[w].Processing? && Apply(s, e).workers[w].stage.AtRecord?
    ensures AddsUp(Apply(s, e).db, Apply(s, e).workers[w].height, Apply(s, e).workers[w].stage.payments)
  {
    StepDb(s, e);
    if e.Extract? && e.w == w {
      ReadyIsFinalStep(s, e);
      ExtractPaysInFull(s, e);
    } else {
      assert Apply(s, e).workers[w] == s.workers[w];
    }
  }

  lemma PaidInFullStep(s: State, e: Step)
    requires Inv(s) && Enabled(s, e) && Disciplined(s, e) && Covered(s, e) && PaidInFull(s)
    ensures PaidInFull(Apply(s, e))
  {
    var s' := Apply(s, e);
    StepDb(s, e);
    forall i | 0 <= i < |s'.db.ledger| ensures AddsUp(s'.db, s'.db.ledger[i].height, s'.db.ledger[i].payments) {
      if i < |s.db.ledger| {
        assert s'.db.ledger[i] == s.db.ledger[i];
      }
    }
    forall w | 0 <= w < |s'.workers| && s'.workers[w].Processing? && s'.workers[w].stage.AtRecord?
      ensures AddsUp(s'.db, s'.workers[w].height, s'.workers[w].stage.payments)
    {
      ReadyAddsUp(s, e, w);
    }
  }

  ghost predicate IsCoveredRun(s: State, es: seq<Step>)
    requires IsRun(s, es)
    decreases |es|
  {
    es == [] ||
    var n := |es| - 1;
    IsCoveredRun(s, es[..n]) && Covered(Run(s, es[..n]), es[n])
  }

  /** In disciplined runs whose hashrates cover the miners, every paid height
      has exactly one batch, and it adds up to the block's recorded reward. */
  lemma {:induction false} PaidInFullOnce(s: State, es: seq<Step>)
    requires Init(s) && SoundDb(s.db) && LedgerAddsUp(s.db)
    requires IsRun(s, es) && IsDisciplinedRun(s, es) && IsCoveredRun(s, es)
    ensures LedgerDistinct(Run(s, es).db) && PaidInFull(Run(s, es))
    decreases |es|
  {
    PaidAtMostOnce(s, es);
    if es == [] {
    } else {
      var n := |es| - 1;
      PaidInFullOnce(s, es[..n]);
      PaidAtMostOnce(s, es[..n]);
      PaidInFullStep(Run(s, es[..n]), es[n]);
    }
  }
}
