/** Where the scanner's promises end: which runs pay a block twice, and which
    crash leaves a block unpaid for good. */
module ScannerLimits {
  import opened Prelude
  import opened Payout
  import opened BlockStore
  import opened ScannerMachine
  import opened ScannerPayments

  // ----- Answers under which a found block is paid -----

  const SOME_MINER: Address := "4addr"

  function GoodRates(): RateAnswer {
    Rates([SOME_MINER], map[SOME_MINER := 1], 1)
  }

  lemma GoodRatesPay(reward: uint64, h: nat, hash: string)
    requires reward != 0
    ensures ValidRates(GoodRates())
    ensures PaymentsFor([SOME_MINER], map[SOME_MINER := 1], reward, 1, h, hash)
            == [Payment(SOME_MINER, reward, h, hash)]
  {
    var miners: map<Address, uint64> := map[SOME_MINER := 1];
    var hs := Hashrates([SOME_MINER], miners);
    assert hs == [1];
    assert MachineShares(hs, reward, 1)[..0] == [];
    WrapSmall(reward);
    assert Amounts(hs, reward, 1) == [reward];
    assert [SOME_MINER][..0] == [] && [reward][..0] == [];
    assert Emitted([SOME_MINER], [reward], h, hash) == [Payment(SOME_MINER, reward, h, hash)];
  }

  // ----- Disciplined runs, one step at a time -----

  /** s' follows s in some disciplined run that announces none of the quiet
      heights, of which there are finitely many. */
  ghost predicate Follows(s: State, s': State, quiet: set<nat>) {
    exists es :: IsRun(s, es) && Run(s, es) == s' && IsDisciplinedRun(s, es) && Quiet(es, quiet)
  }

  lemma Remain(s: State, quiet: set<nat>)
    ensures Follows(s, s, quiet)
  {
    assert IsRun(s, []) && Run(s, []) == s && IsDisciplinedRun(s, []) && Quiet([], quiet);
  }

  lemma Onward(s: State, m: State, e: Step, quiet: set<nat>)
    requires Follows(s, m, quiet) && Enabled(m, e) && Disciplined(m, e) && (e.Announce? ==> e.h !in quiet)
    ensures Follows(s, Apply(m, e), quiet)
  {
    var es :| IsRun(s, es) && Run(s, es) == m && IsDisciplinedRun(s, es) && Quiet(es, quiet);
    assert (es + [e])[..|es + [e]| - 1] == es;
    assert Quiet(es + [e], quiet);
  }

  /** A step of any kind, and a disciplined run after it, is a run. */
  lemma LeadsOn(s: State, e: Step, s': State, quiet: set<nat>)
    requires Enabled(s, e) && (e.Announce? ==> e.h !in quiet) && Follows(Apply(s, e), s', quiet)
    ensures Leads(s, s', quiet)
  {
    var es :| IsRun(Apply(s, e), es) && Run(Apply(s, e), es) == s' && IsDisciplinedRun(Apply(s, e), es)
              && Quiet(es, quiet);
    OneStep(s, e);
    RunConcat(s, [e], es);
    assert Quiet([e] + es, quiet);
  }

  lemma FollowsKeepsInv(s: State, s': State, quiet: set<nat>)
    requires Inv(s) && Follows(s, s', quiet)
    ensures Inv(s')
  {
    var es :| IsRun(s, es) && Run(s, es) == s' && IsDisciplinedRun(s, es) && Quiet(es, quiet);
    InvRun(s, es);
  }

  /** No goroutine is between reading rows and adding them. */
  ghost predicate NoneSelected(s: State) {
    forall v | 0 <= v < |s.workers| :: !s.workers[v].Selected?
  }

  /** Only goroutine w moved, nothing was written, and no pending height was lost. */
  ghost predicate Retreated(s: State, s': State, w: nat) {
    && OnlyMoved(s, s', w) && s'.db == s.db && s.pending <= s'.pending
  }

  ghost predicate OnlyMoved(s: State, s': State, w: nat) {
    && s'.depth == s.depth && w < |s.workers| == |s'.workers|
    && forall v | 0 <= v < |s.workers| && v != w :: s'.workers[v] == s.workers[v]
  }

  /** A goroutine in the middle of a block can fail it. */
  lemma CanFail(s0: State, s: State, w: nat, quiet: set<nat>) returns (s': State)
    requires Follows(s0, s, quiet)
    requires w < |s.workers| && s.workers[w].Processing?
    ensures Follows(s0, s', quiet) && Retreated(s, s', w)
    ensures s'.workers[w] == Failing(s.workers[w].tip, s.workers[w].height, s.workers[w].todo)
  {
    var e := match s.workers[w].stage
      case AtExists => CheckExists(w, false)
      case AtBackfill => GetBlock(w, BlockError, true)
      case AtExtract(_) => Extract(w, TxError, RateError)
      case AtRecord(_) => Record(w, false);
    Onward(s0, s, e, quiet);
    s' := Apply(s, e);
  }

  /** A goroutine with a list of heights can hand all of them back. */
  lemma {:induction false} CanHandBack(s0: State, s: State, w: nat, quiet: set<nat>) returns (s': State)
    requires Follows(s0, s, quiet)
    requires w < |s.workers| && s.workers[w].Working?
    ensures Follows(s0, s', quiet) && Retreated(s, s', w) && s'.workers[w] == Idle
    ensures forall h | h in s.workers[w].todo :: h in s'.pending
    decreases |s.workers[w].todo|
  {
    var tip, todo := s.workers[w].tip, s.workers[w].todo;
    Onward(s0, s, Begin(w), quiet);
    s' := Apply(s, Begin(w));
    if todo == [] {
    } else {
      assert s'.workers[w] == Processing(tip, todo[0], todo[1..], AtExists);
      var m := CanFail(s0, s', w, quiet);
      assert m.workers[w] == Failing(tip, todo[0], todo[1..]);
      Onward(s0, m, Requeue(w), quiet);
      var m' := Apply(m, Requeue(w));
      assert m'.workers[w] == Working(tip, todo[1..]);
      s' := CanHandBack(s0, m', w, quiet);
    }
  }

  /** Wherever a goroutine stands, it can become idle with every height it held
      pending again. */
  lemma CanRetreat(s0: State, s: State, w: nat, quiet: set<nat>) returns (s': State)
    requires Follows(s0, s, quiet) && NoneSelected(s) && w < |s.workers|
    ensures Follows(s0, s', quiet) && NoneSelected(s') && Retreated(s, s', w) && s'.workers[w] == Idle
    ensures forall h | h in Holds(s.workers[w]) :: h in s'.pending
  {
    s' := s;
    match s.workers[w] {
      case Idle =>
      case NeedTip =>
        Onward(s0, s, FetchTip(w, None), quiet);
        s' := Apply(s, FetchTip(w, None));
      case Checking(tip) =>
        var order := SomeOrder(Confirmed(s.pending, tip, s.depth));
        Onward(s0, s, Take(w, order), quiet);
        var m := Apply(s, Take(w, order));
        assert m.workers[w] == Working(tip, order);
        s' := CanHandBack(s0, m, w, quiet);
        assert Retreated(s, s', w);
      case Working(_, _) =>
        s' := CanHandBack(s0, s, w, quiet);
      case Processing(_, _, _, _) =>
        var m := CanFail(s0, s, w, quiet);
        s' := CanRequeue(s0, m, w, quiet);
      case Failing(_, _, _) =>
        s' := CanRequeue(s0, s, w, quiet);
    }
  }

  lemma CanRequeue(s0: State, s: State, w: nat, quiet: set<nat>) returns (s': State)
    requires Follows(s0, s, quiet)
    requires w < |s.workers| && s.workers[w].Failing?
    ensures Follows(s0, s', quiet) && Retreated(s, s', w) && s'.workers[w] == Idle
    ensures forall h | h in Holds(s.workers[w]) :: h in s'.pending
  {
    Onward(s0, s, Requeue(w), quiet);
    var m := Apply(s, Requeue(w));
    s' := CanHandBack(s0, m, w, quiet);
  }

  /** The first n goroutines can add the rows they read; others stay put. */
  lemma {:induction false} CanAdd(s0: State, s: State, n: nat, quiet: set<nat>) returns (s': State)
    requires Follows(s0, s, quiet) && n <= |s.workers|
    ensures Follows(s0, s', quiet) && s'.db == s.db && s'.depth == s.depth && s.pending <= s'.pending
    ensures |s'.workers| == |s.workers|
    ensures forall v | 0 <= v < n && s.workers[v].Selected? ::
              s'.workers[v] == NeedTip && s.workers[v].heights <= s'.pending
    ensures forall v | 0 <= v < |s.workers| && !(v < n && s.workers[v].Selected?) :: s'.workers[v] == s.workers[v]
  {
    if n == 0 {
      s' := s;
    } else {
      s' := CanAdd(s0, s, n - 1, quiet);
      if s.workers[n - 1].Selected? {
        Onward(s0, s', AddSelected(n - 1), quiet);
        s' := Apply(s', AddSelected(n - 1));
      }
    }
  }

  /** The first n goroutines can all become idle. */
  lemma {:induction false} CanRest(s0: State, s: State, n: nat, quiet: set<nat>) returns (s': State)
    requires Follows(s0, s, quiet) && NoneSelected(s) && n <= |s.workers|
    ensures Follows(s0, s', quiet) && NoneSelected(s') && s'.db == s.db && |s'.workers| == |s.workers|
    ensures forall v | 0 <= v < n :: s'.workers[v] == Idle
  {
    if n == 0 {
      s' := s;
    } else {
      var m := CanRest(s0, s, n - 1, quiet);
      s' := CanRetreat(s0, m, n - 1, quiet);
    }
  }

  // ----- Paying a pending height -----

  /** A goroutine past the existence check of a known block can commit a batch
      for it, whatever the ledger already holds. */
  lemma CanPay(s0: State, s: State, w: nat, quiet: set<nat>) returns (s': State)
    requires Follows(s0, s, quiet)
    requires w < |s.workers| && s.workers[w].Processing? && s.workers[w].stage.AtBackfill?
    requires s.workers[w].height in s.db.blocks
    ensures Follows(s0, s', quiet) && OnlyMoved(s, s', w) && s'.pending == s.pending
    ensures s'.workers[w] == Working(s.workers[w].tip, s.workers[w].todo)
    ensures s'.db.blocks.Keys == s.db.blocks.Keys
    ensures PaidOnceMore(s.db, s'.db, s.workers[w].height)
  {
    var h := s.workers[w].height;
    var e1 := GetBlock(w, Block("hash", 1), true);
    Onward(s0, s, e1, quiet);
    var m1 := Apply(s, e1);
    assert m1.workers[w] == s.workers[w].(stage := AtExtract("hash"));
    assert m1.db.blocks[h].reward != 0;
    s' := CanPayFilled(s0, m1, w, quiet);
  }

  lemma CanPayFilled(s0: State, s: State, w: nat, quiet: set<nat>) returns (s': State)
    requires Follows(s0, s, quiet)
    requires w < |s.workers| && s.workers[w].Processing? && s.workers[w].stage.AtExtract?
    requires s.workers[w].height in s.db.blocks && s.db.blocks[s.workers[w].height].reward != 0
    ensures Follows(s0, s', quiet) && OnlyMoved(s, s', w) && s'.pending == s.pending
    ensures s'.workers[w] == Working(s.workers[w].tip, s.workers[w].todo)
    ensures s'.db.blocks == s.db.blocks && PaidOnceMore(s.db, s'.db, s.workers[w].height)
  {
    var h, hash := s.workers[w].height, s.workers[w].stage.hash;
    var reward := s.db.blocks[h].reward;
    GoodRatesPay(reward, h, hash);
    var e2 := Extract(w, Tx([Some(h)]), GoodRates());
    Onward(s0, s, e2, quiet);
    var m2 := Apply(s, e2);
    var p := [Payment(SOME_MINER, reward, h, hash)];
    assert m2.workers[w] == s.workers[w].(stage := AtRecord(p));
    var e3 := Record(w, true);
    Onward(s0, m2, e3, quiet);
    s' := Apply(m2, e3);
    assert s'.db.ledger == s.db.ledger + [Batch(h, p)];
  }

  ghost predicate PaidOnceMore(db: Db, db': Db, h: nat) {
    exists p :: db'.ledger == db.ledger + [Batch(h, p)]
  }

  lemma OnceMoreIsPaid(db: Db, db': Db, h: nat)
    requires PaidOnceMore(db, db', h)
    ensures Paid(db', h)
    ensures Paid(db, h) ==> !LedgerDistinct(db')
  {
    assert db'.ledger[|db.ledger|].height == h;
    if Paid(db, h) {
      var i :| 0 <= i < |db.ledger| && db.ledger[i].height == h;
      assert db'.ledger[i].height == db'.ledger[|db.ledger|].height;
    }
  }

  /** A goroutine about to lock under a deep enough tip can take a known pending
      height up to its existence check. */
  lemma CanTakeUp(s0: State, s: State, w: nat, h: nat, quiet: set<nat>) returns (s': State)
    requires Follows(s0, s, quiet) && NoneSelected(s)
    requires w < |s.workers| && s.workers[w].Checking?
    requires h in s.pending && h in s.db.blocks && IsDeep(h, s.workers[w].tip, s.depth)
    ensures Follows(s0, s', quiet) && NoneSelected(s') && OnlyMoved(s, s', w) && s'.db == s.db
    ensures s'.workers[w].Processing? && s'.workers[w].stage.AtBackfill? && s'.workers[w].height == h
  {
    var tip := s.workers[w].tip;
    var rest := SomeOrder(Confirmed(s.pending, tip, s.depth) - {h});
    var e1 := Take(w, [h] + rest);
    Onward(s0, s, e1, quiet);
    var m1 := Apply(s, e1);
    assert m1.workers[w] == Working(tip, [h] + rest);
    Onward(s0, m1, Begin(w), quiet);
    var m2 := Apply(m1, Begin(w));
    assert m2.workers[w] == Processing(tip, h, rest, AtExists);
    Onward(s0, m2, CheckExists(w, true), quiet);
    s' := Apply(m2, CheckExists(w, true));
    assert s'.workers[w] == Processing(tip, h, rest, AtBackfill);
  }

  lemma SomeOrder(keys: set<nat>) returns (order: seq<nat>)
    ensures IsOrder(order, keys)
  {
    if keys == {} {
      order := [];
    } else {
      var k :| k in keys;
      order := SomeOrder(keys - {k});
      order := [k] + order;
    }
  }

  /** An idle goroutine can announce a height that is new, high enough, and none
      of the quiet ones, and take up a pending height under it. */
  lemma CanStart(s0: State, s: State, w: nat, h: nat, quiet: set<nat>) returns (s': State)
    requires Follows(s0, s, quiet) && NoneSelected(s)
    requires w < |s.workers| && s.workers[w].Idle? && h in s.pending && h in s.db.blocks
    ensures Follows(s0, s', quiet) && NoneSelected(s') && OnlyMoved(s, s', w) && s'.db == s.db
    ensures s'.workers[w].Processing? && s'.workers[w].stage.AtBackfill? && s'.workers[w].height == h
  {
    var tip := NewHeight(s, h + s.depth, quiet);
    Onward(s0, s, Announce(w, tip), quiet);
    var m := Apply(s, Announce(w, tip));
    assert m.workers[w] == Checking(tip);
    s' := CanTakeUp(s0, m, w, h, quiet);
  }

  /** Some height from lo on is neither held, nor paid, nor among the quiet ones. */
  lemma NewHeight(s: State, lo: nat, quiet: set<nat>) returns (h: nat)
    ensures lo <= h && !Held(s, h) && !Paid(s.db, h) && h !in quiet
  {
    var held := set w, i | 0 <= w < |s.workers| && 0 <= i < |Holds(s.workers[w])| :: Holds(s.workers[w])[i];
    var paid := set i | 0 <= i < |s.db.ledger| :: s.db.ledger[i].height;
    assert forall x | Held(s, x) :: x in held;
    assert forall x | Paid(s.db, x) :: x in paid;
    var top := Above(held + paid + quiet);
    h := Max(lo, top);
  }

  /** A number above all of the set. */
  lemma Above(hs: set<nat>) returns (top: nat)
    ensures forall h | h in hs :: h < top
  {
    if hs == {} {
      top := 0;
    } else {
      var k :| k in hs;
      var below := Above(hs - {k});
      top := Max(below, k + 1);
      assert forall h | h in hs :: h == k || h in hs - {k};
    }
  }

  // ----- Paying twice -----

  /** A height that was paid and is pending again can be paid again. */
  lemma CanPayAgain(s0: State, s: State, w: nat, h: nat, quiet: set<nat>) returns (s': State)
    requires Follows(s0, s, quiet) && NoneSelected(s)
    requires w < |s.workers| && s.workers[w].Idle? && h in s.pending && Paid(s.db, h)
    ensures Follows(s0, s', quiet) && !LedgerDistinct(s'.db)
  {
    Onward(s0, s, Index(h), quiet);
    var m1 := Apply(s, Index(h));
    var m2 := CanStart(s0, m1, w, h, quiet);
    s' := CanPay(s0, m2, w, quiet);
    OnceMoreIsPaid(m2.db, s'.db, h);
  }

  /** A height that is both pending and in a goroutine's hands, at whatever
      stage, can be paid twice: another goroutine takes the pending one up, the
      holder fails and puts the other one back. */
  lemma TwoCopiesPayTwice(s0: State, s: State, v: nat, w: nat, h: nat, quiet: set<nat>) returns (s': State)
    requires Follows(s0, s, quiet) && NoneSelected(s)
    requires v < |s.workers| && w < |s.workers| && v != w
    requires s.workers[w].Idle? && h in s.pending && h in Holds(s.workers[v])
    ensures Follows(s0, s', quiet) && !LedgerDistinct(s'.db)
  {
    Onward(s0, s, Index(h), quiet);
    var m1 := Apply(s, Index(h));
    var m2 := CanStart(s0, m1, w, h, quiet);
    assert h in Holds(m2.workers[v]);
    var m3 := CanRetreat(s0, m2, v, quiet);
    assert m3.workers[w] == m2.workers[w];
    var m4 := CanPay(s0, m3, w, quiet);
    OnceMoreIsPaid(m3.db, m4.db, h);
    assert NoneSelected(m4);
    var m5 := CanRetreat(s0, m4, w, quiet);
    s' := CanPayAgain(s0, m5, w, h, quiet);
  }

  /** Rows that goroutine w has read and v holds one of: once added, it is
      pending and held. */
  lemma SelectedAndHeld(s0: State, s: State, v: nat, w: nat, h: nat, quiet: set<nat>) returns (s': State)
    requires Follows(s0, s, quiet)
    requires v < |s.workers| && w < |s.workers| && v != w
    requires s.workers[w].Selected? && h in s.workers[w].heights && h in Holds(s.workers[v])
    ensures Follows(s0, s', quiet) && !LedgerDistinct(s'.db)
  {
    var m1 := CanAdd(s0, s, |s.workers|, quiet);
    assert NoneSelected(m1);
    var m2 := CanRetreat(s0, m1, w, quiet);
    s' := TwoCopiesPayTwice(s0, m2, v, w, h, quiet);
  }

  lemma AnnouncedPaysTwice(s: State, w: nat, h: nat, quiet: set<nat>) returns (s': State)
    requires Enabled(s, Announce(w, h)) && (Held(s, h) || Paid(s.db, h))
    ensures Follows(Apply(s, Announce(w, h)), s', quiet) && !LedgerDistinct(s'.db)
  {
    var m := Apply(s, Announce(w, h));
    Remain(m, quiet);
    var m1 := CanAdd(m, m, |m.workers|, quiet);
    assert NoneSelected(m1);
    var m2 := CanRetreat(m, m1, w, quiet);
    if Held(s, h) {
      var v :| 0 <= v < |s.workers| && h in Holds(s.workers[v]);
      assert v != w && m2.workers[v] == s.workers[v];
      s' := TwoCopiesPayTwice(m, m2, v, w, h, quiet);
    } else {
      s' := CanPayAgain(m, m2, w, h, quiet);
    }
  }

  /** A row filled with a reward but no hash is paid, recovered and paid again. */
  lemma UnnamedPaysTwice(s: State, w: nat, answer: BlockAnswer, quiet: set<nat>) returns (s': State)
    requires Enabled(s, GetBlock(w, answer, true)) && answer.Block? && answer.hash == "" && answer.reward != 0
    requires s.workers[w].height in UnprocessedHeights(s.db)
    ensures Follows(Apply(s, GetBlock(w, answer, true)), s', quiet) && !LedgerDistinct(s'.db)
  {
    var h := s.workers[w].height;
    var m := Apply(s, GetBlock(w, answer, true));
    Remain(m, quiet);
    assert m.workers[w] == s.workers[w].(stage := AtExtract(""));
    var m1 := CanPayFilled(m, m, w, quiet);
    OnceMoreIsPaid(m.db, m1.db, h);
    s' := RecoveredPaysTwice(m, m1, w, h, quiet);
  }

  /** A paid row that still looks unprocessed is recovered and paid again. */
  lemma RecoveredPaysTwice(s0: State, s: State, w: nat, h: nat, quiet: set<nat>) returns (s': State)
    requires Follows(s0, s, quiet) && w < |s.workers|
    requires Paid(s.db, h) && h in UnprocessedHeights(s.db)
    ensures Follows(s0, s', quiet) && !LedgerDistinct(s'.db)
  {
    var m1 := CanAdd(s0, s, |s.workers|, quiet);
    assert NoneSelected(m1);
    var m2 := CanRest(s0, m1, |m1.workers|, quiet);
    Onward(s0, m2, SelectRows(w), quiet);
    var m3 := Apply(m2, SelectRows(w));
    assert m3.workers[w] == Selected(UnprocessedHeights(s.db));
    var m4 := CanAdd(s0, m3, |m3.workers|, quiet);
    assert NoneSelected(m4);
    var m5 := CanRetreat(s0, m4, w, quiet);
    s' := CanPayAgain(s0, m5, w, h, quiet);
  }

  /** Every way of leaving the discipline pays twice: after any undisciplined
      step some run, itself disciplined from then on, commits two batches for
      one height. */
  lemma IndisciplinePaysTwice(s: State, e: Step, quiet: set<nat>) returns (s': State)
    requires Enabled(s, e) && !Disciplined(s, e)
    ensures Follows(Apply(s, e), s', quiet) && !LedgerDistinct(s'.db)
  {
    var m := Apply(s, e);
    Remain(m, quiet);
    match e {
      case Announce(w, h) =>
        s' := AnnouncedPaysTwice(s, w, h, quiet);
      case SelectRows(w) =>
        var h :| h in UnprocessedHeights(s.db) && Held(s, h);
        var v :| 0 <= v < |s.workers| && h in Holds(s.workers[v]);
        assert m.workers[v] == s.workers[v];
        s' := SelectedAndHeld(m, m, v, w, h, quiet);
      case Take(w, order) =>
        var v, h :| 0 <= v < |s.workers| && s.workers[v].Selected? && h in order && h in s.workers[v].heights;
        assert m.workers[v] == s.workers[v] && h in Holds(m.workers[w]);
        s' := SelectedAndHeld(m, m, w, v, h, quiet);
      case GetBlock(w, answer, _) =>
        s' := UnnamedPaysTwice(s, w, answer, quiet);
      case _ =>
    }
  }

  /** At-most-once pay, exactly: from a state with the invariant, a step is safe,
      in that no disciplined run after it pays any height twice, if and only if
      it is disciplined. */
  lemma DisciplineIsExact(s: State, e: Step)
    requires Inv(s) && Enabled(s, e)
    ensures Disciplined(s, e) <==> forall s' | Follows(Apply(s, e), s', {}) :: LedgerDistinct(s'.db)
    ensures Disciplined(s, e) <==> Inv(Apply(s, e))
  {
    if Disciplined(s, e) {
      InvStep(s, e);
      forall s' | Follows(Apply(s, e), s', {}) ensures LedgerDistinct(s'.db) {
        FollowsKeepsInv(Apply(s, e), s', {});
      }
    } else {
      var s' := IndisciplinePaysTwice(s, e, {});
      if Inv(Apply(s, e)) {
        FollowsKeepsInv(Apply(s, e), s', {});
        assert false;
      }
    }
  }

  /** Announcing a height after it was paid can pay it again: from every state
      with a paid height and an idle goroutine, some run does. */
  lemma AnnouncedAfterPaid(s: State, w: nat, h: nat) returns (s': State)
    requires w < |s.workers| && s.workers[w].Idle? && Paid(s.db, h)
    ensures Leads(s, s', {}) && !LedgerDistinct(s'.db)
  {
    s' := IndisciplinePaysTwice(s, Announce(w, h), {});
    LeadsOn(s, Announce(w, h), s', {});
  }

  /** Recovery that overlaps a block in flight can pay it twice: from every
      state where one goroutine holds a row not yet backfilled, at whatever
      stage, and another one is idle, some run does, although it announces none
      of the quiet heights. */
  lemma RecoveryOverlapsFlight(s: State, v: nat, w: nat, h: nat, quiet: set<nat>) returns (s': State)
    requires v < |s.workers| && w < |s.workers| && v != w
    requires s.workers[w].Idle?
    requires h in Holds(s.workers[v]) && h in UnprocessedHeights(s.db)
    ensures Leads(s, s', quiet) && !LedgerDistinct(s'.db)
  {
    assert Held(s, h);
    s' := IndisciplinePaysTwice(s, SelectRows(w), quiet);
    LeadsOn(s, SelectRows(w), s', quiet);
  }

  // ----- The crash window -----

  /** h is found and backfilled, but nothing in memory remembers it. */
  ghost predicate Forgotten(s: State, h: nat) {
    && Final(s.db, h) && !Paid(s.db, h) && h !in s.pending && !Held(s, h)
    && forall v | 0 <= v < |s.workers| && s.workers[v].Selected? :: h !in s.workers[v].heights
  }

  lemma ForgottenStep(s: State, e: Step, h: nat)
    requires Forgotten(s, h) && Enabled(s, e) && (e.Announce? ==> e.h != h)
    ensures Forgotten(Apply(s, e), h)
  {
    var s' := Apply(s, e);
    NotHeldAfter(s, e, h);
    if e.Record? || e.Requeue? {
      assert Holds(s.workers[e.w])[0] == s.workers[e.w].height;
      assert Held(s, s.workers[e.w].height);
    }
  }

  lemma {:induction false} ForgottenForever(s: State, es: seq<Step>, h: nat)
    requires Forgotten(s, h) && IsRun(s, es) && Quiet(es, {h})
    ensures Forgotten(Run(s, es), h)
    decreases |es|
  {
    if es == [] {
    } else {
      var n := |es| - 1;
      assert Quiet(es[..n], {h});
      ForgottenForever(s, es[..n], h);
      ForgottenStep(Run(s, es[..n]), es[n], h);
    }
  }

  /** After a crash, an unpaid found block whose height is not announced again
      can still be paid exactly when its row was not backfilled yet: a crash
      between the backfill and the ledger write loses the payment for good. */
  lemma CrashWindow(s: State, h: nat)
    requires |s.workers| > 0 && h in s.db.blocks && !Paid(s.db, h)
    ensures (exists s' :: Leads(Apply(s, Crash), s', {h}) && Paid(s'.db, h))
            <==> Unprocessed(s.db.blocks[h])
  {
    var c := Apply(s, Crash);
    if Unprocessed(s.db.blocks[h]) {
      var s' := CanRecover(c, h);
    } else {
      assert Forgotten(c, h);
      forall s' | Leads(c, s', {h}) ensures !Paid(s'.db, h) {
        var es :| IsRun(c, es) && Run(c, es) == s' && Quiet(es, {h});
        ForgottenForever(c, es, h);
      }
    }
  }

  /** A backfilled block ends without payment, though nothing fails: it is an
      orphan by now, its first transaction is no coinbase, no miner is known, or
      the pool's hashrate reads zero. */
  predicate EndsUnpaid(s: State, e: Step)
    requires IsProcessing(e) && e.w < |s.workers| && s.workers[e.w].Processing?
  {
    match e
    case GetBlock(_, answer, _) => answer.Orphan?
    case Extract(w, tx, rates) =>
      && tx.Tx?
      && (IsCoinbase(tx.vin, s.workers[w].height) ==> rates.Rates? && (rates.total == 0 || rates.miners == map[]))
    case _ => false
  }

  /** A found block is also forgotten without a crash, exactly when it is already
      backfilled and processing ends unpaid: success is reported, and no later
      run pays it unless its height is announced again. */
  lemma SuccessForgets(s: State, e: Step)
    requires Inv(s) && Enabled(s, e) && IsProcessing(e)
    ensures Forgotten(Apply(s, e), s.workers[e.w].height)
            <==> Final(s.db, s.workers[e.w].height) && EndsUnpaid(s, e)
  {
    if Apply(s, e).workers[e.w].Working? {
      ReleasedIsForgotten(s, e);
      ReturnsUnpaid(s, e);
    } else {
      HeldOnIsNotForgotten(s, e);
    }
  }

  /** A height released by the goroutine is forgotten when it is final and unpaid. */
  lemma ReleasedIsForgotten(s: State, e: Step)
    requires Inv(s) && Enabled(s, e) && IsProcessing(e) && Apply(s, e).workers[e.w].Working?
    ensures var h, s' := s.workers[e.w].height, Apply(s, e);
            Forgotten(s', h) <==> Final(s'.db, h) && !Paid(s'.db, h)
  {
    assert Holds(s.workers[e.w])[0] == s.workers[e.w].height;
    assert Held(s, s.workers[e.w].height);
    ReleasedNotHeld(s, e);
  }

  lemma ReturnsUnpaid(s: State, e: Step)
    requires Inv(s) && Enabled(s, e) && IsProcessing(e) && Apply(s, e).workers[e.w].Working?
    ensures var h, db' := s.workers[e.w].height, Apply(s, e).db;
            Final(db', h) && !Paid(db', h) <==> Final(s.db, h) && EndsUnpaid(s, e)
  {
    var pc := s.workers[e.w];
    assert Holds(pc)[0] == pc.height && Held(s, pc.height);
    if e.Extract? {
      if Final(s.db, pc.height) {
        ExtractNobody(s, e);
      }
    } else if e.Record? {
      assert Apply(s, e).db.ledger[|s.db.ledger|].height == pc.height;
    }
  }

  lemma ExtractNobody(s: State, e: Step)
    requires Enabled(s, e) && e.Extract? && s.workers[e.w].height in s.db.blocks
    requires s.db.blocks[s.workers[e.w].height].reward != 0
    ensures Apply(s, e).workers[e.w].Working? <==> EndsUnpaid(s, e)
  {
    var pc := s.workers[e.w];
    if e.rates.Rates? {
      NobodyPaid(e.rates.order, e.rates.miners, s.db.blocks[pc.height].reward, e.rates.total, pc.height,
                 pc.stage.hash);
    }
  }

  lemma HeldOnIsNotForgotten(s: State, e: Step)
    requires Enabled(s, e) && IsProcessing(e) && !Apply(s, e).workers[e.w].Working?
    ensures !Forgotten(Apply(s, e), s.workers[e.w].height)
    ensures !(Final(s.db, s.workers[e.w].height) && EndsUnpaid(s, e))
  {
    var h, s' := s.workers[e.w].height, Apply(s, e);
    assert Holds(s'.workers[e.w])[0] == h && Held(s', h);
    if e.Extract? && Final(s.db, h) {
      ExtractNobody(s, e);
    }
  }

  lemma CanRecover(c: State, h: nat) returns (s': State)
    requires |c.workers| > 0 && h in UnprocessedHeights(c.db)
    requires forall v | 0 <= v < |c.workers| :: c.workers[v].Idle?
    ensures Leads(c, s', {h}) && Paid(s'.db, h)
  {
    Remain(c, {h});
    Onward(c, c, SelectRows(0), {h});
    var m1 := Apply(c, SelectRows(0));
    assert m1.workers[0] == Selected(UnprocessedHeights(c.db));
    Onward(c, m1, AddSelected(0), {h});
    var m2 := Apply(m1, AddSelected(0));
    assert m2.workers[0] == NeedTip && h in m2.pending;
    var e := FetchTip(0, Some(h + c.depth));
    Onward(c, m2, e, {h});
    var m3 := Apply(m2, e);
    assert m3.workers[0] == Checking(h + c.depth);
    var m4 := CanTakeUp(c, m3, 0, h, {h});
    s' := CanPay(c, m4, 0, {h});
    OnceMoreIsPaid(m4.db, s'.db, h);
  }
}
