/** The six phases against the one-pass rule; pruning again and again. */
module RetentionProofs {
  import opened Prelude
  import opened Tiers
  import opened Retention

  /** Subscriptions as phases 4 to 6 see them. */
  function SubsAfter(st: Store, cal: Calendar, now: int, clock: int): map<Address, Subscription> {
    map a | a in st.subs :: HoldAt(st, cal, now, clock, a)
  }

  lemma GrantedAndCleared(st: Store, cal: Calendar, now: int, clock: int)
    ensures ClearHolds(GrantHolds(PurgeDeleted(st), cal, Year(cal, now) - 1, clock))
            == PurgeDeleted(st).(subs := SubsAfter(st, cal, now, clock))
  {
    var year := Year(cal, now) - 1;
    var p := PurgeDeleted(st);
    var subs := ClearHolds(GrantHolds(p, cal, year, clock)).subs;
    forall a | a in st.subs ensures subs[a] == HoldAt(st, cal, now, clock, a) {
      if !IsDeleted(st.subs, a) {
        assert HasPaymentIn(p.payments, a, cal, year) == HasPaymentIn(st.payments, a, cal, year) by {
          if HasPaymentIn(st.payments, a, cal, year) {
            var q :| q in st.payments && q.miner == a && Year(cal, q.at) == year;
            assert q in p.payments;
          }
        }
      }
    }
  }

  /** Neither phase 2 nor phase 3 touches the grace period. */
  lemma GraceAfter(st: Store, cal: Calendar, now: int, clock: int, a: Address, later: int)
    requires !IsDeleted(st.subs, a)
    ensures InGrace(SubsAfter(st, cal, now, clock), a, later) == InGrace(st.subs, a, later)
  {
  }

  lemma RowsSurvive(st: Store, rows: set<Row>, cal: Calendar, now: int, clock: int, freeClock: int, paidClock: int)
    ensures var kept := set r | r in rows && !IsDeleted(st.subs, r.miner);
            var subs := SubsAfter(st, cal, now, clock);
            PrunePaid(PruneFree(kept, subs, now - FREE_AGE, freeClock), subs, now - PAID_AGE, paidClock)
            == set r | r in rows && KeepsRowAt(st.subs, r, now, freeClock, paidClock)
  {
    forall r, t | r in rows && !IsDeleted(st.subs, r.miner)
      ensures InGrace(SubsAfter(st, cal, now, clock), r.miner, t) == InGrace(st.subs, r.miner, t)
    {
      GraceAfter(st, cal, now, clock, r.miner, t);
    }
  }

  lemma PaymentsSurvive(st: Store, cal: Calendar, now: int, grantClock: int, clock: int)
    ensures PrunePayments(PurgeDeleted(st).(subs := SubsAfter(st, cal, now, grantClock)), cal, now - FREE_AGE, clock)
            == set p | p in st.payments && KeepsPaymentAt(st, cal, p, now, grantClock, clock)
  {
    forall p | p in st.payments && !IsDeleted(st.subs, p.miner)
      ensures InGrace(SubsAfter(st, cal, now, grantClock), p.miner, clock) == InGrace(st.subs, p.miner, clock)
    {
      GraceAfter(st, cal, now, grantClock, p.miner, clock);
    }
  }

  /** Refinement of pruning: whatever instants the statements run at, the phases
      leave exactly the rows and flags of the one-pass rule for these instants. */
  lemma RealPruneIsSurvivors(st: Store, cal: Calendar, now: int, clocks: seq<int>)
    requires |clocks| == 7
    ensures PruneUpTo(st, cal, now, clocks, 7) == SurvivorsAt(st, cal, now, clocks)
  {
    var held := PurgeDeleted(st).(subs := SubsAfter(st, cal, now, clocks[0]));
    GrantedAndCleared(st, cal, now, clocks[0]);
    assert PruneUpTo(st, cal, now, clocks, 0) == PurgeDeleted(st);
    assert PruneUpTo(st, cal, now, clocks, 2) == held;
    var s3 := PruneUpTo(st, cal, now, clocks, 3);
    assert s3 == held.(shares := PruneFree(held.shares, held.subs, now - FREE_AGE, clocks[2]));
    var s4 := PruneUpTo(st, cal, now, clocks, 4);
    assert s4 == s3.(hashrates := PruneFree(held.hashrates, held.subs, now - FREE_AGE, clocks[3]));
    assert PrunePayments(s4, cal, now - FREE_AGE, clocks[4]) == PrunePayments(held, cal, now - FREE_AGE, clocks[4]);
    RowsSurvive(st, st.shares, cal, now, clocks[0], clocks[2], clocks[5]);
    RowsSurvive(st, st.hashrates, cal, now, clocks[0], clocks[3], clocks[6]);
    PaymentsSurvive(st, cal, now, clocks[0], clocks[4]);
    var s5 := PruneUpTo(st, cal, now, clocks, 5);
    assert s5 == s4.(payments := PrunePayments(held, cal, now - FREE_AGE, clocks[4]));
    assert PruneUpTo(st, cal, now, clocks, 6) ==
           s5.(shares := PrunePaid(s4.shares, held.subs, now - PAID_AGE, clocks[5]));
  }

  /** Run at one instant, they leave those of the rule with one age limit. */
  lemma PruneIsSurvivors(st: Store, cal: Calendar, now: int)
    ensures Prune(st, cal, now) == Survivors(st, cal, now)
  {
    var clocks := [now, now, now, now, now, now, now];
    RealPruneIsSurvivors(st, cal, now, clocks);
    NoLapseIsOneInstant(st, cal, now, clocks);
  }

  /** The miner asked for deletion. */
  predicate AskedForDeletion(st: Store, a: Address) {
    a in st.subs && st.subs[a].deletedAt.Some?
  }

  /** The miner's grace period is still running, be it in its paid time or after. */
  predicate GraceRuns(st: Store, a: Address, now: int) {
    a in st.subs && st.subs[a].graceUntil.Some? && now < st.subs[a].graceUntil.value
  }

  /** The rule in plain numbers: shares and hashrates are kept for 30 days of 86400
      seconds, 450 days while the grace period runs; payments for 30 days, without
      limit while it runs, and while their year is held with downloads left. */
  lemma PruneInNumbers(st: Store, cal: Calendar, now: int)
    ensures var after := Prune(st, cal, now);
            && (forall r :: r in after.shares <==>
                  && r in st.shares && !AskedForDeletion(st, r.miner)
                  && r.at >= now - (if GraceRuns(st, r.miner, now) then 38_880_000 else 2_592_000))
            && (forall r :: r in after.hashrates <==>
                  && r in st.hashrates && !AskedForDeletion(st, r.miner)
                  && r.at >= now - (if GraceRuns(st, r.miner, now) then 38_880_000 else 2_592_000))
            && (forall p :: p in after.payments <==>
                  && p in st.payments && !AskedForDeletion(st, p.miner)
                  && (|| p.at >= now - 2_592_000
                      || GraceRuns(st, p.miner, now)
                      || (&& p.miner in after.subs && after.subs[p.miner].heldYear == Some(Year(cal, p.at))
                          && after.subs[p.miner].exportsLeft.Some? && 0 < after.subs[p.miner].exportsLeft.value)))
            && (forall r :: r in after.subPayments <==> r in st.subPayments && !AskedForDeletion(st, r.miner))
  {
    PruneIsSurvivors(st, cal, now);
  }

  /** Last year's payments are held for a miner exactly when its grace period is
      over, it holds no year, was not deleted and has a payment of that year; it
      then gets two downloads. A hold without downloads left is given up; every
      other one stays. */
  lemma HoldsInNumbers(st: Store, cal: Calendar, now: int, a: Address)
    requires a in st.subs && st.subs[a].deletedAt.None?
    ensures var s, lastYear := st.subs[a], Year(cal, now) - 1;
            var granted := s.graceUntil.Some? && s.graceUntil.value <= now && s.heldYear.None?
                           && exists p :: p in st.payments && p.miner == a && Year(cal, p.at) == lastYear;
            var usedUp := s.exportsLeft.Some? && s.exportsLeft.value <= 0;
            Prune(st, cal, now).subs.Keys == st.subs.Keys
            && Prune(st, cal, now).subs[a] ==
               if granted then s.(heldYear := Some(lastYear), exportsLeft := Some(2))
               else if usedUp then s.(heldYear := None, exportsLeft := None)
               else s
  {
    PruneIsSurvivors(st, cal, now);
    assert HasPaymentIn(st.payments, a, cal, Year(cal, now) - 1)
           == exists p :: p in st.payments && p.miner == a && Year(cal, p.at) == Year(cal, now) - 1;
  }

  /** A deletion takes effect at once: nothing of the miner is left but its row,
      marked and reset to the free tier; nobody else notices. */
  lemma DeleteTakesAll(st: Store, a: Address, now: int)
    ensures var after := Delete(st, a, now);
            && (forall r :: r in after.shares <==> r in st.shares && r.miner != a)
            && (forall r :: r in after.hashrates <==> r in st.hashrates && r.miner != a)
            && (forall p :: p in after.payments <==> p in st.payments && p.miner != a)
            && (forall r :: r in after.subPayments <==> r in st.subPayments && r.miner != a)
            && after.subs.Keys == st.subs.Keys
            && (forall b | b in st.subs && b != a :: after.subs[b] == st.subs[b])
            && (a in st.subs ==>
                  after.subs[a] == Subscription(Free, None, None, None, st.subs[a].contribution, None, None, None,
                                                Some(now)))
  {
  }

  /** No grace period ends between the instants the statements run at. */
  ghost predicate NoLapse(subs: map<Address, Subscription>, now: int, clocks: seq<int>) {
    forall a, i | a in subs && 0 <= i < |clocks| :: InGrace(subs, a, clocks[i]) == InGrace(subs, a, now)
  }

  /** Then the clocks do not matter. */
  lemma NoLapseIsOneInstant(st: Store, cal: Calendar, now: int, clocks: seq<int>)
    requires |clocks| == 7 && NoLapse(st.subs, now, clocks)
    ensures SurvivorsAt(st, cal, now, clocks) == Survivors(st, cal, now)
  {
    forall a, i | 0 <= i < 7 ensures InGrace(st.subs, a, clocks[i]) == InGrace(st.subs, a, now) {
    }
    forall a | a in st.subs ensures HoldAt(st, cal, now, clocks[0], a) == HoldAfter(st, cal, now, a) {
      assert InGrace(st.subs, a, clocks[0]) == InGrace(st.subs, a, now);
    }
  }

  /** A payment is lost to the clocks, that is, deleted by the real prune although
      a prune at the instant of phase 5 would keep it, exactly when it is an old
      one of last year and its miner, holding no year, lapses after phase 2 and
      not after phase 5. */
  lemma LapseInsidePruneLosesPayment(st: Store, cal: Calendar, now: int, clocks: seq<int>, p: Payment)
    requires |clocks| == 7 && now <= clocks[0] <= clocks[4] && Year(cal, clocks[4]) == Year(cal, now)
    requires p in st.payments && p.miner in st.subs && st.subs[p.miner].deletedAt.None?
    ensures p !in PruneUpTo(st, cal, now, clocks, 7).payments && p in Prune(st, cal, clocks[4]).payments
            <==> var s := st.subs[p.miner];
                 && p.at < now - FREE_AGE && Year(cal, p.at) == Year(cal, now) - 1
                 && s.heldYear.None? && s.graceUntil.Some? && clocks[0] < s.graceUntil.value <= clocks[4]
  {
    RealPruneIsSurvivors(st, cal, now, clocks);
    PruneIsSurvivors(st, cal, clocks[4]);
    if Year(cal, p.at) == Year(cal, now) - 1 {
      assert HasPaymentIn(st.payments, p.miner, cal, Year(cal, now) - 1);
    }
  }

  // ----- Failures in phase 1 and in the delete handler -----

  /** What a failure leaves undone: tables are purged in the order shares,
      hashrates, payments, subscription payments, subscription. */
  lemma PurgedInOrder(st: Store, a: Address, j: nat)
    ensures var m := PurgePartly(st, a, j);
            && (j < 1 ==> m.shares == st.shares) && (j < 2 ==> m.hashrates == st.hashrates)
            && (j < 3 ==> m.payments == st.payments) && (j < 4 ==> m.subPayments == st.subPayments)
            && (j < 5 ==> m.subs == st.subs)
  {
  }

  /** After phase 1 the flags come first, then free shares, free hashrates and
      payments, then paid shares and hashrates. */
  lemma {:induction false} PrunedInOrder(st: Store, cal: Calendar, now: int, clocks: Clocks, k: nat)
    requires k <= 7
    ensures var m, purged := PruneUpTo(st, cal, now, clocks, k), PurgeDeleted(st);
            && (k <= 2 ==> m.shares == purged.shares) && (k <= 3 ==> m.hashrates == purged.hashrates)
            && (k <= 4 ==> m.payments == purged.payments) && m.subPayments == purged.subPayments
            && (k == 0 ==> m.subs == purged.subs)
            && (2 <= k ==> m.subs == PruneAt(st, cal, now, clocks).subs)
            && (5 <= k ==> m.payments == PruneAt(st, cal, now, clocks).payments)
  {
    assert PruneUpTo(st, cal, now, clocks, 6).subs == PruneUpTo(st, cal, now, clocks, 7).subs;
    assert PruneUpTo(st, cal, now, clocks, 5).subs == PruneUpTo(st, cal, now, clocks, 6).subs;
    assert PruneUpTo(st, cal, now, clocks, 4).subs == PruneUpTo(st, cal, now, clocks, 5).subs;
    assert PruneUpTo(st, cal, now, clocks, 3).subs == PruneUpTo(st, cal, now, clocks, 4).subs;
    assert PruneUpTo(st, cal, now, clocks, 2).subs == PruneUpTo(st, cal, now, clocks, 3).subs;
    assert PruneUpTo(st, cal, now, clocks, 5).payments == PruneUpTo(st, cal, now, clocks, 6).payments;
    if k == 0 {
    } else {
      PrunedInOrder(st, cal, now, clocks, k - 1);
    }
  }

  /** Phase 1 of the next prune makes up for an interrupted one: it, and the rest
      of that prune, leave what they would have left without the interruption. */
  lemma {:induction false} InterruptionIsRepaired(st: Store, st': Store, cal: Calendar, now: int, clocks: seq<int>,
                                                  k: nat)
    requires InterruptedPurge(st, st') && |clocks| == 7 && k <= 7
    ensures PruneUpTo(st', cal, now, clocks, k) == PruneUpTo(st, cal, now, clocks, k)
  {
    if k == 0 {
      var gone, a, j: nat :| IsInterruptedAt(st, st', gone, a, j);
      PurgedTwice(st, gone, a, j);
    } else {
      InterruptionIsRepaired(st, st', cal, now, clocks, k - 1);
    }
  }

  lemma PurgedTwice(st: Store, gone: set<Address>, a: Address, j: nat)
    requires gone <= Deleted(st) && (0 < j ==> a in Deleted(st))
    ensures PurgeDeleted(PurgePartly(PurgedSoFar(st, gone), a, j)) == PurgeDeleted(st)
  {
    SamePurge(PurgePartly(PurgedSoFar(st, gone), a, j), st);
  }

  /** Deletes of the handler that fail are made up for in the same way, exactly
      for miners that have a subscription to carry the mark. */
  lemma FailedDeletesAreRepaired(st: Store, a: Address, now: int, calls: DeleteCalls)
    requires calls.markOk
    ensures PurgeDeleted(DeleteWith(st, a, now, calls)) == PurgeDeleted(Delete(st, a, now))
            <==> a in st.subs || NothingMissed(st, a, calls.failed)
  {
    if a in st.subs {
      MarkedIsRepaired(st, a, now, calls);
    } else if !NothingMissed(st, a, calls.failed) {
      UnmarkedIsNot(st, a, now, calls);
    }
  }

  lemma MarkedIsRepaired(st: Store, a: Address, now: int, calls: DeleteCalls)
    requires calls.markOk && a in st.subs
    ensures PurgeDeleted(DeleteWith(st, a, now, calls)) == PurgeDeleted(Delete(st, a, now))
  {
    SamePurge(DeleteWith(st, a, now, calls), Delete(st, a, now));
  }

  /** Stores alike in the marks, and in everything of the unmarked miners. */
  ghost predicate AlikeButDeleted(st: Store, st': Store) {
    && st.subs.Keys == st'.subs.Keys
    && (forall b | b in st.subs :: IsDeleted(st.subs, b) == IsDeleted(st'.subs, b)
                                   && ResetToFree(st.subs[b]) == ResetToFree(st'.subs[b])
                                   && (!IsDeleted(st.subs, b) ==> st.subs[b] == st'.subs[b]))
    && (forall r: Row | !IsDeleted(st.subs, r.miner) :: r in st.shares <==> r in st'.shares)
    && (forall r: Row | !IsDeleted(st.subs, r.miner) :: r in st.hashrates <==> r in st'.hashrates)
    && (forall p: Payment | !IsDeleted(st.subs, p.miner) :: p in st.payments <==> p in st'.payments)
    && (forall r: Row | !IsDeleted(st.subs, r.miner) :: r in st.subPayments <==> r in st'.subPayments)
  }

  lemma SamePurge(st: Store, st': Store)
    requires AlikeButDeleted(st, st')
    ensures PurgeDeleted(st) == PurgeDeleted(st')
  {
    assert forall b :: IsDeleted(st.subs, b) == IsDeleted(st'.subs, b);
    assert PurgeDeleted(st).subs == PurgeDeleted(st').subs;
  }

  lemma UnmarkedIsNot(st: Store, a: Address, now: int, calls: DeleteCalls)
    requires calls.markOk && a !in st.subs && !NothingMissed(st, a, calls.failed)
    ensures PurgeDeleted(DeleteWith(st, a, now, calls)) != PurgeDeleted(Delete(st, a, now))
  {
    var partly, fully := PurgeDeleted(DeleteWith(st, a, now, calls)), PurgeDeleted(Delete(st, a, now));
    if r :| r in st.shares && r.miner == a && 0 in calls.failed {
      assert r in partly.shares && r !in fully.shares;
    } else if r :| r in st.hashrates && r.miner == a && 1 in calls.failed {
      assert r in partly.hashrates && r !in fully.hashrates;
    } else if p :| p in st.payments && p.miner == a && 2 in calls.failed {
      assert p in partly.payments && p !in fully.payments;
    } else {
      var r :| r in st.subPayments && r.miner == a && 3 in calls.failed;
      assert r in partly.subPayments && r !in fully.subPayments;
    }
  }

  /** The deletes that failed had nothing to delete. */
  ghost predicate NothingMissed(st: Store, a: Address, failed: set<nat>) {
    && (0 in failed ==> forall r | r in st.shares :: r.miner != a)
    && (1 in failed ==> forall r | r in st.hashrates :: r.miner != a)
    && (2 in failed ==> forall p | p in st.payments :: p.miner != a)
    && (3 in failed ==> forall r | r in st.subPayments :: r.miner != a)
  }

  // ----- Pruning again and again -----

  /** The parts of the flags that decide about shares and hashrates. */
  ghost predicate SameView(subs: map<Address, Subscription>, subs': map<Address, Subscription>) {
    && subs.Keys == subs'.Keys
    && forall a | a in subs ::
         && subs'[a].deletedAt == subs[a].deletedAt
         && (subs[a].deletedAt.None? ==> subs'[a].graceUntil == subs[a].graceUntil)
  }

  lemma PruneKeepsView(st: Store, cal: Calendar, now: int)
    ensures SameView(st.subs, Prune(st, cal, now).subs)
  {
    PruneIsSurvivors(st, cal, now);
  }

  lemma ViewDecides(subs: map<Address, Subscription>, subs': map<Address, Subscription>, r: Row, t1: int, t2: int)
    requires SameView(subs, subs') && t1 <= t2
    ensures KeepsRow(subs', r, t2) == KeepsRow(subs, r, t2)
    ensures KeepsRow(subs, r, t2) ==> KeepsRow(subs, r, t1)
  {
  }

  function PruneChain(st: Store, cal: Calendar, times: seq<int>): Store {
    if times == [] then st else Prune(PruneChain(st, cal, times[..|times| - 1]), cal, times[|times| - 1])
  }

  ghost predicate Ascending(times: seq<int>) {
    forall i, j | 0 <= i < j < |times| :: times[i] <= times[j]
  }

  lemma {:induction false} ChainKeepsView(st: Store, cal: Calendar, times: seq<int>)
    ensures SameView(st.subs, PruneChain(st, cal, times).subs)
  {
    if times == [] {
    } else {
      var before := times[..|times| - 1];
      ChainKeepsView(st, cal, before);
      PruneKeepsView(PruneChain(st, cal, before), cal, times[|times| - 1]);
    }
  }

  /** With the subscriptions otherwise left alone, any chain of prunes leaves the
      shares and hashrates its last prune alone would have left. */
  lemma {:induction false} ChainIsLastPrune(st: Store, cal: Calendar, times: seq<int>)
    requires times != [] && Ascending(times)
    ensures PruneChain(st, cal, times).shares == Prune(st, cal, times[|times| - 1]).shares
    ensures PruneChain(st, cal, times).hashrates == Prune(st, cal, times[|times| - 1]).hashrates
  {
    var n := |times| - 1;
    var last := times[n];
    var m := PruneChain(st, cal, times[..n]);
    PruneIsSurvivors(m, cal, last);
    PruneIsSurvivors(st, cal, last);
    ChainKeepsView(st, cal, times[..n]);
    if n == 0 {
      assert m == st;
    } else {
      var prev := times[n - 1];
      ChainIsLastPrune(st, cal, times[..n]);
      PruneIsSurvivors(st, cal, prev);
      forall r: Row ensures KeepsRow(m.subs, r, last) == KeepsRow(st.subs, r, last)
                    ensures KeepsRow(st.subs, r, last) ==> KeepsRow(st.subs, r, prev) {
        ViewDecides(st.subs, m.subs, r, prev, last);
      }
    }
  }
}
