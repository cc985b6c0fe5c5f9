/** The scanner object's calls are runs of the goroutine machine: what the
    machine keeps, the object keeps. */
module ScannerRefinement {
  import opened Prelude
  import opened BlockStore
  import opened ScannerMachine
  import opened CoinbaseScanner

  /** s' is s with goroutine w at pc and the given pending set and database. */
  ghost predicate Moved(s: State, s': State, w: nat, pc: Pc, pending: set<nat>, db: Db) {
    && w < |s.workers| && s'.workers == s.workers[w := pc]
    && s'.depth == s.depth && s'.pending == pending && s'.db == db
  }

  /** One block of the loop in checkConfirmations. */
  lemma BlockIsRun(s0: State, s: State, w: nat, a: Answers) returns (s': State)
    requires Leads(s0, s, {}) && ValidRates(a.rates)
    requires w < |s.workers| && s.workers[w].Working? && s.workers[w].todo != []
    ensures Leads(s0, s', {})
    ensures var h := s.workers[w].todo[0];
            var (db, ok) := ProcessFrom(s.db, h, AtExists, a);
            Moved(s, s', w, Working(s.workers[w].tip, s.workers[w].todo[1..]),
                  if ok then s.pending else s.pending + {h}, db)
  {
    var tip, h, rest := s.workers[w].tip, s.workers[w].todo[0], s.workers[w].todo[1..];
    Then(s0, s, Begin(w), {});
    var m := Apply(s, Begin(w));
    var e := CheckExists(w, a.readOk);
    Then(s0, m, e, {});
    var m1 := Apply(m, e);
    if m1.workers[w].Processing? {
      m1 := FromBackfill(s0, m1, w, a);
    }
    s' := GiveUp(s0, m1, w);
  }

  lemma FromBackfill(s0: State, s: State, w: nat, a: Answers) returns (s': State)
    requires Leads(s0, s, {}) && ValidRates(a.rates)
    requires w < |s.workers| && s.workers[w].Processing? && s.workers[w].stage.AtBackfill?
    ensures Leads(s0, s', {})
    ensures var pc := s.workers[w];
            var (db, ok) := ProcessFrom(s.db, pc.height, AtBackfill, a);
            Moved(s, s', w, if ok then Working(pc.tip, pc.todo) else Failing(pc.tip, pc.height, pc.todo),
                  s.pending, db)
  {
    var e := GetBlock(w, a.block, a.updateOk);
    Then(s0, s, e, {});
    s' := Apply(s, e);
    if s'.workers[w].Processing? {
      s' := FromExtract(s0, s', w, a);
    }
  }

  lemma FromExtract(s0: State, s: State, w: nat, a: Answers) returns (s': State)
    requires Leads(s0, s, {}) && ValidRates(a.rates)
    requires w < |s.workers| && s.workers[w].Processing? && s.workers[w].stage.AtExtract?
    ensures Leads(s0, s', {})
    ensures var pc := s.workers[w];
            var (db, ok) := ProcessFrom(s.db, pc.height, pc.stage, a);
            Moved(s, s', w, if ok then Working(pc.tip, pc.todo) else Failing(pc.tip, pc.height, pc.todo),
                  s.pending, db)
  {
    var e := Extract(w, a.tx, a.rates);
    Then(s0, s, e, {});
    s' := Apply(s, e);
    if s'.workers[w].Processing? {
      var e' := Record(w, WriteOk(a, s'.workers[w].stage.payments));
      Then(s0, s', e', {});
      s' := Apply(s', e');
    }
  }

  lemma GiveUp(s0: State, s: State, w: nat) returns (s': State)
    requires Leads(s0, s, {})
    requires w < |s.workers| && (s.workers[w].Failing? || s.workers[w].Working?)
    ensures Leads(s0, s', {})
    ensures var pc := s.workers[w];
            Moved(s, s', w, Working(pc.tip, pc.todo), if pc.Failing? then s.pending + {pc.height} else s.pending, s.db)
  {
    s' := s;
    if s.workers[w].Failing? {
      Then(s0, s, Requeue(w), {});
      s' := Apply(s, Requeue(w));
    }
  }

  /** The first i blocks of the loop. */
  lemma {:induction false} LoopIsRun(s0: State, s: State, w: nat, order: seq<nat>, world: World, i: nat)
    returns (s': State)
    requires Leads(s0, s, {}) && ValidWorld(world) && i <= |order|
    requires w < |s.workers| && s.workers[w].Working? && s.workers[w].todo == order
    ensures Leads(s0, s', {})
    ensures Moved(s, s', w, Working(s.workers[w].tip, order[i..]),
                  s.pending + Failures(s.db, order[..i], world), ProcessAll(s.db, order[..i], world))
  {
    if i == 0 {
      s' := s;
    } else {
      var m := LoopIsRun(s0, s, w, order, world, i - 1);
      s' := BlockIsRun(s0, m, w, world(order[i - 1]));
      assert order[..i][..i - 1] == order[..i - 1] && order[i - 1..][1..] == order[i..];
    }
  }

  /** HandleNewBlock, as its contract states it, is a run of the machine by one
      goroutine that others leave alone meanwhile. */
  lemma HandleNewBlockIsRun(s: State, w: nat, height: nat, order: seq<nat>, world: World) returns (s': State)
    requires w < |s.workers| && s.workers[w].Idle? && ValidWorld(world)
    requires IsOrder(order, Confirmed(s.pending + {height}, height, s.depth))
    ensures Leads(s, s', {})
    ensures var pending := s.pending + {height};
            Moved(s, s', w, Idle, pending - Confirmed(pending, height, s.depth) + Failures(s.db, order, world),
                  ProcessAll(s.db, order, world))
  {
    Stay(s, {});
    Then(s, s, Announce(w, height), {});
    var m := Apply(s, Announce(w, height));
    s' := CheckIsRun(s, m, w, order, world);
  }

  lemma CheckIsRun(s0: State, s: State, w: nat, order: seq<nat>, world: World) returns (s': State)
    requires Leads(s0, s, {}) && ValidWorld(world)
    requires w < |s.workers| && s.workers[w].Checking?
    requires IsOrder(order, Confirmed(s.pending, s.workers[w].tip, s.depth))
    ensures Leads(s0, s', {})
    ensures Moved(s, s', w, Idle,
                  s.pending - Confirmed(s.pending, s.workers[w].tip, s.depth) + Failures(s.db, order, world),
                  ProcessAll(s.db, order, world))
  {
    Then(s0, s, Take(w, order), {});
    var m := Apply(s, Take(w, order));
    var m' := LoopIsRun(s0, m, w, order, world, |order|);
    assert order[..|order|] == order && order[|order|..] == [];
    Then(s0, m', Begin(w), {});
    s' := Apply(m', Begin(w));
  }

  /** RecoverUnprocessed likewise, when its query succeeds. */
  lemma RecoverIsRun(s: State, w: nat, tip: Option<nat>, order: seq<nat>, world: World) returns (s': State)
    requires w < |s.workers| && s.workers[w].Idle? && ValidWorld(world)
    requires IsOrder(order, RecoveryReady(s.pending, s.db, tip, s.depth))
    ensures Leads(s, s', {})
    ensures Moved(s, s', w, Idle,
                  s.pending + UnprocessedHeights(s.db) - RecoveryReady(s.pending, s.db, tip, s.depth)
                  + Failures(s.db, order, world),
                  ProcessAll(s.db, order, world))
  {
    Stay(s, {});
    Then(s, s, SelectRows(w), {});
    var m := Apply(s, SelectRows(w));
    OrderLength(order, RecoveryReady(s.pending, s.db, tip, s.depth));
    if UnprocessedHeights(s.db) == {} {
      s' := m;
    } else {
      s' := AddIsRun(s, m, w, tip, order, world);
    }
  }

  lemma AddIsRun(s0: State, s: State, w: nat, tip: Option<nat>, order: seq<nat>, world: World) returns (s': State)
    requires Leads(s0, s, {}) && ValidWorld(world)
    requires w < |s.workers| && s.workers[w].Selected?
    requires var pending := s.pending + s.workers[w].heights;
             IsOrder(order, if tip.Some? then Confirmed(pending, tip.value, s.depth) else {})
    ensures Leads(s0, s', {})
    ensures var pending := s.pending + s.workers[w].heights;
            Moved(s, s', w, Idle,
                  pending - (if tip.Some? then Confirmed(pending, tip.value, s.depth) else {})
                  + Failures(s.db, order, world),
                  ProcessAll(s.db, order, world))
  {
    Then(s0, s, AddSelected(w), {});
    var m := Apply(s, AddSelected(w));
    var pending := s.pending + s.workers[w].heights;
    assert Moved(s, m, w, NeedTip, pending, s.db);
    s' := TipIsRun(s0, m, w, tip, order, world);
  }

  lemma TipIsRun(s0: State, s: State, w: nat, tip: Option<nat>, order: seq<nat>, world: World) returns (s': State)
    requires Leads(s0, s, {}) && ValidWorld(world)
    requires w < |s.workers| && s.workers[w].NeedTip?
    requires IsOrder(order, if tip.Some? then Confirmed(s.pending, tip.value, s.depth) else {})
    ensures Leads(s0, s', {})
    ensures Moved(s, s', w, Idle,
                  s.pending - (if tip.Some? then Confirmed(s.pending, tip.value, s.depth) else {})
                  + Failures(s.db, order, world),
                  ProcessAll(s.db, order, world))
  {
    var e := FetchTip(w, tip);
    Then(s0, s, e, {});
    var m := Apply(s, e);
    match tip {
      case None =>
        OrderLength(order, {});
        s' := m;
      case Some(t) =>
        assert Moved(s, m, w, Checking(t), s.pending, s.db);
        s' := CheckIsRun(s0, m, w, order, world);
    }
  }
}
