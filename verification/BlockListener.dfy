/** The block listener driving the scanner (services/manager/internal/events/zmq.go):
    which heights it announces, and when the scanner processes them. */
module BlockListener {
  import opened Prelude
  import opened BlockStore
  import opened ScannerMachine
  import opened CoinbaseScanner

  /** The heights lo, lo+1, ..., hi-1. */
  function Heights(lo: nat, hi: nat): (hs: seq<nat>)
    ensures |hs| == Max(0, hi - lo)
    ensures forall i | 0 <= i < |hs| :: hs[i] == lo + i
  {
    if lo < hi then seq(hi - lo, i requires 0 <= i => lo + i) else []
  }

  lemma HeightsSnoc(lo: nat, hi: nat)
    requires lo <= hi
    ensures Heights(lo, hi + 1) == Heights(lo, hi) + [hi]
  {
  }

  /** A list followed by n heights from `first` on. */
  function Followed(log: seq<nat>, first: nat, n: nat): seq<nat> {
    if n == 0 then log else Followed(log, first, n - 1) + [first + n - 1]
  }

  lemma {:induction false} FollowedHeights(log: seq<nat>, first: nat, n: nat)
    ensures Followed(log, first, n) == log + Heights(first, first + n)
  {
    if n == 0 {
    } else {
      FollowedHeights(log, first, n - 1);
      HeightsSnoc(first, first + n - 1);
    }
  }

  /** The polling loop's lastHeight after some header replies, errors included. */
  function LastAfter(last: nat, polls: seq<Option<nat>>): nat {
    if polls == [] then last else
      var before := LastAfter(last, polls[..|polls| - 1]);
      match polls[|polls| - 1]
      case Some(h) => Max(before, h)
      case None => before
  }

  lemma LastSnoc(last: nat, polls: seq<Option<nat>>, i: nat)
    requires i < |polls|
    ensures var before := LastAfter(last, polls[..i]);
            LastAfter(last, polls[..i + 1]) == if polls[i].Some? then Max(before, polls[i].value) else before
  {
    assert polls[..i + 1][..i] == polls[..i];
  }

  lemma {:induction false} LastIsHighest(last: nat, polls: seq<Option<nat>>)
    ensures last <= LastAfter(last, polls)
    ensures forall i | 0 <= i < |polls| && polls[i].Some? :: polls[i].value <= LastAfter(last, polls)
    ensures LastAfter(last, polls) == last || Some(LastAfter(last, polls)) in polls
  {
    if polls == [] {
    } else {
      LastIsHighest(last, polls[..|polls| - 1]);
      assert polls == polls[..|polls| - 1] + [polls[|polls| - 1]];
    }
  }

  /** One ZMQ message: the block range it reports; NBlocks may be anything. */
  datatype Message = Unreadable | Blocks(first: nat, count: int)

  /** The heights announced for a list of messages. */
  function Reported(messages: seq<Message>): seq<nat> {
    if messages == [] then [] else
      var m := messages[|messages| - 1];
      var before := Reported(messages[..|messages| - 1]);
      if m.Blocks? then Followed(before, m.first, Max(0, m.count)) else before
  }

  function Count(m: Message): nat {
    if m.Blocks? then Max(0, m.count) else 0
  }

  function TotalCount(messages: seq<Message>): nat {
    if messages == [] then 0 else TotalCount(messages[..|messages| - 1]) + Count(messages[|messages| - 1])
  }

  /** The height lies in the range the message reports. */
  predicate InRange(m: Message, h: nat) {
    m.Blocks? && m.first <= h < m.first + m.count
  }

  lemma ReportedSnoc(messages: seq<Message>, m: Message)
    ensures Reported(messages + [m]) ==
            if m.Blocks? then Reported(messages) + Heights(m.first, m.first + Max(0, m.count)) else Reported(messages)
  {
    assert (messages + [m])[..|messages|] == messages;
    if m.Blocks? {
      FollowedHeights(Reported(messages), m.first, Max(0, m.count));
    }
  }

  /** ZMQ announces every height of every readable message's range, as often as it
      is reported, and no other. */
  lemma {:induction false} ReportedExactly(messages: seq<Message>)
    ensures forall h :: h in Reported(messages) <==> exists k :: 0 <= k < |messages| && InRange(messages[k], h)
    ensures |Reported(messages)| == TotalCount(messages)
  {
    if messages == [] {
    } else {
      var n := |messages| - 1;
      var front, m := messages[..n], messages[n];
      FrontAndLast(messages);
      ReportedExactly(front);
      ReportedSnoc(front, m);
      forall h ensures h in Reported(messages) <==> exists k :: 0 <= k < |messages| && InRange(messages[k], h) {
        if k :| 0 <= k < n && InRange(front[k], h) {
          assert InRange(messages[k], h);
        }
        if m.Blocks? {
          InHeights(m.first, m.first + Max(0, m.count), h);
        }
        if InRange(m, h) {
          assert InRange(messages[n], h);
        }
      }
    }
  }

  lemma InHeights(lo: nat, hi: nat, h: nat)
    ensures h in Heights(lo, hi) <==> lo <= h < hi
  {
    if lo <= h < hi {
      assert Heights(lo, hi)[h - lo] == h;
    }
  }

  /** What is pending after announcing a, ..., a+n-1: the last `depth` of them. */
  function Window(a: nat, n: nat, depth: nat): set<nat> {
    Interval(a + n - Min(n, depth), a + n)
  }

  lemma WindowSize(a: nat, n: nat, depth: nat)
    ensures |Window(a, n, depth)| == Min(n, depth)
  {
    IntervalSize(a + n - Min(n, depth), a + n);
  }

  /** Announcing the next height makes exactly the one `depth` below it due. */
  lemma DueNext(a: nat, n: nat, depth: nat)
    requires 0 < depth
    ensures var pending := Window(a, n, depth) + {a + n};
            var due := Confirmed(pending, a + n, depth);
            && due == (if depth <= n then {a + n - depth} else {})
            && pending - due == Window(a, n + 1, depth)
  {
    var pending := Window(a, n, depth) + {a + n};
    assert forall h | h in pending :: IsDeep(h, a + n, depth) <==> h == a + n - depth;
    assert forall h | h in Window(a, n + 1, depth) :: h in pending;
  }

  /** No answer is an error; blocks may still be unknown, orphaned or skipped. */
  predicate Smooth(a: Answers) {
    a.readOk && !a.block.BlockError? && !a.tx.TxError? && !a.rates.RateError? && a.commitOk && a.failedInserts == {}
  }

  ghost predicate AllSmooth(worlds: nat -> World) {
    forall k: nat, h: nat :: Smooth(worlds(k)(h))
  }

  ghost predicate SmoothWorld(world: World) {
    forall h: nat :: Smooth(world(h))
  }

  lemma SmoothSucceeds(db: Db, h: nat, a: Answers)
    requires Smooth(a) && ValidRates(a.rates)
    ensures ProcessFrom(db, h, AtExists, a).1
  {
    if h in db.blocks && a.block.Block? {
      var filled := AfterBlock(db, h, a.block, a.updateOk).0;
      assert ProcessFrom(filled, h, AtExtract(a.block.hash), a).1;
    }
  }

  lemma {:induction false} Partition(db: Db, order: seq<nat>, world: World)
    requires ValidWorld(world)
    ensures forall h | h in order :: h in Successes(db, order, world) || h in Failures(db, order, world)
    ensures forall h | h in Successes(db, order, world) || h in Failures(db, order, world) :: h in order
    ensures SmoothWorld(world) ==>
              Successes(db, order, world) == order && Failures(db, order, world) == {}
  {
    if order == [] {
    } else {
      var n := |order| - 1;
      Partition(db, order[..n], world);
      if Smooth(world(order[n])) {
        SmoothSucceeds(ProcessAll(db, order[..n], world), order[n], world(order[n]));
      }
      FrontAndLast(order);
    }
  }

  /** A block that fails, and goes back, is not logged as processed. */
  lemma {:induction false} FailuresNotLogged(db: Db, order: seq<nat>, world: World)
    requires ValidWorld(world) && Distinct(order)
    ensures forall h | h in Failures(db, order, world) :: h !in Successes(db, order, world)
    decreases |order|
  {
    if order == [] {
    } else {
      var n := |order| - 1;
      FailuresNotLogged(db, order[..n], world);
      Partition(db, order[..n], world);
      NotAgain(order);
    }
  }

  lemma NotAgain(order: seq<nat>)
    requires order != [] && Distinct(order)
    ensures order[|order| - 1] !in order[..|order| - 1]
  {
  }

  /** The scanner's pending set and processed log when the listener started. */
  datatype Base = Base(pending: set<nat>, log: seq<nat>)

  /** The highest height announced so far. */
  function Highest(announced: seq<nat>): int {
    if announced == [] then -1 else Max(Highest(announced[..|announced| - 1]), announced[|announced| - 1])
  }

  lemma HighestSnoc(announced: seq<nat>, height: nat)
    ensures Highest(announced + [height]) == Max(Highest(announced), height)
  {
    assert (announced + [height])[..|announced|] == announced;
  }

  /** It is one of them and the others are not higher. */
  lemma {:induction false} HighestReached(announced: seq<nat>)
    ensures forall t | t in announced :: t <= Highest(announced)
    ensures announced != [] ==> Highest(announced) in announced
  {
    if announced == [] {
    } else {
      var n := |announced| - 1;
      var front := announced[..n];
      HighestReached(front);
      forall t | t in announced ensures t == announced[n] || t in front {
        var i :| 0 <= i < |announced| && announced[i] == t;
        assert i < n ==> front[i] == t;
      }
      if announced[n] < Highest(front) {
        assert Highest(front) in front;
      }
    }
  }

  /** Nothing pending or announced is lost, nothing is processed before a height
      `depth` above it was announced. */
  ghost predicate Kept(base: Base, announced: seq<nat>, pending: set<nat>, processed: seq<nat>, depth: nat) {
    && base.log <= processed
    && (forall h | h in base.pending || h in announced :: h in pending || h in processed[|base.log|..])
    && (forall h | h in pending :: h in base.pending || h in announced)
    && forall h | h in processed[|base.log|..] :: h + depth <= Highest(announced)
  }

  function First(announced: seq<nat>): nat {
    if announced == [] then 0 else announced[0]
  }

  /** Every announced height follows on from the one before. */
  ghost predicate Consecutive(announced: seq<nat>) {
    announced == Heights(First(announced), First(announced) + |announced|)
  }

  lemma HeightsConsecutive(first: nat, announced: seq<nat>)
    requires announced == Heights(first, first + |announced|)
    ensures Consecutive(announced)
  {
  }

  lemma ConsecutiveFront(announced: seq<nat>, height: nat)
    requires Consecutive(announced + [height])
    ensures Consecutive(announced) && height == First(announced + [height]) + |announced|
    ensures announced != [] ==> First(announced) == First(announced + [height])
  {
    var all := announced + [height];
    assert all[|announced|] == height;
    forall i | 0 <= i < |announced| ensures announced[i] == First(announced) + i {
      assert all[i] == announced[i] && all[0] == announced[0];
    }
  }

  /** The processed log lags exactly `depth` announcements behind. */
  ghost predicate Lagging(base: Base, announced: seq<nat>, pending: set<nat>, processed: seq<nat>, depth: nat) {
    && processed == base.log + announced[..Max(0, |announced| - depth)]
    && pending == Window(First(announced), |announced|, depth)
  }

  /** One more announcement: what was due is processed or pending again. */
  lemma KeptStep(base: Base, announced: seq<nat>, pending: set<nat>, processed: seq<nat>, depth: nat,
                 height: nat, failures: set<nat>, successes: seq<nat>)
    requires Kept(base, announced, pending, processed, depth)
    requires var due := Confirmed(pending + {height}, height, depth);
             && (forall h | h in due :: h in successes || h in failures)
             && (forall h | h in successes || h in failures :: h in due)
    ensures Kept(base, announced + [height],
                 pending + {height} - Confirmed(pending + {height}, height, depth) + failures,
                 processed + successes, depth)
  {
    var pending' := pending + {height} - Confirmed(pending + {height}, height, depth) + failures;
    var recent := processed[|base.log|..];
    assert (processed + successes)[|base.log|..] == recent + successes;
    forall h | h in base.pending || h in announced + [height] ensures h in pending' || h in recent + successes {
    }
    HighestSnoc(announced, height);
    assert forall h | h in successes :: IsDeep(h, height, depth);
  }

  lemma AtStart(base: Base, depth: nat)
    ensures Kept(base, [], base.pending, base.log, depth)
    ensures base.pending == {} ==> Lagging(base, [], {}, base.log, depth)
  {
    assert base.log[|base.log|..] == [];
    assert Window(0, 0, depth) == {};
  }

  lemma NextLagging(base: Base, announced: seq<nat>, pending: set<nat>, processed: seq<nat>, depth: nat, h: nat,
                    order: seq<nat>)
    requires 0 < depth && Consecutive(announced + [h])
    requires Lagging(base, announced, pending, processed, depth)
    requires IsOrder(order, Confirmed(pending + {h}, h, depth))
    ensures Lagging(base, announced + [h], pending + {h} - Confirmed(pending + {h}, h, depth), processed + order, depth)
  {
    ConsecutiveFront(announced, h);
    var first, n := First(announced + [h]), |announced|;
    assert pending == Window(first, n, depth);
    DueNext(first, n, depth);
    NextInLog(first, announced, depth, order);
    var behind := announced[..Max(0, n - depth)];
    assert base.log + behind + order == base.log + (behind + order);
  }

  /** Appending the due height keeps the processed log `depth` behind. */
  lemma NextInLog(first: nat, announced: seq<nat>, depth: nat, order: seq<nat>)
    requires 0 < depth && announced == Heights(first, first + |announced|)
    requires IsOrder(order, if depth <= |announced| then {first + |announced| - depth} else {})
    ensures announced[..Max(0, |announced| - depth)] + order
            == (announced + [first + |announced|])[..Max(0, |announced| + 1 - depth)]
  {
    OrderLength(order, if depth <= |announced| then {first + |announced| - depth} else {});
    if depth <= |announced| {
      assert order[0] in order;
    }
  }

  class BlockListener {
    const scanner: Scanner

    constructor (scanner: Scanner)
      ensures this.scanner == scanner
    {
      this.scanner := scanner;
    }

    /** Nothing is lost or early; and without failures, if nothing was pending
        at the start and the heights follow on from each other, processing lags
        exactly confirmDepth announcements behind. */
    ghost predicate Delayed(base: Base, announced: seq<nat>, worlds: nat -> World)
      reads scanner
    {
      && Kept(base, announced, scanner.pendingBlocks, scanner.processed, scanner.confirmDepth)
      && (base.pending == {} && AllSmooth(worlds) && Consecutive(announced) ==>
            Lagging(base, announced, scanner.pendingBlocks, scanner.processed, scanner.confirmDepth))
    }

    /** The one registered handler. */
    method FireHandlers(height: nat, world: World, ghost base: Base, ghost announced: seq<nat>)
      returns (order: seq<nat>)
      requires ValidWorld(world)
      requires Kept(base, announced, scanner.pendingBlocks, scanner.processed, scanner.confirmDepth)
      modifies scanner
      ensures Kept(base, announced + [height], scanner.pendingBlocks, scanner.processed, scanner.confirmDepth)
      ensures SmoothWorld(world) ==>
                var pending := old(scanner.pendingBlocks) + {height};
                var due := Confirmed(pending, height, scanner.confirmDepth);
                && scanner.pendingBlocks == pending - due
                && IsOrder(order, due) && scanner.processed == old(scanner.processed) + order
    {
      ghost var db0, pending0, log0 := scanner.db, scanner.pendingBlocks, scanner.processed;
      order := scanner.HandleNewBlock(height, world);
      Partition(db0, order, world);
      KeptStep(base, announced, pending0, log0, scanner.confirmDepth, height,
               Failures(db0, order, world), Successes(db0, order, world));
    }

    method Fire(ghost base: Base, log: seq<nat>, height: nat, worlds: nat -> World) returns (announced: seq<nat>)
      requires forall k: nat :: ValidWorld(worlds(k))
      requires Delayed(base, log, worlds)
      modifies scanner
      ensures announced == log + [height] && Delayed(base, announced, worlds)
    {
      ghost var pending, processed := scanner.pendingBlocks, scanner.processed;
      var order := FireHandlers(height, worlds(|log|), base, log);
      announced := log + [height];
      if base.pending == {} && AllSmooth(worlds) && Consecutive(announced) {
        ConsecutiveFront(log, height);
        assert SmoothWorld(worlds(|log|));
        NextLagging(base, log, pending, processed, scanner.confirmDepth, height, order);
      }
    }

    /** Polling: fires every height above the last one seen, up to each header.
        `initial` answers the first fetch, `polls` the ticks that follow. */
    method RunPolling(initial: Option<nat>, polls: seq<Option<nat>>, worlds: nat -> World)
      returns (announced: seq<nat>)
      requires forall k: nat :: ValidWorld(worlds(k))
      modifies scanner
      ensures var start := if initial.Some? then initial.value else 0;
              announced == Heights(start + 1, LastAfter(start, polls) + 1)
      ensures old(scanner.pendingBlocks) == {} && AllSmooth(worlds) ==>
                && scanner.processed
                   == old(scanner.processed) + announced[..Max(0, |announced| - scanner.confirmDepth)]
                && scanner.pendingBlocks == Window(First(announced), |announced|, scanner.confirmDepth)
                && |scanner.pendingBlocks| == Min(|announced|, scanner.confirmDepth)
      ensures Kept(Base(old(scanner.pendingBlocks), old(scanner.processed)), announced,
                   scanner.pendingBlocks, scanner.processed, scanner.confirmDepth)
    {
      ghost var base := Base(scanner.pendingBlocks, scanner.processed);
      var lastHeight := 0;
      if initial.Some? {
        lastHeight := initial.value;
      }
      AtStart(base, scanner.confirmDepth);
      announced := Poll(base, lastHeight, polls, worlds);
      HeightsConsecutive(lastHeight + 1, announced);
      WindowSize(First(announced), |announced|, scanner.confirmDepth);
    }

    /** The endless loop over the ticks. */
    method Poll(ghost base: Base, initial: nat, polls: seq<Option<nat>>, worlds: nat -> World)
      returns (announced: seq<nat>)
      requires forall k: nat :: ValidWorld(worlds(k))
      requires Delayed(base, [], worlds)
      modifies scanner
      ensures initial <= LastAfter(initial, polls)
      ensures announced == Heights(initial + 1, LastAfter(initial, polls) + 1) && Delayed(base, announced, worlds)
    {
      var lastHeight := initial;
      announced := [];
      var i := 0;
      while i < |polls|
        invariant 0 <= i <= |polls|
        invariant initial <= lastHeight == LastAfter(initial, polls[..i])
        invariant announced == Heights(initial + 1, lastHeight + 1)
        invariant Delayed(base, announced, worlds)
      {
        LastSnoc(initial, polls, i);
        lastHeight, announced := Tick(base, initial + 1, lastHeight, polls[i], announced, worlds);
        i := i + 1;
      }
      assert polls[..i] == polls;
    }

    method Tick(ghost base: Base, ghost first: nat, lastHeight: nat, poll: Option<nat>, log: seq<nat>,
                worlds: nat -> World)
      returns (last: nat, announced: seq<nat>)
      requires forall k: nat :: ValidWorld(worlds(k))
      requires first <= lastHeight + 1 && log == Heights(first, lastHeight + 1) && Delayed(base, log, worlds)
      modifies scanner
      ensures last == if poll.Some? then Max(lastHeight, poll.value) else lastHeight
      ensures announced == Heights(first, last + 1) && Delayed(base, announced, worlds)
    {
      last, announced := lastHeight, log;
      if poll.Some? && poll.value > lastHeight {
        announced := CatchUp(base, first, lastHeight, poll.value, log, worlds);
        last := poll.value;
      }
    }

    method CatchUp(ghost base: Base, ghost first: nat, lastHeight: nat, target: nat, log: seq<nat>,
                   worlds: nat -> World)
      returns (announced: seq<nat>)
      requires forall k: nat :: ValidWorld(worlds(k))
      requires first <= lastHeight + 1 && lastHeight < target
      requires log == Heights(first, lastHeight + 1) && Delayed(base, log, worlds)
      modifies scanner
      ensures announced == Heights(first, target + 1) && Delayed(base, announced, worlds)
    {
      announced := log;
      var h := lastHeight + 1;
      while h <= target
        invariant lastHeight < h <= target + 1
        invariant announced == Heights(first, h) && Delayed(base, announced, worlds)
      {
        HeightsSnoc(first, h);
        announced := Fire(base, announced, h, worlds);
        h := h + 1;
      }
    }

    /** ZMQ: fires every height of every readable message. During a
        reorganisation heights may come again: then nothing is lost and nothing
        processed early. As long as the reported ranges follow on from each
        other, the delay is as exact as with polling. */
    method RunZMQ(messages: seq<Message>, worlds: nat -> World) returns (announced: seq<nat>)
      requires forall k: nat :: ValidWorld(worlds(k))
      modifies scanner
      ensures announced == Reported(messages)
      ensures Kept(Base(old(scanner.pendingBlocks), old(scanner.processed)), announced,
                   scanner.pendingBlocks, scanner.processed, scanner.confirmDepth)
      ensures old(scanner.pendingBlocks) == {} && AllSmooth(worlds) && Consecutive(announced) ==>
                && scanner.processed
                   == old(scanner.processed) + announced[..Max(0, |announced| - scanner.confirmDepth)]
                && scanner.pendingBlocks == Window(First(announced), |announced|, scanner.confirmDepth)
    {
      ghost var base := Base(scanner.pendingBlocks, scanner.processed);
      announced := [];
      AtStart(base, scanner.confirmDepth);
      var k := 0;
      while k < |messages|
        invariant 0 <= k <= |messages| && announced == Reported(messages[..k])
        invariant Delayed(base, announced, worlds)
      {
        assert messages[..k + 1][..k] == messages[..k];
        if messages[k].Blocks? {
          announced := FireBlocks(base, messages[k].first, messages[k].count, announced, worlds);
        }
        k := k + 1;
      }
      assert messages[..k] == messages;
    }

    method FireBlocks(ghost base: Base, first: nat, count: int, log: seq<nat>, worlds: nat -> World)
      returns (announced: seq<nat>)
      requires forall k: nat :: ValidWorld(worlds(k))
      requires Delayed(base, log, worlds)
      modifies scanner
      ensures announced == Followed(log, first, Max(0, count)) && Delayed(base, announced, worlds)
    {
      announced := log;
      var i := 0;
      while i < count
        invariant 0 <= i <= Max(0, count)
        invariant announced == Followed(log, first, i) && Delayed(base, announced, worlds)
      {
        announced := Fire(base, announced, first + i, worlds);
        i := i + 1;
      }
    }
  }
}
