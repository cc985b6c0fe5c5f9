/** The daily retention pruner and the handlers that share its tables
    (services/manager/internal/aggregator/timeseries.go,
    services/manager/cmd/manager/routes.go). Times are seconds. */
module Retention {
  import opened Prelude
  import opened Tiers

  const DAY := 86400
  const FREE_AGE := 30 * DAY
  const PAID_AGE := 15 * 30 * DAY

  /** A row of p2pool_shares or miner_hashrate: what pruning looks at. */
  datatype Row = Row(id: nat, miner: Address, at: int)

  /** A row of payments. */
  datatype Payment = Payment(id: nat, miner: Address, amount: nat, at: int)

  datatype Store = Store(
    subs: map<Address, Subscription>,
    shares: set<Row>,
    hashrates: set<Row>,
    payments: set<Payment>,
    subPayments: set<Row>)

  /** The calendar year of an instant, and the instant a year starts (UTC). */
  datatype Calendar = Calendar(year: int -> int, start: int -> int)

  function Year(cal: Calendar, t: int): int {
    cal.year(t)
  }

  predicate InYear(cal: Calendar, t: int, y: int) {
    cal.start(y) <= t < cal.start(y + 1)
  }

  ghost predicate ValidCalendar(cal: Calendar) {
    forall t: int, y: int :: InYear(cal, t, y) <==> Year(cal, t) == y
  }

  // ----- The statements -----

  predicate IsDeleted(subs: map<Address, Subscription>, a: Address) {
    a in subs && subs[a].deletedAt.Some?
  }

  /** The miner has a subscription whose grace period is still running. */
  predicate InGrace(subs: map<Address, Subscription>, a: Address, now: int) {
    a in subs && subs[a].graceUntil.Some? && now < subs[a].graceUntil.value
  }

  /** The first j of the five statements that delete everything one miner has:
      the rows of four tables, then the reset of its subscription. */
  function PurgePartly(st: Store, a: Address, j: nat): Store {
    Store(if 5 <= j && a in st.subs then st.subs[a := ResetToFree(st.subs[a])] else st.subs,
          set r | r in st.shares && !(1 <= j && r.miner == a),
          set r | r in st.hashrates && !(2 <= j && r.miner == a),
          set p | p in st.payments && !(3 <= j && p.miner == a),
          set r | r in st.subPayments && !(4 <= j && r.miner == a))
  }

  /** Phase 1, for all miners marked for deletion. */
  function PurgeDeleted(st: Store): Store {
    Store(map a | a in st.subs :: if IsDeleted(st.subs, a) then ResetToFree(st.subs[a]) else st.subs[a],
          set r | r in st.shares && !IsDeleted(st.subs, r.miner),
          set r | r in st.hashrates && !IsDeleted(st.subs, r.miner),
          set p | p in st.payments && !IsDeleted(st.subs, p.miner),
          set r | r in st.subPayments && !IsDeleted(st.subs, r.miner))
  }

  predicate HasPaymentIn(payments: set<Payment>, a: Address, cal: Calendar, year: int) {
    exists p :: p in payments && p.miner == a && Year(cal, p.at) == year
  }

  /** Phase 2 for one row. */
  function Granted(s: Subscription, hasPayments: bool, year: int, now: int): Subscription {
    if s.graceUntil.Some? && s.graceUntil.value <= now && s.heldYear.None? && s.deletedAt.None? && hasPayments
    then s.(heldYear := Some(year), exportsLeft := Some(2))
    else s
  }

  function GrantHolds(st: Store, cal: Calendar, year: int, now: int): Store {
    st.(subs := map a | a in st.subs ::
          Granted(st.subs[a], HasPaymentIn(st.payments, a, cal, year), year, now))
  }

  /** Phase 3 for one row. */
  function Cleared(s: Subscription): Subscription {
    if s.exportsLeft.Some? && s.exportsLeft.value <= 0 then s.(heldYear := None, exportsLeft := None) else s
  }

  function ClearHolds(st: Store): Store {
    st.(subs := map a | a in st.subs :: Cleared(st.subs[a]))
  }

  /** Phase 4 on one of its two tables. */
  function PruneFree(rows: set<Row>, subs: map<Address, Subscription>, threshold: int, now: int): set<Row> {
    set r | r in rows && !(r.at < threshold && !InGrace(subs, r.miner, now))
  }

  /** The held-year exception of phase 5. */
  predicate IsHeld(subs: map<Address, Subscription>, p: Payment, cal: Calendar) {
    && p.miner in subs
    && subs[p.miner].heldYear.Some?
    && subs[p.miner].exportsLeft.Some? && subs[p.miner].exportsLeft.value > 0
    && Year(cal, p.at) == subs[p.miner].heldYear.value
  }

  function PrunePayments(st: Store, cal: Calendar, threshold: int, now: int): set<Payment> {
    set p | p in st.payments &&
            !(p.at < threshold && !InGrace(st.subs, p.miner, now) && !IsHeld(st.subs, p, cal))
  }

  /** Phase 6 on one of its two tables. */
  function PrunePaid(rows: set<Row>, subs: map<Address, Subscription>, threshold: int, now: int): set<Row> {
    set r | r in rows && !(r.at < threshold && InGrace(subs, r.miner, now))
  }

  /** The seven statements after phase 1; each reads the clock for itself. */
  function Statement(st: Store, cal: Calendar, now: int, i: nat, clock: int): Store
    requires i < 7
  {
    match i
    case 0 => GrantHolds(st, cal, Year(cal, now) - 1, clock)
    case 1 => ClearHolds(st)
    case 2 => st.(shares := PruneFree(st.shares, st.subs, now - FREE_AGE, clock))
    case 3 => st.(hashrates := PruneFree(st.hashrates, st.subs, now - FREE_AGE, clock))
    case 4 => st.(payments := PrunePayments(st, cal, now - FREE_AGE, clock))
    case 5 => st.(shares := PrunePaid(st.shares, st.subs, now - PAID_AGE, clock))
    case 6 => st.(hashrates := PrunePaid(st.hashrates, st.subs, now - PAID_AGE, clock))
  }

  /** The instants the seven statements run at. */
  type Clocks = clocks: seq<int> | |clocks| == 7 witness [0, 0, 0, 0, 0, 0, 0]

  /** Phase 1 and the first k statements, the i-th at time clocks[i]. */
  function PruneUpTo(st: Store, cal: Calendar, now: int, clocks: seq<int>, k: nat): Store
    requires |clocks| == 7 && k <= 7
  {
    if k == 0 then PurgeDeleted(st)
    else Statement(PruneUpTo(st, cal, now, clocks, k - 1), cal, now, k - 1, clocks[k - 1])
  }

  /** A complete prune whose statements all run at one instant. */
  function Prune(st: Store, cal: Calendar, now: int): Store {
    PruneAt(st, cal, now, [now, now, now, now, now, now, now])
  }

  /** A complete prune whose statements run at these instants. */
  function PruneAt(st: Store, cal: Calendar, now: int, clocks: Clocks): Store {
    PruneUpTo(st, cal, now, clocks, |clocks|)
  }

  // ----- What is left, in one pass -----

  /** The flags after phases 1 to 3 of a prune that started at `now` and ran
      phase 2 at `clock`. */
  function HoldAt(st: Store, cal: Calendar, now: int, clock: int, a: Address): Subscription
    requires a in st.subs
  {
    var lastYear := Year(cal, now) - 1;
    if IsDeleted(st.subs, a) then ResetToFree(st.subs[a])
    else Cleared(Granted(st.subs[a], HasPaymentIn(st.payments, a, cal, lastYear), lastYear, clock))
  }

  /** A share or hashrate row survives when its miner was not deleted and no
      delete that applies to the miner finds it too old. */
  predicate KeepsRowAt(subs: map<Address, Subscription>, r: Row, now: int, freeClock: int, paidClock: int) {
    && !IsDeleted(subs, r.miner)
    && (now - FREE_AGE <= r.at || InGrace(subs, r.miner, freeClock))
    && (now - PAID_AGE <= r.at || !InGrace(subs, r.miner, paidClock))
  }

  /** A payment survives when its miner was not deleted and it is recent, or its
      miner is in grace, or it lies in a year still held with exports left. */
  predicate KeepsPaymentAt(st: Store, cal: Calendar, p: Payment, now: int, grantClock: int, clock: int) {
    && !IsDeleted(st.subs, p.miner)
    && (|| now - FREE_AGE <= p.at
        || InGrace(st.subs, p.miner, clock)
        || (p.miner in st.subs && HoldsYear(HoldAt(st, cal, now, grantClock, p.miner), Year(cal, p.at))))
  }

  predicate HoldsYear(s: Subscription, year: int) {
    s.exportsLeft.Some? && s.exportsLeft.value > 0 && s.heldYear == Some(year)
  }

  /** What a prune leaves whose statements ran at these instants. */
  function SurvivorsAt(st: Store, cal: Calendar, now: int, clocks: seq<int>): Store
    requires |clocks| == 7
  {
    Store(map a | a in st.subs :: HoldAt(st, cal, now, clocks[0], a),
          set r | r in st.shares && KeepsRowAt(st.subs, r, now, clocks[2], clocks[5]),
          set r | r in st.hashrates && KeepsRowAt(st.subs, r, now, clocks[3], clocks[6]),
          set p | p in st.payments && KeepsPaymentAt(st, cal, p, now, clocks[0], clocks[4]),
          set r | r in st.subPayments && !IsDeleted(st.subs, r.miner))
  }

  // The same for a prune at one instant.

  function HoldAfter(st: Store, cal: Calendar, now: int, a: Address): Subscription
    requires a in st.subs
  {
    HoldAt(st, cal, now, now, a)
  }

  /** One age limit: 450 days in grace, 30 days otherwise. */
  predicate KeepsRow(subs: map<Address, Subscription>, r: Row, now: int) {
    && !IsDeleted(subs, r.miner)
    && now - (if InGrace(subs, r.miner, now) then PAID_AGE else FREE_AGE) <= r.at
  }

  predicate KeepsPayment(st: Store, cal: Calendar, p: Payment, now: int) {
    KeepsPaymentAt(st, cal, p, now, now, now)
  }

  function Survivors(st: Store, cal: Calendar, now: int): Store {
    Store(map a | a in st.subs :: HoldAfter(st, cal, now, a),
          set r | r in st.shares && KeepsRow(st.subs, r, now),
          set r | r in st.hashrates && KeepsRow(st.subs, r, now),
          set p | p in st.payments && KeepsPayment(st, cal, p, now),
          set r | r in st.subPayments && !IsDeleted(st.subs, r.miner))
  }

  // ----- The handlers -----

  datatype ExportResult = Forbidden | QueryFailed | Served(rows: set<Payment>)

  /** GetMinerPaymentsForExport; year 0 means every year. */
  function ExportRows(payments: set<Payment>, a: Address, cal: Calendar, year: int): set<Payment> {
    set p | p in payments && p.miner == a && (year > 0 ==> InYear(cal, p.at, year))
  }

  /** What the export handler finds out before serving: may a lapsed miner's
      request for `year` (0 for none) be served, and for which year. */
  function HeldExportYear(subs: map<Address, Subscription>, a: Address, year: nat): Option<int> {
    if a !in subs || subs[a].heldYear.None? || subs[a].exportsLeft.None? || subs[a].exportsLeft.value <= 0 then None
    else if year > 0 && year != subs[a].heldYear.value then None
    else subs[a].heldYear
  }

  /** One download less, unless there is none left. */
  function Decrement(subs: map<Address, Subscription>, a: Address): map<Address, Subscription> {
    if a in subs && subs[a].exportsLeft.Some? && subs[a].exportsLeft.value > 0
    then subs[a := subs[a].(exportsLeft := Some(subs[a].exportsLeft.value - 1))]
    else subs
  }

  /** Which statements of the export handler go through. */
  datatype ExportCalls = ExportCalls(readOk: bool, decrementOk: bool, queryOk: bool)

  const ALL_CALLS := ExportCalls(true, true, true)

  /** The export handler as one atomic step; `active` is the tier the middleware
      resolved. A failing decrement is served all the same. */
  function ExportWith(st: Store, cal: Calendar, a: Address, year: nat, active: bool, calls: ExportCalls)
    : (Store, ExportResult)
  {
    if active then (st, Found(st.payments, a, cal, year, calls))
    else if !calls.readOk then (st, Forbidden)
    else match HeldExportYear(st.subs, a, year)
         case None => (st, Forbidden)
         case Some(y) =>
           (if calls.decrementOk then st.(subs := Decrement(st.subs, a)) else st, Found(st.payments, a, cal, y, calls))
  }

  function Found(payments: set<Payment>, a: Address, cal: Calendar, year: int, calls: ExportCalls): ExportResult {
    if calls.queryOk then Served(ExportRows(payments, a, cal, year)) else QueryFailed
  }

  function Export(st: Store, cal: Calendar, a: Address, year: nat, active: bool): (Store, ExportResult) {
    ExportWith(st, cal, a, year, active, ALL_CALLS)
  }

  /** Whether the mark and the reset go through, and which of the four deletes
      do not: a failing delete does not keep the handler from the next one. */
  datatype DeleteCalls = DeleteCalls(markOk: bool, failed: set<nat>, resetOk: bool)

  /** The delete handler: mark, delete everywhere, reset. Without the mark it
      gives up. */
  function DeleteWith(st: Store, a: Address, now: int, calls: DeleteCalls): Store {
    if !calls.markOk then st
    else
      Store(if a in st.subs
            then var marked := st.subs[a].(deletedAt := Some(now));
                 st.subs[a := if calls.resetOk then ResetToFree(marked) else marked]
            else st.subs,
            set r | r in st.shares && !(0 !in calls.failed && r.miner == a),
            set r | r in st.hashrates && !(1 !in calls.failed && r.miner == a),
            set p | p in st.payments && !(2 !in calls.failed && p.miner == a),
            set r | r in st.subPayments && !(3 !in calls.failed && r.miner == a))
  }

  function Delete(st: Store, a: Address, now: int): Store {
    DeleteWith(st, a, now, DeleteCalls(true, {}, true))
  }

  class RetentionTables {
    var subs: map<Address, Subscription>
    var shares: set<Row>
    var hashrates: set<Row>
    var payments: set<Payment>
    var subPayments: set<Row>

    function Tables(): Store
      reads this
    {
      Store(subs, shares, hashrates, payments, subPayments)
    }

    /** The four deletes and the reset; only the first `good` of them go through. */
    method PurgeMiner(a: Address, good: nat) returns (ok: bool)
      modifies this
      ensures ok == (5 <= good)
      ensures Tables() == PurgePartly(old(Tables()), a, good)
    {
      if good < 1 { return false; }
      shares := set r | r in shares && r.miner != a;
      if good < 2 { return false; }
      hashrates := set r | r in hashrates && r.miner != a;
      if good < 3 { return false; }
      payments := set p | p in payments && p.miner != a;
      if good < 4 { return false; }
      subPayments := set r | r in subPayments && r.miner != a;
      if good < 5 { return false; }
      if a in subs {
        subs := subs[a := ResetToFree(subs[a])];
      }
      ok := true;
    }

    /** Phase 1, miner by miner in whatever order the query returns them; of the
        statements for miner a the first good(a) go through, and the first
        failure ends the phase. */
    method PruneNuked(queryOk: bool, good: Address -> nat) returns (count: nat, ok: bool)
      modifies this
      ensures ok == PurgesAll(old(Tables()), queryOk, good)
      ensures ok ==> Tables() == PurgeDeleted(old(Tables())) && count == |Deleted(old(Tables()))|
      ensures !ok ==> InterruptedPurge(old(Tables()), Tables())
    {
      ghost var before := Tables();
      PurgedAll(before);
      count := 0;
      if !queryOk {
        InterruptedAt(before, {}, "", 0);
        return 0, false;
      }
      var addresses := set a | a in subs && IsDeleted(subs, a);
      var rest := addresses;
      while rest != {}
        invariant rest <= addresses
        invariant Tables() == PurgedSoFar(before, addresses - rest)
        invariant forall a | a in addresses - rest :: 5 <= good(a)
      {
        var a :| a in rest;
        PurgeOneMore(before, addresses - rest, a);
        var done := PurgeMiner(a, good(a));
        if !done {
          InterruptedAt(before, addresses - rest, a, good(a));
          return 0, false;
        }
        assert addresses - (rest - {a}) == addresses - rest + {a};
        rest := rest - {a};
      }
      assert addresses - rest == addresses;
      return |addresses|, true;
    }

    /** The whole prune. A failure in phase 1 ends it; so does the failure of
        statement number `failing`, after the earlier ones were executed. */
    method PruneRetention(cal: Calendar, now: int, clocks: seq<int>, queryOk: bool, good: Address -> nat,
                          failing: Option<nat>)
      returns (ok: bool)
      requires |clocks| == 7
      modifies this
      ensures ok == (PurgesAll(old(Tables()), queryOk, good) && (failing.None? || 7 <= failing.value))
      ensures if PurgesAll(old(Tables()), queryOk, good)
              then Tables() == PruneUpTo(old(Tables()), cal, now, clocks,
                                         if failing.Some? then Min(failing.value, 7) else 7)
              else InterruptedPurge(old(Tables()), Tables())
    {
      ghost var st := Tables();
      var _, purged := PruneNuked(queryOk, good);
      if !purged { return false; }
      var previousYear := Year(cal, now) - 1;
      if failing == Some(0) { return false; }
      subs := map a | a in subs ::
        Granted(subs[a], HasPaymentIn(payments, a, cal, previousYear), previousYear, clocks[0]);
      assert Tables() == PruneUpTo(st, cal, now, clocks, 1);
      if failing == Some(1) { return false; }
      subs := map a | a in subs :: Cleared(subs[a]);
      assert Tables() == PruneUpTo(st, cal, now, clocks, 2);
      ok := PruneTables(st, cal, now, clocks, failing);
    }

    /** Phases 4 to 6: statements 2 to 6. */
    method PruneTables(ghost st: Store, cal: Calendar, now: int, clocks: seq<int>, failing: Option<nat>)
      returns (ok: bool)
      requires |clocks| == 7 && Tables() == PruneUpTo(st, cal, now, clocks, 2)
      requires failing.Some? ==> 2 <= failing.value
      modifies this`shares, this`hashrates, this`payments
      ensures ok == (failing.None? || 7 <= failing.value)
      ensures Tables() == PruneUpTo(st, cal, now, clocks, if failing.Some? then Min(failing.value, 7) else 7)
    {
      var freeThreshold := now - FREE_AGE;
      var paidThreshold := now - PAID_AGE;
      if failing == Some(2) { return false; }
      shares := PruneFree(shares, subs, freeThreshold, clocks[2]);
      assert Tables() == PruneUpTo(st, cal, now, clocks, 3);
      if failing == Some(3) { return false; }
      hashrates := PruneFree(hashrates, subs, freeThreshold, clocks[3]);
      assert Tables() == PruneUpTo(st, cal, now, clocks, 4);
      if failing == Some(4) { return false; }
      payments := PrunePayments(Tables(), cal, freeThreshold, clocks[4]);
      assert Tables() == PruneUpTo(st, cal, now, clocks, 5);
      if failing == Some(5) { return false; }
      shares := PrunePaid(shares, subs, paidThreshold, clocks[5]);
      assert Tables() == PruneUpTo(st, cal, now, clocks, 6);
      if failing == Some(6) { return false; }
      hashrates := PrunePaid(hashrates, subs, paidThreshold, clocks[6]);
      assert Tables() == PruneUpTo(st, cal, now, clocks, 7);
      ok := true;
    }

    method HandleTaxExport(cal: Calendar, a: Address, year: nat, active: bool, calls: ExportCalls)
      returns (result: ExportResult)
      modifies this`subs
      ensures (Tables(), result) == ExportWith(old(Tables()), cal, a, year, active, calls)
    {
      var exportYear: int := year;
      if !active {
        if !calls.readOk || a !in subs || subs[a].heldYear.None? || subs[a].exportsLeft.None?
           || subs[a].exportsLeft.value <= 0 {
          return Forbidden;
        }
        var heldYear := subs[a].heldYear.value;
        if year > 0 && year != heldYear {
          return Forbidden;
        }
        exportYear := heldYear;
        if calls.decrementOk {
          subs := subs[a := subs[a].(exportsLeft := Some(subs[a].exportsLeft.value - 1))];
        }
      }
      if !calls.queryOk {
        return QueryFailed;
      }
      result := Served(ExportRows(payments, a, cal, exportYear));
    }

    /** Every delete is tried; only a failing mark is reported. */
    method HandleNukeData(a: Address, now: int, calls: DeleteCalls) returns (ok: bool)
      modifies this
      ensures ok == calls.markOk
      ensures Tables() == DeleteWith(old(Tables()), a, now, calls)
    {
      if !calls.markOk {
        return false;
      }
      if a in subs {
        subs := subs[a := subs[a].(deletedAt := Some(now))];
      }
      TryDeletes(a, calls.failed);
      if calls.resetOk && a in subs {
        subs := subs[a := ResetToFree(subs[a])];
      }
      ok := true;
    }

    method TryDeletes(a: Address, failed: set<nat>)
      modifies this`shares, this`hashrates, this`payments, this`subPayments
      ensures shares == set r | r in old(shares) && !(0 !in failed && r.miner == a)
      ensures hashrates == set r | r in old(hashrates) && !(1 !in failed && r.miner == a)
      ensures payments == set p | p in old(payments) && !(2 !in failed && p.miner == a)
      ensures subPayments == set r | r in old(subPayments) && !(3 !in failed && r.miner == a)
    {
      if 0 !in failed {
        shares := set r | r in shares && r.miner != a;
      }
      if 1 !in failed {
        hashrates := set r | r in hashrates && r.miner != a;
      }
      if 2 !in failed {
        payments := set p | p in payments && p.miner != a;
      }
      if 3 !in failed {
        subPayments := set r | r in subPayments && r.miner != a;
      }
    }

    /** A read that fails reports no held data. */
    method HandleHeldDataStatus(a: Address, readOk: bool)
      returns (hasHeldData: bool, heldYear: Option<int>, remaining: int)
      ensures hasHeldData <==> readOk && exists y: nat :: HeldExportYear(subs, a, y).Some?
      ensures heldYear == if readOk && a in subs then subs[a].heldYear else None
      ensures hasHeldData ==> HeldExportYear(subs, a, 0) == heldYear && subs[a].exportsLeft == Some(remaining)
      ensures remaining == if heldYear.Some? && subs[a].exportsLeft.Some? then subs[a].exportsLeft.value else 0
    {
      hasHeldData, heldYear, remaining := false, None, 0;
      if readOk && a in subs && subs[a].heldYear.Some? {
        heldYear := subs[a].heldYear;
        if subs[a].exportsLeft.Some? {
          remaining := subs[a].exportsLeft.value;
        }
        hasHeldData := remaining > 0;
        assert hasHeldData ==> HeldExportYear(subs, a, 0).Some?;
      }
    }
  }

  /** Some of the deleted miners are gone already. */
  ghost function PurgedSoFar(st: Store, gone: set<Address>): Store {
    Store(map a | a in st.subs :: if a in gone then ResetToFree(st.subs[a]) else st.subs[a],
          set r | r in st.shares && r.miner !in gone,
          set r | r in st.hashrates && r.miner !in gone,
          set p | p in st.payments && p.miner !in gone,
          set r | r in st.subPayments && r.miner !in gone)
  }

  lemma PurgeOneMore(st: Store, gone: set<Address>, a: Address)
    requires a in st.subs
    ensures forall j | 5 <= j :: PurgePartly(PurgedSoFar(st, gone), a, j) == PurgedSoFar(st, gone + {a})
  {
    assert ResetToFree(ResetToFree(st.subs[a])) == ResetToFree(st.subs[a]);
    forall j: nat | 5 <= j ensures PurgePartly(PurgedSoFar(st, gone), a, j) == PurgedSoFar(st, gone + {a}) {
      assert PurgePartly(PurgedSoFar(st, gone), a, j).subs == PurgedSoFar(st, gone + {a}).subs;
    }
  }

  function Deleted(st: Store): set<Address> {
    set a | a in st.subs && IsDeleted(st.subs, a)
  }

  /** Phase 1 goes through: its query and every statement for every marked miner. */
  ghost predicate PurgesAll(st: Store, queryOk: bool, good: Address -> nat) {
    queryOk && forall a | a in Deleted(st) :: 5 <= good(a)
  }

  /** Some marked miners are gone, and at most one more partly. */
  ghost predicate InterruptedPurge(st: Store, st': Store) {
    exists gone, a, j: nat :: IsInterruptedAt(st, st', gone, a, j)
  }

  ghost predicate IsInterruptedAt(st: Store, st': Store, gone: set<Address>, a: Address, j: nat) {
    gone <= Deleted(st) && (0 < j ==> a in Deleted(st)) && st' == PurgePartly(PurgedSoFar(st, gone), a, j)
  }

  lemma InterruptedAt(st: Store, gone: set<Address>, a: Address, j: nat)
    requires gone <= Deleted(st) && (0 < j ==> a in Deleted(st))
    ensures InterruptedPurge(st, PurgePartly(PurgedSoFar(st, gone), a, j))
    ensures PurgePartly(st, a, 0) == st
  {
    assert IsInterruptedAt(st, PurgePartly(PurgedSoFar(st, gone), a, j), gone, a, j);
  }

  lemma PurgedAll(st: Store)
    ensures PurgedSoFar(st, {}) == st
    ensures PurgedSoFar(st, Deleted(st)) == PurgeDeleted(st)
  {
    assert forall a :: a in Deleted(st) <==> IsDeleted(st.subs, a);
  }
}
