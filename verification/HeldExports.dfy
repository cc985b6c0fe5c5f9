/** Held-back years and their two downloads over whole runs of prunes, exports,
    activations, payments and deletions. */
module HeldExports {
  import opened Prelude
  import opened Tiers
  import opened Retention
  import opened RetentionProofs

  /** `served` counts each miner's held-back downloads since its last grant. */
  datatype World = World(store: Store, served: map<Address, nat>)

  datatype Step =
    | Prune(now: int, clocks: Clocks)
    | Export(a: Address, year: nat, active: bool)
    | Delete(a: Address, now: int)
    | Subscribe(a: Address)
    | Activate(a: Address, tier: Tier, expiresAt: int, graceUntil: int)
    | Pay(p: Payment)
    | AddShare(r: Row)
    | AddHashrate(r: Row)
    | AddSubPayment(r: Row)

  /** A prune that starts at `now` and runs its phase 2 at `clock` gives the miner
      a hold it did not have. */
  predicate IsGrant(st: Store, cal: Calendar, a: Address, now: int, clock: int) {
    a in st.subs && st.subs[a].heldYear.None? && HoldAt(st, cal, now, clock, a).heldYear.Some?
  }

  function Served(w: World, a: Address): nat {
    if a in w.served then w.served[a] else 0
  }

  function Next(w: World, cal: Calendar, e: Step): World {
    match e
    case Prune(now, clocks) =>
      World(PruneAt(w.store, cal, now, clocks),
            map a | a in w.store.subs :: if IsGrant(w.store, cal, a, now, clocks[0]) then 0 else Served(w, a))
    case Export(a, year, active) =>
      var (st, result) := Retention.Export(w.store, cal, a, year, active);
      World(st, if !active && result.Served? then w.served[a := Served(w, a) + 1] else w.served)
    case Delete(a, now) => w.(store := Retention.Delete(w.store, a, now))
    case Subscribe(a) =>
      if a in w.store.subs then w
      else World(w.store.(subs := w.store.subs[a := FREE_ROW]), w.served)
    case Activate(a, tier, expiresAt, graceUntil) =>
      var row := if a in w.store.subs then w.store.subs[a] else FREE_ROW;
      w.(store := w.store.(subs := w.store.subs[a :=
           row.(tier := tier, expiresAt := Some(expiresAt), graceUntil := Some(graceUntil))]))
    case Pay(p) => w.(store := w.store.(payments := w.store.payments + {p}))
    case AddShare(r) => w.(store := w.store.(shares := w.store.shares + {r}))
    case AddHashrate(r) => w.(store := w.store.(hashrates := w.store.hashrates + {r}))
    case AddSubPayment(r) => w.(store := w.store.(subPayments := w.store.subPayments + {r}))
  }

  function Run(w: World, cal: Calendar, es: seq<Step>): World
    decreases |es|
  {
    if es == [] then w else Run(Next(w, cal, es[0]), cal, es[1..])
  }

  // ----- Accounting -----

  ghost predicate Accounted(s: Subscription, served: nat) {
    && (s.heldYear.None? <==> s.exportsLeft.None?)
    && (s.exportsLeft.Some? ==> 0 <= s.exportsLeft.value <= 2 && served + s.exportsLeft.value == 2)
  }

  ghost predicate Books(w: World) {
    forall a | a in w.store.subs :: Accounted(w.store.subs[a], Served(w, a))
  }

  lemma BooksStep(w: World, cal: Calendar, e: Step)
    requires Books(w)
    ensures Books(Next(w, cal, e))
  {
    if e.Prune? {
      RealPruneIsSurvivors(w.store, cal, e.now, e.clocks);
      var w' := Next(w, cal, e);
      forall a | a in w'.store.subs ensures Accounted(w'.store.subs[a], Served(w', a)) {
        assert Accounted(w.store.subs[a], Served(w, a));
      }
    }
  }

  /** Held-back accounting: from a store whose books are right, as those of one
      without subscriptions are, in every run, a year is held exactly when a
      download count is, the count is 0, 1 or 2, and together with the downloads
      served since the grant it makes 2. */
  lemma {:induction false} HeldExportAccounting(w: World, cal: Calendar, es: seq<Step>)
    requires w.store.subs == map[] || Books(w)
    ensures Books(Run(w, cal, es))
    decreases |es|
  {
    if es == [] {
    } else {
      BooksStep(w, cal, es[0]);
      HeldExportAccounting(Next(w, cal, es[0]), cal, es[1..]);
    }
  }

  // ----- What an export serves -----

  /** A lapsed miner may download: it holds a year, has downloads left, and asks
      for that year or for none. */
  predicate MayDownload(subs: map<Address, Subscription>, a: Address, year: nat) {
    && a in subs && subs[a].heldYear.Some? && subs[a].exportsLeft.Some? && 0 < subs[a].exportsLeft.value
    && (year == 0 || year == subs[a].heldYear.value)
  }

  /** An export that is served contains payments of its own miner only: for a paid
      miner all of the year asked for, or of every year if none is; for a lapsed
      one all of the held year. The lapsed one pays with a download, if the
      decrement goes through; nothing else changes. */
  lemma ExportServesExactly(st: Store, cal: Calendar, a: Address, year: nat, active: bool, calls: ExportCalls)
    requires ValidCalendar(cal)
    ensures var (st', result) := ExportWith(st, cal, a, year, active, calls);
            && (result.Forbidden? <==> !active && !(calls.readOk && MayDownload(st.subs, a, year)))
            && (result.Served? <==> !result.Forbidden? && calls.queryOk)
            && (result.Served? ==>
                  var asked := if active then year else st.subs[a].heldYear.value;
                  forall p :: p in result.rows
                              <==> p in st.payments && p.miner == a && (0 < asked ==> Year(cal, p.at) == asked))
            && st' == (if !active && !result.Forbidden? && calls.decrementOk
                       then st.(subs := st.subs[a := st.subs[a].(exportsLeft :=
                                  Some(st.subs[a].exportsLeft.value - 1))])
                       else st)
  {
    forall p: Payment, y: int ensures InYear(cal, p.at, y) == (Year(cal, p.at) == y) {
    }
  }

  // ----- Both downloads are complete -----

  function YearRows(payments: set<Payment>, a: Address, cal: Calendar, year: int): set<Payment> {
    set p | p in payments && p.miner == a && Year(cal, p.at) == year
  }

  /** Miner a's held-back downloads in a run. */
  function Downloads(w: World, cal: Calendar, es: seq<Step>, a: Address): nat
    decreases |es|
  {
    if es == [] then 0
    else (if IsDownload(w, cal, es[0], a) then 1 else 0) + Downloads(Next(w, cal, es[0]), cal, es[1..], a)
  }

  predicate IsDownload(w: World, cal: Calendar, e: Step, a: Address) {
    e.Export? && e.a == a && !e.active && HeldExportYear(w.store.subs, a, e.year).Some?
  }

  /** Miner a holds `year` with `left` downloads to go, and still has `rows`. */
  ghost predicate Holding(st: Store, cal: Calendar, a: Address, year: int, left: int, rows: set<Payment>) {
    && a in st.subs && st.subs[a].deletedAt.None?
    && st.subs[a].heldYear == Some(year) && st.subs[a].exportsLeft == Some(left)
    && rows <= YearRows(st.payments, a, cal, year)
  }

  lemma HoldingStep(w: World, cal: Calendar, e: Step, a: Address, year: int, left: int, rows: set<Payment>)
    requires Holding(w.store, cal, a, year, left, rows) && 0 < left
    requires !(e.Delete? && e.a == a)
    ensures Holding(Next(w, cal, e).store, cal, a, year,
                    if IsDownload(w, cal, e, a) then left - 1 else left, rows)
  {
    if e.Prune? {
      RealPruneIsSurvivors(w.store, cal, e.now, e.clocks);
    }
  }

  /** As long as a miner has not used up its downloads, its hold and the rows it
      had when the hold was granted are all still there. */
  lemma {:induction false} HoldLasts(w: World, cal: Calendar, es: seq<Step>, a: Address, year: int, left: int,
                                     rows: set<Payment>)
    requires Holding(w.store, cal, a, year, left, rows)
    requires forall i | 0 <= i < |es| :: !(es[i].Delete? && es[i].a == a)
    requires Downloads(w, cal, es, a) < left
    ensures Holding(Run(w, cal, es).store, cal, a, year, left - Downloads(w, cal, es, a), rows)
    decreases |es|
  {
    if es == [] {
    } else {
      HoldingStep(w, cal, es[0], a, year, left, rows);
      HoldLasts(Next(w, cal, es[0]), cal, es[1..], a, year,
                if IsDownload(w, cal, es[0], a) then left - 1 else left, rows);
    }
  }

  lemma GrantIsHolding(w: World, cal: Calendar, now: int, clocks: Clocks, a: Address)
    requires IsGrant(w.store, cal, a, now, clocks[0]) && !IsDeleted(w.store.subs, a)
    ensures var st := Next(w, cal, Prune(now, clocks)).store;
            var y := Year(cal, now) - 1;
            && YearRows(st.payments, a, cal, y) == YearRows(w.store.payments, a, cal, y)
            && Holding(st, cal, a, y, 2, YearRows(w.store.payments, a, cal, y))
  {
    RealPruneIsSurvivors(w.store, cal, now, clocks);
    var st := Next(w, cal, Prune(now, clocks)).store;
    var y := Year(cal, now) - 1;
    assert st.subs[a] == HoldAt(w.store, cal, now, clocks[0], a);
    assert forall p | p in YearRows(w.store.payments, a, cal, y) ::
        KeepsPaymentAt(w.store, cal, p, now, clocks[0], clocks[4]);
  }

  /** A lapsed miner's request is served and contains the rows. */
  ghost predicate Serves(st: Store, cal: Calendar, a: Address, year: nat, rows: set<Payment>) {
    var result := Retention.Export(st, cal, a, year, false).1;
    result.Served? && rows <= result.rows
  }

  lemma HoldingIsServed(st: Store, cal: Calendar, a: Address, held: int, left: int, rows: set<Payment>, year: nat)
    requires ValidCalendar(cal) && Holding(st, cal, a, held, left, rows) && 0 < left
    requires year == 0 || year == held
    ensures Serves(st, cal, a, year, rows)
  {
    assert forall p | p in rows :: InYear(cal, p.at, held);
  }

  lemma DownloadIsComplete(w: World, cal: Calendar, es: seq<Step>, a: Address, held: int, left: int,
                           rows: set<Payment>, year: nat)
    requires ValidCalendar(cal) && Holding(w.store, cal, a, held, left, rows)
    requires forall i | 0 <= i < |es| :: !(es[i].Delete? && es[i].a == a)
    requires Downloads(w, cal, es, a) < left
    requires year == 0 || year == held
    ensures Serves(Run(w, cal, es).store, cal, a, year, rows)
  {
    HoldLasts(w, cal, es, a, held, left, rows);
    HoldingIsServed(Run(w, cal, es).store, cal, a, held, left - Downloads(w, cal, es, a), rows, year);
  }

  /** Both promised downloads are complete: after a prune grants a hold, in any
      run without a deletion of that miner's data, the first two held-back
      downloads are served and contain every payment of the held year the
      miner had at the grant. */
  lemma BothDownloadsComplete(w: World, granted: World, cal: Calendar, now: int, clocks: Clocks, es: seq<Step>,
                              a: Address, year: nat)
    requires ValidCalendar(cal) && granted == Next(w, cal, Prune(now, clocks))
    requires IsGrant(w.store, cal, a, now, clocks[0]) && !IsDeleted(w.store.subs, a)
    requires forall i | 0 <= i < |es| :: !(es[i].Delete? && es[i].a == a)
    requires Downloads(granted, cal, es, a) < 2
    requires year == 0 || year == Year(cal, now) - 1
    ensures Serves(Run(granted, cal, es).store, cal, a, year, YearRows(w.store.payments, a, cal, Year(cal, now) - 1))
  {
    var y := Year(cal, now) - 1;
    GrantIsHolding(w, cal, now, clocks, a);
    DownloadIsComplete(granted, cal, es, a, y, 2, YearRows(w.store.payments, a, cal, y), year);
  }

  // ----- Where the promise ends -----

  /** A prune between the last decrement and the query: the second download
      still contains a payment of a lapsed miner exactly when it is recent. */
  lemma PruneInsideLastExport(st: Store, cal: Calendar, a: Address, y: int, now: int, p: Payment)
    requires ValidCalendar(cal) && a in st.subs && st.subs[a].deletedAt.None?
    requires st.subs[a].heldYear == Some(y) && st.subs[a].exportsLeft == Some(1)
    requires !InGrace(st.subs, a, now)
    requires p in YearRows(st.payments, a, cal, y)
    ensures var pruned := Retention.Prune(st.(subs := Decrement(st.subs, a)), cal, now);
            p in ExportRows(pruned.payments, a, cal, y) <==> now - FREE_AGE <= p.at
  {
    var last := st.(subs := Decrement(st.subs, a));
    PruneIsSurvivors(last, cal, now);
    assert HoldAfter(last, cal, now, a).exportsLeft.None?;
    assert InYear(cal, p.at, y) == (Year(cal, p.at) == y);
  }

  /** "Exactly two downloads" holds unless payments of the year are younger than
      30 days when the used-up hold is cleared: the next prune in the same
      year grants a second hold exactly in that case. */
  lemma SecondHold(st: Store, cal: Calendar, a: Address, y: int, t1: int, t2: int)
    requires a in st.subs && st.subs[a].deletedAt.None? && st.subs[a].graceUntil.Some?
    requires st.subs[a].heldYear == Some(y) && st.subs[a].exportsLeft == Some(0)
    requires st.subs[a].graceUntil.value <= t1 <= t2
    requires Year(cal, t1) - 1 == y && Year(cal, t2) - 1 == y
    ensures var twice := Retention.Prune(Retention.Prune(st, cal, t1), cal, t2);
            && a in twice.subs && twice.subs[a].heldYear == (if HasRecent(st, cal, a, y, t1) then Some(y) else None)
  {
    var once := Retention.Prune(st, cal, t1);
    PruneIsSurvivors(st, cal, t1);
    PruneIsSurvivors(once, cal, t2);
    assert once.subs[a] == Cleared(st.subs[a]);
    assert HasPaymentIn(once.payments, a, cal, y) == HasRecent(st, cal, a, y, t1) by {
      if HasRecent(st, cal, a, y, t1) {
        var p :| p in st.payments && p.miner == a && Year(cal, p.at) == y && t1 - FREE_AGE <= p.at;
        assert p in once.payments;
      }
    }
  }

  predicate HasRecent(st: Store, cal: Calendar, a: Address, y: int, now: int) {
    exists p :: p in st.payments && p.miner == a && Year(cal, p.at) == y && now - FREE_AGE <= p.at
  }

  ghost predicate Emptied(st: Store, a: Address) {
    && (forall r | r in st.shares :: r.miner != a)
    && (forall r | r in st.hashrates :: r.miner != a)
    && (forall p | p in st.payments :: p.miner != a)
    && (forall r | r in st.subPayments :: r.miner != a)
  }

  /** Deletion is for good: the mark is never taken back, so after any later run,
      even one in which the miner mines, is paid and pays again, the next prune
      deletes everything it has and takes its tier away. */
  lemma {:induction false} DeletionIsForGood(w: World, cal: Calendar, es: seq<Step>, a: Address, now: int,
                                             clocks: Clocks)
    requires IsDeleted(w.store.subs, a)
    ensures IsDeleted(Run(w, cal, es).store.subs, a)
    ensures var st := PruneAt(Run(w, cal, es).store, cal, now, clocks);
            && Emptied(st, a) && a in st.subs && st.subs[a].tier == Free && st.subs[a].graceUntil == None
            && st.subs[a].expiresAt == None && st.subs[a].apiKeyHash == None && st.subs[a].retentionSince == None
            && st.subs[a].heldYear == None && st.subs[a].exportsLeft == None
    decreases |es|
  {
    if es == [] {
      RealPruneIsSurvivors(w.store, cal, now, clocks);
    } else {
      if es[0].Prune? {
        RealPruneIsSurvivors(w.store, cal, es[0].now, es[0].clocks);
      }
      DeletionIsForGood(Next(w, cal, es[0]), cal, es[1..], a, now, clocks);
    }
  }
}
