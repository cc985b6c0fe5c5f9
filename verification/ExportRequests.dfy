/** The tax export handler as the three statements it is, any number of requests
    at once (services/manager/cmd/manager/routes.go). */
module ExportRequests {
  import opened Prelude
  import opened Retention
  import opened RetentionProofs
  import HeldExports

  /** A lapsed miner's request that has passed the check, for the year it is served. */
  datatype Request =
    | ToDeduct(a: Address, year: int)
    | ToQuery(a: Address, year: int)

  datatype State = State(store: Store, requests: map<nat, Request>)

  datatype Event =
    | Read(id: nat, a: Address, year: nat, ok: bool)
    | Deduct(id: nat, ok: bool)
    | Query(id: nat, ok: bool)
    | Other(step: HeldExports.Step)

  /** Everything else the tables live through; exports of paid miners change nothing. */
  function AfterOther(st: Store, cal: Calendar, step: HeldExports.Step): Store {
    if step.Export? then st else HeldExports.Next(HeldExports.World(st, map[]), cal, step).store
  }

  predicate Passes(s: State, e: Event) {
    e.Read? && e.ok && e.id !in s.requests && HeldExportYear(s.store.subs, e.a, e.year).Some?
  }

  predicate Deducts(s: State, e: Event) {
    e.Deduct? && e.id in s.requests && s.requests[e.id].ToDeduct?
  }

  predicate Queries(s: State, e: Event) {
    e.Query? && e.id in s.requests && s.requests[e.id].ToQuery?
  }

  /** A request that is refused, or not where the event finds it, changes nothing. */
  function Next(s: State, cal: Calendar, e: Event): State {
    match e
    case Read(id, a, year, _) =>
      if Passes(s, e) then s.(requests := s.requests[id := ToDeduct(a, HeldExportYear(s.store.subs, a, year).value)])
      else s
    case Deduct(id, ok) =>
      if Deducts(s, e) then
        var r := s.requests[id];
        State(if ok then s.store.(subs := Decrement(s.store.subs, r.a)) else s.store,
              s.requests[id := ToQuery(r.a, r.year)])
      else s
    case Query(id, _) => if Queries(s, e) then s.(requests := s.requests - {id}) else s
    case Other(step) => s.(store := AfterOther(s.store, cal, step))
  }

  function Run(s: State, cal: Calendar, es: seq<Event>): State
    decreases |es|
  {
    if es == [] then s else Run(Next(s, cal, es[0]), cal, es[1..])
  }

  // ----- One request by itself -----

  /** Without others in between, the three statements are the handler. */
  lemma AloneIsHandler(s: State, cal: Calendar, id: nat, a: Address, year: nat, calls: ExportCalls)
    requires id !in s.requests
    ensures var s1 := Next(s, cal, Read(id, a, year, calls.readOk));
            var s2 := Next(s1, cal, Deduct(id, calls.decrementOk));
            var s3 := Next(s2, cal, Query(id, calls.queryOk));
            var (st, result) := ExportWith(s.store, cal, a, year, false, calls);
            && s3 == s.(store := st)
            && (result.Forbidden? <==> !Passes(s, Read(id, a, year, calls.readOk)))
            && (!result.Forbidden? ==>
                  && id in s2.requests && s2.requests[id].ToQuery?
                  && result == Found(s2.store.payments, a, cal, s2.requests[id].year, calls))
  {
    var s1 := Next(s, cal, Read(id, a, year, calls.readOk));
    if Passes(s, Read(id, a, year, calls.readOk)) {
      var s2 := Next(s1, cal, Deduct(id, calls.decrementOk));
      assert s2.requests - {id} == s.requests;
    }
  }

  // ----- The books of one miner -----

  /** Downloads left; none without a hold. */
  function Left(st: Store, a: Address): nat {
    if a in st.subs && st.subs[a].exportsLeft.Some? then Max(0, st.subs[a].exportsLeft.value) else 0
  }

  function Deducting(requests: map<nat, Request>, a: Address): set<nat> {
    set id | id in requests && requests[id].ToDeduct? && requests[id].a == a
  }

  function Waiting(requests: map<nat, Request>, a: Address): set<nat> {
    set id | id in requests && requests[id].ToQuery? && requests[id].a == a
  }

  lemma OneMore(less: set<nat>, more: set<nat>, id: nat)
    requires id !in less && more == less + {id}
    ensures |more| == |less| + 1
  {
  }

  lemma Open(requests: map<nat, Request>, id: nat, r: Request, a: Address)
    requires id !in requests && r.ToDeduct?
    ensures Waiting(requests[id := r], a) == Waiting(requests, a)
    ensures |Deducting(requests[id := r], a)| == |Deducting(requests, a)| + (if r.a == a then 1 else 0)
  {
    if r.a == a {
      OneMore(Deducting(requests, a), Deducting(requests[id := r], a), id);
    } else {
      assert Deducting(requests[id := r], a) == Deducting(requests, a);
    }
  }

  lemma Move(requests: map<nat, Request>, id: nat, r: Request, a: Address)
    requires id in requests && requests[id].ToDeduct? && r == ToQuery(requests[id].a, requests[id].year)
    ensures |Waiting(requests[id := r], a)| == |Waiting(requests, a)| + (if r.a == a then 1 else 0)
    ensures |Deducting(requests[id := r], a)| == |Deducting(requests, a)| - (if r.a == a then 1 else 0)
  {
    if r.a == a {
      OneMore(Waiting(requests, a), Waiting(requests[id := r], a), id);
      OneMore(Deducting(requests[id := r], a), Deducting(requests, a), id);
    } else {
      assert Waiting(requests[id := r], a) == Waiting(requests, a);
      assert Deducting(requests[id := r], a) == Deducting(requests, a);
    }
  }

  lemma Finish(requests: map<nat, Request>, id: nat, a: Address)
    requires id in requests && requests[id].ToQuery?
    ensures |Waiting(requests - {id}, a)| == |Waiting(requests, a)| - (if requests[id].a == a then 1 else 0)
    ensures Deducting(requests - {id}, a) == Deducting(requests, a)
  {
    if requests[id].a == a {
      OneMore(Waiting(requests - {id}, a), Waiting(requests, a), id);
    } else {
      assert Waiting(requests - {id}, a) == Waiting(requests, a);
    }
  }

  /** What happened to miner a: downloads served, queries failed, decrements that
      failed or found nothing left, downloads lost to a deletion, holds granted. */
  datatype Tally = Tally(served: nat, failed: nat, wasted: nat, forfeited: nat, granted: nat)

  function Plus(x: Tally, y: Tally): Tally {
    Tally(x.served + y.served, x.failed + y.failed, x.wasted + y.wasted, x.forfeited + y.forfeited,
          x.granted + y.granted)
  }

  const NOTHING := Tally(0, 0, 0, 0, 0)

  function Count(s: State, cal: Calendar, e: Event, a: Address): Tally {
    match e
    case Read(_, _, _, _) => NOTHING
    case Deduct(id, ok) =>
      if Deducts(s, e) && s.requests[id].a == a && !(ok && 0 < Left(s.store, a)) then NOTHING.(wasted := 1) else NOTHING
    case Query(id, ok) =>
      if !(Queries(s, e) && s.requests[id].a == a) then NOTHING
      else if ok then NOTHING.(served := 1) else NOTHING.(failed := 1)
    case Other(step) =>
      if step.Prune? && HeldExports.IsGrant(s.store, cal, a, step.now, step.clocks[0]) then NOTHING.(granted := 1)
      else if step.Delete? && step.a == a then NOTHING.(forfeited := Left(s.store, a))
      else NOTHING
  }

  function TallyOf(s: State, cal: Calendar, es: seq<Event>, a: Address): Tally
    decreases |es|
  {
    if es == [] then NOTHING
    else Plus(Count(s, cal, es[0], a), TallyOf(Next(s, cal, es[0]), cal, es[1..], a))
  }

  ghost predicate Sound(st: Store, a: Address) {
    a in st.subs && (st.subs[a].heldYear.None? || st.subs[a].deletedAt.Some?) ==> st.subs[a].exportsLeft.None?
  }

  lemma OtherStep(st: Store, cal: Calendar, step: HeldExports.Step, a: Address)
    requires Sound(st, a)
    ensures var st' := AfterOther(st, cal, step);
            && Sound(st', a)
            && Left(st', a) == (if step.Prune? && HeldExports.IsGrant(st, cal, a, step.now, step.clocks[0])
                                then Left(st, a) + 2
                                else if step.Delete? && step.a == a then 0
                                else Left(st, a))
  {
    if step.Prune? {
      RealPruneIsSurvivors(st, cal, step.now, step.clocks);
    }
  }

  lemma DeductStep(s: State, cal: Calendar, id: nat, ok: bool, a: Address)
    requires Deducts(s, Deduct(id, ok))
    ensures var s' := Next(s, cal, Deduct(id, ok));
            var mine := s.requests[id].a == a;
            && |Waiting(s'.requests, a)| == |Waiting(s.requests, a)| + (if mine then 1 else 0)
            && |Deducting(s'.requests, a)| == |Deducting(s.requests, a)| - (if mine then 1 else 0)
            && Left(s'.store, a) == Left(s.store, a) - (if mine && ok && 0 < Left(s.store, a) then 1 else 0)
            && (Sound(s.store, a) ==> Sound(s'.store, a))
  {
    var r := s.requests[id];
    Move(s.requests, id, ToQuery(r.a, r.year), a);
  }

  lemma QueryStep(s: State, cal: Calendar, id: nat, ok: bool, a: Address)
    requires Queries(s, Query(id, ok))
    ensures var s' := Next(s, cal, Query(id, ok));
            && |Waiting(s'.requests, a)| == |Waiting(s.requests, a)| - (if s.requests[id].a == a then 1 else 0)
            && Deducting(s'.requests, a) == Deducting(s.requests, a) && s'.store == s.store
  {
    Finish(s.requests, id, a);
  }

  lemma ReadStep(s: State, cal: Calendar, e: Event, a: Address)
    requires Passes(s, e)
    ensures var s' := Next(s, cal, e);
            && s'.store == s.store && |Waiting(s'.requests, a)| == |Waiting(s.requests, a)|
            && |Deducting(s'.requests, a)| == |Deducting(s.requests, a)| + (if e.a == a then 1 else 0)
            && (e.a == a ==> 0 < Left(s.store, a))
  {
    Open(s.requests, e.id, ToDeduct(e.a, HeldExportYear(s.store.subs, e.a, e.year).value), a);
  }

  lemma BooksStep(s: State, cal: Calendar, e: Event, a: Address)
    requires Sound(s.store, a)
    ensures var s' := Next(s, cal, e);
            var c := Count(s, cal, e, a);
            && Sound(s'.store, a)
            && c.served + c.failed + c.forfeited + |Waiting(s'.requests, a)| + Left(s'.store, a)
               == |Waiting(s.requests, a)| + Left(s.store, a) + 2 * c.granted + c.wasted
  {
    match e {
      case Read(_, _, _, _) =>
        if Passes(s, e) {
          ReadStep(s, cal, e, a);
        }
      case Deduct(id, ok) =>
        if Deducts(s, e) {
          DeductStep(s, cal, id, ok, a);
        }
      case Query(id, ok) =>
        if Queries(s, e) {
          QueryStep(s, cal, id, ok, a);
        }
      case Other(step) =>
        OtherStep(s.store, cal, step, a);
        assert Waiting(Next(s, cal, e).requests, a) == Waiting(s.requests, a);
    }
  }

  /** Exactly how many downloads are served, in every run of overlapping and
      failing requests: two for each hold granted and one for each wasted
      decrement, less what is left, waiting, lost to a failing query or
      forfeited. So more than two a hold are served if and only if more
      decrements were wasted than that. */
  lemma {:induction false} ServedExactly(s: State, cal: Calendar, es: seq<Event>, a: Address)
    requires Sound(s.store, a)
    ensures var s', t := Run(s, cal, es), TallyOf(s, cal, es, a);
            && Sound(s'.store, a)
            && t.served + t.failed + t.forfeited + |Waiting(s'.requests, a)| + Left(s'.store, a)
               == |Waiting(s.requests, a)| + Left(s.store, a) + 2 * t.granted + t.wasted
    decreases |es|
  {
    if es == [] {
    } else {
      BooksStep(s, cal, es[0], a);
      ServedExactly(Next(s, cal, es[0]), cal, es[1..], a);
    }
  }

  // ----- When two a hold is kept -----

  /** Decrements succeed, and a request passes the check only while fewer are
      between check and decrement than downloads are left; none in between is
      enough. */
  predicate Careful(s: State, e: Event, a: Address) {
    && (Deducts(s, e) && s.requests[e.id].a == a ==> e.ok)
    && (Passes(s, e) && e.a == a ==> |Deducting(s.requests, a)| < Left(s.store, a))
  }

  /** It is careful to let no request pass while another one is in between. */
  lemma OneAtATimeIsCareful(s: State, e: Event, a: Address)
    requires Deducts(s, e) && s.requests[e.id].a == a ==> e.ok
    requires Passes(s, e) && e.a == a ==> Deducting(s.requests, a) == {}
    ensures Careful(s, e, a)
  {
  }

  ghost predicate IsCarefulRun(s: State, cal: Calendar, es: seq<Event>, a: Address)
    decreases |es|
  {
    es == [] || (Careful(s, es[0], a) && IsCarefulRun(Next(s, cal, es[0]), cal, es[1..], a))
  }

  /** Requests that nothing is left for. */
  function Overdrawn(s: State, a: Address): nat {
    Max(0, |Deducting(s.requests, a)| - Left(s.store, a))
  }

  lemma CarefulStep(s: State, cal: Calendar, e: Event, a: Address)
    requires Sound(s.store, a) && Careful(s, e, a)
    ensures Count(s, cal, e, a).wasted + Overdrawn(Next(s, cal, e), a)
            <= Count(s, cal, e, a).forfeited + Overdrawn(s, a)
  {
    match e {
      case Read(_, _, _, _) =>
        if Passes(s, e) {
          ReadStep(s, cal, e, a);
        }
      case Deduct(id, ok) =>
        if Deducts(s, e) {
          DeductStep(s, cal, id, ok, a);
        }
      case Query(id, ok) =>
        if Queries(s, e) {
          QueryStep(s, cal, id, ok, a);
        }
      case Other(step) =>
        OtherStep(s.store, cal, step, a);
        assert Deducting(Next(s, cal, e).requests, a) == Deducting(s.requests, a);
    }
  }

  lemma {:induction false} CarefulRunWastesNothing(s: State, cal: Calendar, es: seq<Event>, a: Address)
    requires Sound(s.store, a) && IsCarefulRun(s, cal, es, a)
    ensures TallyOf(s, cal, es, a).wasted + Overdrawn(Run(s, cal, es), a)
            <= TallyOf(s, cal, es, a).forfeited + Overdrawn(s, a)
    decreases |es|
  {
    if es == [] {
    } else {
      CarefulStep(s, cal, es[0], a);
      BooksStep(s, cal, es[0], a);
      CarefulRunWastesNothing(Next(s, cal, es[0]), cal, es[1..], a);
    }
  }

  /** In every careful run from a state without open requests, at most two
      downloads a hold are served, and of a hold that was there at the start at
      most what was left of it. */
  lemma TwoDownloadsAHold(s: State, cal: Calendar, es: seq<Event>, a: Address)
    requires Sound(s.store, a) && Deducting(s.requests, a) == {} && Waiting(s.requests, a) == {}
    requires IsCarefulRun(s, cal, es, a)
    ensures TallyOf(s, cal, es, a).served <= Left(s.store, a) + 2 * TallyOf(s, cal, es, a).granted
  {
    ServedExactly(s, cal, es, a);
    CarefulRunWastesNothing(s, cal, es, a);
  }

  // ----- When it is not -----

  /** The event e, then the run es after it. */
  lemma First(s: State, cal: Calendar, e: Event, es: seq<Event>, a: Address)
    ensures Run(s, cal, [e] + es) == Run(Next(s, cal, e), cal, es)
    ensures TallyOf(s, cal, [e] + es, a) == Plus(Count(s, cal, e, a), TallyOf(Next(s, cal, e), cal, es, a))
    ensures Careful(s, e, a) && IsCarefulRun(Next(s, cal, e), cal, es, a) ==> IsCarefulRun(s, cal, [e] + es, a)
  {
    assert ([e] + es)[0] == e && ([e] + es)[1..] == es;
  }

  /** The run finishes all open requests of a miner: each is served, whatever is
      left, and each one too many wastes its decrement. */
  ghost predicate Finishes(s: State, cal: Calendar, es: seq<Event>, a: Address) {
    && IsCarefulRun(s, cal, es, a)
    && Left(Run(s, cal, es).store, a) == Max(0, Left(s.store, a) - |Deducting(s.requests, a)|)
    && TallyOf(s, cal, es, a)
       == NOTHING.(served := |Deducting(s.requests, a)| + |Waiting(s.requests, a)|, wasted := Overdrawn(s, a))
  }

  /** That can always be done, and without any failure. */
  lemma {:induction false} FinishServesAll(s: State, cal: Calendar, a: Address) returns (es: seq<Event>)
    ensures Finishes(s, cal, es, a)
    decreases 2 * |Deducting(s.requests, a)| + |Waiting(s.requests, a)|
  {
    if id :| id in Deducting(s.requests, a) {
      DeductStep(s, cal, id, true, a);
      var rest := FinishServesAll(Next(s, cal, Deduct(id, true)), cal, a);
      DeductFinishes(s, cal, id, rest, a);
      es := [Deduct(id, true)] + rest;
    } else if id :| id in Waiting(s.requests, a) {
      QueryStep(s, cal, id, true, a);
      var rest := FinishServesAll(Next(s, cal, Query(id, true)), cal, a);
      QueryFinishes(s, cal, id, rest, a);
      es := [Query(id, true)] + rest;
    } else {
      assert Deducting(s.requests, a) == {} && Waiting(s.requests, a) == {};
      es := [];
    }
  }

  lemma DeductFinishes(s: State, cal: Calendar, id: nat, rest: seq<Event>, a: Address)
    requires id in Deducting(s.requests, a) && Finishes(Next(s, cal, Deduct(id, true)), cal, rest, a)
    ensures Finishes(s, cal, [Deduct(id, true)] + rest, a)
  {
    var s' := Next(s, cal, Deduct(id, true));
    DeductStep(s, cal, id, true, a);
    First(s, cal, Deduct(id, true), rest, a);
    PlusServed(Count(s, cal, Deduct(id, true), a),
               |Deducting(s'.requests, a)| + |Waiting(s'.requests, a)|, Overdrawn(s', a));
  }

  lemma QueryFinishes(s: State, cal: Calendar, id: nat, rest: seq<Event>, a: Address)
    requires id in Waiting(s.requests, a) && Finishes(Next(s, cal, Query(id, true)), cal, rest, a)
    ensures Finishes(s, cal, [Query(id, true)] + rest, a)
  {
    var s' := Next(s, cal, Query(id, true));
    QueryStep(s, cal, id, true, a);
    QueryTally(s, cal, id, rest, a, |Deducting(s'.requests, a)| + |Waiting(s'.requests, a)|, Overdrawn(s', a));
    First(s, cal, Query(id, true), rest, a);
  }

  lemma QueryTally(s: State, cal: Calendar, id: nat, rest: seq<Event>, a: Address, served: nat, wasted: nat)
    requires id in Waiting(s.requests, a)
    requires TallyOf(Next(s, cal, Query(id, true)), cal, rest, a) == NOTHING.(served := served, wasted := wasted)
    ensures TallyOf(s, cal, [Query(id, true)] + rest, a) == NOTHING.(served := served + 1, wasted := wasted)
  {
    First(s, cal, Query(id, true), rest, a);
    CountQuery(s, cal, id, a);
    PlusServed(Count(s, cal, Query(id, true), a), served, wasted);
  }

  lemma CountQuery(s: State, cal: Calendar, id: nat, a: Address)
    requires id in Waiting(s.requests, a)
    ensures Count(s, cal, Query(id, true), a) == NOTHING.(served := 1)
  {
  }

  lemma PlusServed(c: Tally, served: nat, wasted: nat)
    requires c.failed == 0 && c.forfeited == 0 && c.granted == 0
    ensures Plus(c, NOTHING.(served := served, wasted := wasted))
            == NOTHING.(served := c.served + served, wasted := c.wasted + wasted)
  {
  }

  lemma NewId(ids: set<nat>) returns (id: nat)
    ensures id !in ids
    ensures forall x | x in ids :: x < id
  {
    if ids == {} {
      id := 0;
    } else {
      var x :| x in ids;
      var below := NewId(ids - {x});
      id := Max(below, x + 1);
      assert forall y | y in ids :: y == x || y in ids - {x};
    }
  }

  /** "Exactly two downloads" is false: as long as one is left, any number k of
      requests can pass the check before one of them decrements. All of them are
      served, and those already open with them, though nothing fails and the
      count stops at zero. */
  lemma {:induction false} OverlappingExportsOverserve(s: State, cal: Calendar, a: Address, k: nat)
    returns (es: seq<Event>)
    requires HeldExportYear(s.store.subs, a, 0).Some?
    ensures var open := |Deducting(s.requests, a)| + k;
            && TallyOf(s, cal, es, a)
               == NOTHING.(served := open + |Waiting(s.requests, a)|, wasted := Max(0, open - Left(s.store, a)))
            && Left(Run(s, cal, es).store, a) == Max(0, Left(s.store, a) - open)
            && (open <= Left(s.store, a) ==> IsCarefulRun(s, cal, es, a))
    decreases k
  {
    if k == 0 {
      es := FinishServesAll(s, cal, a);
    } else {
      var id := NewId(s.requests.Keys);
      var e := Read(id, a, 0, true);
      ReadStep(s, cal, e, a);
      var rest := OverlappingExportsOverserve(Next(s, cal, e), cal, a, k - 1);
      First(s, cal, e, rest, a);
      es := [e] + rest;
    }
  }

  /** k requests, one after the other, whose decrements fail. */
  function Unpaid(id: nat, a: Address, k: nat): seq<Event> {
    if k == 0 then []
    else [Read(id, a, 0, true)] + ([Deduct(id, false)] + ([Query(id, true)] + Unpaid(id, a, k - 1)))
  }

  /** Nor do requests have to overlap: any number of them whose decrement fails
      are served one after the other, and the count does not move. */
  lemma FailedDecrementsOverserve(s: State, cal: Calendar, id: nat, a: Address, k: nat)
    requires HeldExportYear(s.store.subs, a, 0).Some? && id !in s.requests
    ensures Run(s, cal, Unpaid(id, a, k)) == s
    ensures TallyOf(s, cal, Unpaid(id, a, k), a) == NOTHING.(served := k, wasted := k)
  {
    UnpaidChangesNothing(s, cal, id, a, k);
    UnpaidServed(s, cal, id, a, k);
  }

  lemma {:induction false} UnpaidServed(s: State, cal: Calendar, id: nat, a: Address, k: nat)
    requires HeldExportYear(s.store.subs, a, 0).Some? && id !in s.requests
    ensures TallyOf(s, cal, Unpaid(id, a, k), a) == NOTHING.(served := k, wasted := k)
  {
    if k == 0 {
    } else {
      UnpaidServed(s, cal, id, a, k - 1);
      FailedDecrement(s, cal, id, a, Unpaid(id, a, k - 1));
    }
  }

  lemma {:induction false} UnpaidChangesNothing(s: State, cal: Calendar, id: nat, a: Address, k: nat)
    requires HeldExportYear(s.store.subs, a, 0).Some? && id !in s.requests
    ensures Run(s, cal, Unpaid(id, a, k)) == s
  {
    if k == 0 {
    } else {
      UnpaidChangesNothing(s, cal, id, a, k - 1);
      FailedDecrement(s, cal, id, a, Unpaid(id, a, k - 1));
    }
  }

  lemma FailedDecrement(s: State, cal: Calendar, id: nat, a: Address, rest: seq<Event>)
    requires HeldExportYear(s.store.subs, a, 0).Some? && id !in s.requests
    ensures var es := [Read(id, a, 0, true)] + ([Deduct(id, false)] + ([Query(id, true)] + rest));
            && Run(s, cal, es) == Run(s, cal, rest)
            && TallyOf(s, cal, es, a) == Plus(NOTHING.(served := 1, wasted := 1), TallyOf(s, cal, rest, a))
  {
    var y := HeldExportYear(s.store.subs, a, 0).value;
    var s1 := s.(requests := s.requests[id := ToDeduct(a, y)]);
    var s2 := s.(requests := s.requests[id := ToQuery(a, y)]);
    assert Next(s, cal, Read(id, a, 0, true)) == s1;
    assert Next(s1, cal, Deduct(id, false)) == s2 by {
      assert s1.requests[id := ToQuery(a, y)] == s2.requests;
    }
    assert Next(s2, cal, Query(id, true)) == s by {
      assert s2.requests - {id} == s.requests;
    }
    First(s2, cal, Query(id, true), rest, a);
    First(s1, cal, Deduct(id, false), [Query(id, true)] + rest, a);
    First(s, cal, Read(id, a, 0, true), [Deduct(id, false)] + ([Query(id, true)] + rest), a);
    assert Count(s, cal, Read(id, a, 0, true), a) == NOTHING;
    assert Count(s1, cal, Deduct(id, false), a) == NOTHING.(wasted := 1);
    assert Count(s2, cal, Query(id, true), a) == NOTHING.(served := 1);
    SumUp(TallyOf(s, cal, rest, a));
  }

  lemma SumUp(t: Tally)
    ensures Plus(NOTHING, Plus(NOTHING.(wasted := 1), Plus(NOTHING.(served := 1), t)))
            == Plus(NOTHING.(served := 1, wasted := 1), t)
  {
  }

  /** The check is the place to be careful: a request that passes while as many
      are between check and decrement as downloads are left overserves, if all
      of them are finished, by each one too many. */
  lemma UncarefulReadOverserves(s: State, cal: Calendar, e: Event, a: Address) returns (es: seq<Event>)
    requires Passes(s, e) && e.a == a && Waiting(s.requests, a) == {}
    ensures !Careful(s, e, a) <==>
            TallyOf(Next(s, cal, e), cal, es, a).served > Left(s.store, a)
  {
    ReadStep(s, cal, e, a);
    es := FinishServesAll(Next(s, cal, e), cal, a);
  }

  /** The event and the run after it serve more than was waiting, left or granted. */
  predicate Overserves(s: State, cal: Calendar, e: Event, es: seq<Event>, a: Address) {
    var t := Plus(Count(s, cal, e, a), TallyOf(Next(s, cal, e), cal, es, a));
    |Waiting(s.requests, a)| + Left(s.store, a) + 2 * t.granted < t.served
  }

  lemma CarefulNeverOverserves(s: State, cal: Calendar, e: Event, es: seq<Event>, a: Address)
    requires Sound(s.store, a) && Overdrawn(s, a) == 0
    requires Careful(s, e, a) && IsCarefulRun(Next(s, cal, e), cal, es, a)
    ensures !Overserves(s, cal, e, es, a)
  {
    BooksStep(s, cal, e, a);
    CarefulStep(s, cal, e, a);
    ServedExactly(Next(s, cal, e), cal, es, a);
    CarefulRunWastesNothing(Next(s, cal, e), cal, es, a);
  }

  /** After a decrement that fails, the downloads it left uncounted can be served
      as well. */
  lemma FailedDeductOverserves(s: State, cal: Calendar, id: nat, a: Address) returns (es: seq<Event>)
    requires Sound(s.store, a) && Overdrawn(s, a) == 0
    requires Deducts(s, Deduct(id, false)) && s.requests[id].a == a
    ensures IsCarefulRun(Next(s, cal, Deduct(id, false)), cal, es, a)
    ensures Overserves(s, cal, Deduct(id, false), es, a)
  {
    var s' := Next(s, cal, Deduct(id, false));
    DeductStep(s, cal, id, false, a);
    assert id in Deducting(s.requests, a);
    assert 0 < |Deducting(s.requests, a)| <= Left(s.store, a);
    assert HeldExportYear(s'.store.subs, a, 0).Some?;
    es := OverlappingExportsOverserve(s', cal, a, Left(s.store, a) - |Deducting(s'.requests, a)|);
  }

  lemma UncarefulReadServesMore(s: State, cal: Calendar, e: Event, a: Address) returns (es: seq<Event>)
    requires Passes(s, e) && e.a == a && !Careful(s, e, a)
    ensures IsCarefulRun(Next(s, cal, e), cal, es, a) && Overserves(s, cal, e, es, a)
  {
    ReadStep(s, cal, e, a);
    es := FinishServesAll(Next(s, cal, e), cal, a);
  }

  /** Care, exactly: while no more requests are between check and decrement than
      downloads are left, an event is careful if and only if no careful run after
      it serves more than was waiting, left or granted. */
  lemma CarefulIsExact(s: State, cal: Calendar, e: Event, a: Address)
    requires Sound(s.store, a) && Overdrawn(s, a) == 0
    ensures Careful(s, e, a)
            <==> forall es | IsCarefulRun(Next(s, cal, e), cal, es, a) :: !Overserves(s, cal, e, es, a)
  {
    if Careful(s, e, a) {
      forall es | IsCarefulRun(Next(s, cal, e), cal, es, a) ensures !Overserves(s, cal, e, es, a) {
        CarefulNeverOverserves(s, cal, e, es, a);
      }
    } else if e.Read? {
      var es := UncarefulReadServesMore(s, cal, e, a);
    } else {
      var es := FailedDeductOverserves(s, cal, e.id, a);
    }
  }
}
