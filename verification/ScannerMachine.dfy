/** The coinbase scanner as a state machine over the steps its goroutines take
    between lock boundaries (services/manager/internal/scanner/scanner.go).
    Any number of goroutines may run; the program starts two. */
module ScannerMachine {
  import opened Prelude
  import opened BlockStore

  /** Where one goroutine stands. */
  datatype Pc =
    | Idle
    | Selected(heights: set<nat>)   // recovery: rows read, lock not yet taken
    | NeedTip                       // recovery: heights added, header not yet fetched
    | Checking(tip: nat)            // about to lock in checkConfirmations
    | Working(tip: nat, todo: seq<nat>)
    | Processing(tip: nat, height: nat, todo: seq<nat>, stage: Stage)
    | Failing(tip: nat, height: nat, todo: seq<nat>)

  /** The heights a goroutine has taken out of the pending set. */
  function Holds(pc: Pc): seq<nat> {
    match pc
    case Working(_, todo) => todo
    case Processing(_, h, todo, _) => [h] + todo
    case Failing(_, h, todo) => [h] + todo
    case _ => []
  }

  /** `seen`, `tips` and `done` only record history: heights ever added to the
      pending set, tips ever seen, heights processBlock returned nil for. */
  datatype State = State(depth: nat, pending: set<nat>, db: Db, workers: seq<Pc>,
                         seen: set<nat>, tips: set<nat>, done: set<nat>)

  datatype Step =
    | Index(h: nat)
    | Crash
    | Announce(w: nat, h: nat)
    | SelectRows(w: nat)
    | AddSelected(w: nat)
    | FetchTip(w: nat, tip: Option<nat>)
    | Take(w: nat, order: seq<nat>)
    | Begin(w: nat)
    | CheckExists(w: nat, readOk: bool)
    | GetBlock(w: nat, answer: BlockAnswer, updateOk: bool)
    | Extract(w: nat, tx: TxAnswer, rates: RateAnswer)
    | Record(w: nat, commitOk: bool)
    | Requeue(w: nat)

  /** The step is one of processing a block. */
  predicate IsProcessing(e: Step) {
    e.CheckExists? || e.GetBlock? || e.Extract? || e.Record?
  }

  predicate IsDeep(h: nat, tip: nat, depth: nat) {
    h <= tip && tip - h >= depth
  }

  /** The pending heights that are deep enough below the tip. */
  function Confirmed(pending: set<nat>, tip: nat, depth: nat): set<nat> {
    set h | h in pending && IsDeep(h, tip, depth)
  }

  /** What a recovery pass takes: nothing when there was nothing to recover or
      the tip could not be fetched. */
  function RecoveryReady(pending: set<nat>, db: Db, tip: Option<nat>, depth: nat): set<nat> {
    if tip.Some? && UnprocessedHeights(db) != {} then Confirmed(pending + UnprocessedHeights(db), tip.value, depth)
    else {}
  }

  ghost predicate Enabled(s: State, e: Step) {
    match e
    case Index(_) => true
    case Crash => true
    case Announce(w, _) => w < |s.workers| && s.workers[w].Idle?
    case SelectRows(w) => w < |s.workers| && s.workers[w].Idle?
    case AddSelected(w) => w < |s.workers| && s.workers[w].Selected?
    case FetchTip(w, _) => w < |s.workers| && s.workers[w].NeedTip?
    case Take(w, order) =>
      w < |s.workers| && s.workers[w].Checking? &&
      IsOrder(order, Confirmed(s.pending, s.workers[w].tip, s.depth))
    case Begin(w) => w < |s.workers| && s.workers[w].Working?
    case CheckExists(w, _) => w < |s.workers| && s.workers[w].Processing? && s.workers[w].stage.AtExists?
    case GetBlock(w, _, _) => w < |s.workers| && s.workers[w].Processing? && s.workers[w].stage.AtBackfill?
    case Extract(w, _, rates) =>
      w < |s.workers| && s.workers[w].Processing? && s.workers[w].stage.AtExtract? && ValidRates(rates)
    case Record(w, _) => w < |s.workers| && s.workers[w].Processing? && s.workers[w].stage.AtRecord?
    case Requeue(w) => w < |s.workers| && s.workers[w].Failing?
  }

  function At(s: State, w: nat, pc: Pc): State
    requires w < |s.workers|
  {
    s.(workers := s.workers[w := pc])
  }

  /** Goroutine w, processing a block, learns how the last statement went. */
  function Advance(s: State, w: nat, db: Db, next: Next): State
    requires w < |s.workers| && s.workers[w].Processing?
  {
    var pc := s.workers[w];
    match next
    case Continue(stage) => At(s.(db := db), w, pc.(stage := stage))
    case Return(true) => At(s.(db := db, done := s.done + {pc.height}), w, Working(pc.tip, pc.todo))
    case Return(false) => At(s.(db := db), w, Failing(pc.tip, pc.height, pc.todo))
  }

  ghost function Apply(s: State, e: Step): State
    requires Enabled(s, e)
  {
    match e
    case Index(h) => s.(db := IndexBlock(s.db, h))
    case Crash => s.(pending := {}, workers := seq(|s.workers|, _ => Idle))
    case Announce(w, h) =>
      At(s.(pending := s.pending + {h}, seen := s.seen + {h}, tips := s.tips + {h}), w, Checking(h))
    case SelectRows(w) =>
      var heights := UnprocessedHeights(s.db);
      At(s, w, if heights == {} then Idle else Selected(heights))
    case AddSelected(w) =>
      var heights := s.workers[w].heights;
      At(s.(pending := s.pending + heights, seen := s.seen + heights), w, NeedTip)
    case FetchTip(w, None) => At(s, w, Idle)
    case FetchTip(w, Some(t)) => At(s.(tips := s.tips + {t}), w, Checking(t))
    case Take(w, order) =>
      var tip := s.workers[w].tip;
      At(s.(pending := s.pending - Confirmed(s.pending, tip, s.depth)), w, Working(tip, order))
    case Begin(w) =>
      var pc := s.workers[w];
      At(s, w, if pc.todo == [] then Idle else Processing(pc.tip, pc.todo[0], pc.todo[1..], AtExists))
    case CheckExists(w, readOk) =>
      Advance(s, w, s.db, AfterExists(s.db, s.workers[w].height, readOk))
    case GetBlock(w, answer, updateOk) =>
      var (db, next) := AfterBlock(s.db, s.workers[w].height, answer, updateOk);
      Advance(s, w, db, next)
    case Extract(w, tx, rates) =>
      var pc := s.workers[w];
      Advance(s, w, s.db, AfterExtract(s.db, pc.height, pc.stage.hash, tx, rates))
    case Record(w, commitOk) =>
      var pc := s.workers[w];
      var (db, next) := AfterRecord(s.db, pc.height, pc.stage.payments, commitOk);
      Advance(s, w, db, next)
    case Requeue(w) =>
      var pc := s.workers[w];
      At(s.(pending := s.pending + {pc.height}), w, Working(pc.tip, pc.todo))
  }

  ghost predicate IsRun(s: State, es: seq<Step>)
    decreases |es|, 0
  {
    es == [] || (IsRun(s, es[..|es| - 1]) && Enabled(Run(s, es[..|es| - 1]), es[|es| - 1]))
  }

  ghost function Run(s: State, es: seq<Step>): State
    requires IsRun(s, es)
    decreases |es|, 1
  {
    if es == [] then s else Apply(Run(s, es[..|es| - 1]), es[|es| - 1])
  }

  /** The program at start-up: nothing pending, every goroutine idle, whatever
      the database holds. */
  ghost predicate Init(s: State) {
    && s.pending == {} && s.seen == {} && s.tips == {} && s.done == {}
    && forall w | 0 <= w < |s.workers| :: s.workers[w] == Idle
  }

  // ----- No height is lost -----

  ghost predicate Held(s: State, h: nat) {
    exists w :: 0 <= w < |s.workers| && h in Holds(s.workers[w])
  }

  /** Every height ever added to the pending set is pending, in the hands of a
      goroutine, or processed. */
  ghost predicate Accounted(s: State) {
    forall h | h in s.seen :: h in s.pending || h in s.done || Held(s, h)
  }

  ghost predicate SeenDeep(s: State, h: nat) {
    exists t :: t in s.tips && IsDeep(h, t, s.depth)
  }

  ghost predicate TipKnown(s: State, pc: Pc) {
    && (pc.Checking? ==> pc.tip in s.tips)
    && forall h | h in Holds(pc) :: SeenDeep(s, h)
  }

  /** Nothing is taken or processed before it is deep enough under a seen tip. */
  ghost predicate NeverEarly(s: State) {
    && (forall w | 0 <= w < |s.workers| :: TipKnown(s, s.workers[w]))
    && forall h | h in s.done :: SeenDeep(s, h)
  }

  lemma HoldsAfterMove(s: State, s': State, w: nat)
    requires w < |s.workers| == |s'.workers|
    requires forall v | 0 <= v < |s.workers| && v != w :: s'.workers[v] == s.workers[v]
    ensures forall h :: Held(s, h) ==> Held(s', h) || h in Holds(s.workers[w])
  {
    forall h | Held(s, h) && h !in Holds(s.workers[w]) ensures Held(s', h) {
      var v :| 0 <= v < |s.workers| && h in Holds(s.workers[v]);
      assert s'.workers[v] == s.workers[v];
    }
  }

  lemma HeldBy(s: State, w: nat)
    requires w < |s.workers|
    ensures forall h | h in Holds(s.workers[w]) :: Held(s, h)
  {
  }

  function Actor(e: Step): nat
    requires !e.Index? && !e.Crash?
  {
    e.w
  }

  /** A step of a goroutine keeps each of its heights somewhere. */
  lemma ActorKeeps(s: State, e: Step, h: nat)
    requires Enabled(s, e) && !e.Index? && !e.Crash?
    requires h in Holds(s.workers[Actor(e)])
    ensures h in Holds(Apply(s, e).workers[Actor(e)]) || h in Apply(s, e).pending || h in Apply(s, e).done
  {
  }

  lemma AccountedStep(s: State, e: Step)
    requires Accounted(s) && Enabled(s, e) && !e.Crash?
    ensures Accounted(Apply(s, e))
  {
    var s' := Apply(s, e);
    if e.Index? {
      assert forall h | Held(s, h) :: Held(s', h);
    } else {
      var w := Actor(e);
      HoldsAfterMove(s, s', w);
      HeldBy(s', w);
      forall h | h in s'.seen ensures h in s'.pending || h in s'.done || Held(s', h) {
        if h in Holds(s.workers[w]) {
          ActorKeeps(s, e, h);
        }
      }
    }
  }

  lemma TipKnownMonotone(s: State, s': State, pc: Pc)
    requires TipKnown(s, pc) && s.tips <= s'.tips && s.depth == s'.depth
    ensures TipKnown(s', pc)
  {
    forall h | h in Holds(pc) ensures SeenDeep(s', h) {
      var t :| t in s.tips && IsDeep(h, t, s.depth);
      assert t in s'.tips;
    }
  }

  lemma ActorTipKnown(s: State, e: Step)
    requires NeverEarly(s) && Enabled(s, e) && !e.Index? && !e.Crash?
    ensures TipKnown(Apply(s, e), Apply(s, e).workers[Actor(e)])
  {
    var s' := Apply(s, e);
    var w := Actor(e);
    TipKnownMonotone(s, s', s.workers[w]);
    if e.Take? {
      forall h | h in e.order ensures SeenDeep(s', h) {
        assert s.workers[w].tip in s'.tips;
      }
    } else {
      assert forall h | h in Holds(s'.workers[w]) :: h in Holds(s.workers[w]);
    }
  }

  lemma NeverEarlyStep(s: State, e: Step)
    requires NeverEarly(s) && Enabled(s, e)
    ensures NeverEarly(Apply(s, e))
  {
    var s' := Apply(s, e);
    forall v | 0 <= v < |s'.workers| ensures TipKnown(s', s'.workers[v]) {
      if !e.Index? && !e.Crash? && v == Actor(e) {
        ActorTipKnown(s, e);
      } else if !e.Crash? {
        TipKnownMonotone(s, s', s.workers[v]);
      }
    }
    forall h | h in s'.done ensures SeenDeep(s', h) {
      if h !in s.done {
        assert h in Holds(s.workers[Actor(e)]);
        assert SeenDeep(s, h);
      }
      var t :| t in s.tips && IsDeep(h, t, s.depth);
      assert t in s'.tips;
    }
  }

  /** No height is lost. In every run of any number of goroutines, whatever
      fails, each height ever announced or recovered is pending, in some
      goroutine's hands, or processed; and none is processed before a tip at
      least `depth` above it has been seen. */
  lemma {:induction false} NoHeightLost(s: State, es: seq<Step>)
    requires Init(s) && IsRun(s, es)
    requires forall i | 0 <= i < |es| :: !es[i].Crash?
    ensures Accounted(Run(s, es)) && NeverEarly(Run(s, es))
    decreases |es|
  {
    if es == [] {
    } else {
      var n := |es| - 1;
      NoHeightLost(s, es[..n]);
      AccountedStep(Run(s, es[..n]), es[n]);
      NeverEarlyStep(Run(s, es[..n]), es[n]);
    }
  }

  // ----- Composing runs -----

  /** s' follows s in some run that announces none of the quiet heights. */
  ghost predicate Leads(s: State, s': State, quiet: set<nat>) {
    exists es :: IsRun(s, es) && Run(s, es) == s' && Quiet(es, quiet)
  }

  ghost predicate Quiet(es: seq<Step>, quiet: set<nat>) {
    forall i | 0 <= i < |es| && es[i].Announce? :: es[i].h !in quiet
  }

  lemma {:induction false} RunConcat(s: State, es: seq<Step>, fs: seq<Step>)
    requires IsRun(s, es) && IsRun(Run(s, es), fs)
    ensures IsRun(s, es + fs) && Run(s, es + fs) == Run(Run(s, es), fs)
    decreases |fs|
  {
    if fs == [] {
      assert es + fs == es;
    } else {
      var n := |fs| - 1;
      RunConcat(s, es, fs[..n]);
      assert (es + fs)[..|es + fs| - 1] == es + fs[..n];
    }
  }

  lemma OneStep(s: State, e: Step)
    requires Enabled(s, e)
    ensures IsRun(s, [e]) && Run(s, [e]) == Apply(s, e)
  {
    assert [e][..0] == [];
    assert IsRun(s, []) && Run(s, []) == s;
  }

  lemma Stay(s: State, quiet: set<nat>)
    ensures Leads(s, s, quiet)
  {
    assert IsRun(s, []) && Run(s, []) == s && Quiet([], quiet);
  }

  lemma Then(s: State, m: State, e: Step, quiet: set<nat>)
    requires Leads(s, m, quiet) && Enabled(m, e) && (e.Announce? ==> e.h !in quiet)
    ensures Leads(s, Apply(m, e), quiet)
  {
    var es :| IsRun(s, es) && Run(s, es) == m && Quiet(es, quiet);
    OneStep(m, e);
    RunConcat(s, es, [e]);
    assert Quiet(es + [e], quiet);
  }
}
