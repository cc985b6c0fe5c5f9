/** Tier, expiry and grace in closed form, and why the order of one scan's
    transfers does not matter. */
module ExpiryProofs {
  import opened Prelude
  import opened Tiers
  import opened Ledger

  /** The activations of one miner. */
  function Of(acts: seq<Activation>, a: Address): seq<Activation> {
    if acts == [] then [] else
      var n := |acts| - 1;
      Of(acts[..n], a) + (if acts[n].miner == a then [acts[n]] else [])
  }

  function Times(acts: seq<Activation>): (ts: seq<int>)
    ensures |ts| == |acts|
  {
    seq(|acts|, i requires 0 <= i < |acts| => acts[i].at)
  }

  /** Expiry after activations at the given times, one after the other. */
  function ExtendAll(expiry: Option<int>, times: seq<int>, duration: nat): (r: Option<int>)
    ensures times != [] ==> r.Some?
  {
    if times == [] then expiry
    else Some(Extend(ExtendAll(expiry, times[..|times| - 1], duration), times[|times| - 1], duration))
  }

  function Higher(x: Tier, y: Tier): Tier {
    if Rank(x) >= Rank(y) then x else y
  }

  function BestTier(tier: Tier, acts: seq<Activation>): Tier {
    if acts == [] then tier else Higher(BestTier(tier, acts[..|acts| - 1]), acts[|acts| - 1].tier)
  }

  datatype Terms = Terms(tier: Tier, expiresAt: Option<int>, graceUntil: Option<int>)

  function TermsOf(subs: map<Address, Subscription>, a: Address): Terms {
    if a in subs then Terms(subs[a].tier, subs[a].expiresAt, subs[a].graceUntil) else Terms(Free, None, None)
  }

  function TermsAfter(t: Tables, cfg: Config, a: Address, acts: seq<Activation>): Terms {
    if acts == [] then TermsOf(t.subs, a)
    else
      var expiresAt := ExtendAll(PaidExpiry(t.subs, a), Times(acts), cfg.duration);
      Terms(BestTier(TermsOf(t.subs, a).tier, acts), expiresAt, Some(expiresAt.value + cfg.grace))
  }

  ghost predicate ReadsExpiry(ops: seq<Op>) {
    forall i | 0 <= i < |ops| && ops[i].Process? :: ops[i].env.expiryReadOk
  }

  lemma TermsStep(t: Tables, cfg: Config, op: Op, a: Address)
    requires op.Process? ==> op.env.expiryReadOk
    ensures var (t', r) := Step(t, cfg, op);
            TermsOf(t'.subs, a) ==
              if r.Activated? && r.activation.miner == a
              then var e := Extend(PaidExpiry(t.subs, a), r.activation.at, cfg.duration);
                   Terms(Higher(TermsOf(t.subs, a).tier, r.activation.tier), Some(e), Some(e + cfg.grace))
              else TermsOf(t.subs, a)
    ensures var (t', r) := Step(t, cfg, op);
            PaidExpiry(t'.subs, a) ==
              if r.Activated? && r.activation.miner == a
              then Some(Extend(PaidExpiry(t.subs, a), r.activation.at, cfg.duration))
              else PaidExpiry(t.subs, a)
  {
  }

  lemma SnocTerms(t: Tables, cfg: Config, a: Address, acts: seq<Activation>, x: Activation)
    ensures Times(acts + [x]) == Times(acts) + [x.at]
    ensures ExtendAll(PaidExpiry(t.subs, a), Times(acts + [x]), cfg.duration)
            == Some(Extend(ExtendAll(PaidExpiry(t.subs, a), Times(acts), cfg.duration), x.at, cfg.duration))
    ensures BestTier(TermsOf(t.subs, a).tier, acts + [x]) == Higher(BestTier(TermsOf(t.subs, a).tier, acts), x.tier)
  {
    assert (acts + [x])[..|acts|] == acts;
    assert Times(acts + [x]) == Times(acts) + [x.at];
    assert (Times(acts) + [x.at])[..|acts|] == Times(acts);
  }

  lemma OfSnoc(acts: seq<Activation>, x: Activation, a: Address)
    ensures Of(acts + [x], a) == Of(acts, a) + (if x.miner == a then [x] else [])
  {
    assert (acts + [x])[..|acts|] == acts;
  }

  /** The miner's terms in m are those its activations since t give it. */
  ghost predicate Matches(t: Tables, cfg: Config, a: Address, m: Tables, mine: seq<Activation>) {
    && TermsOf(m.subs, a) == TermsAfter(t, cfg, a, mine)
    && PaidExpiry(m.subs, a) == ExtendAll(PaidExpiry(t.subs, a), Times(mine), cfg.duration)
  }

  lemma MatchesExtend(t: Tables, cfg: Config, a: Address, m: Tables, m': Tables, mine: seq<Activation>, x: Activation)
    requires Matches(t, cfg, a, m, mine)
    requires var e := Extend(PaidExpiry(m.subs, a), x.at, cfg.duration);
             && TermsOf(m'.subs, a) == Terms(Higher(TermsOf(m.subs, a).tier, x.tier), Some(e), Some(e + cfg.grace))
             && PaidExpiry(m'.subs, a) == Some(e)
    ensures Matches(t, cfg, a, m', mine + [x])
  {
    SnocTerms(t, cfg, a, mine, x);
    var tier0 := TermsOf(t.subs, a).tier;
    assert TermsOf(m.subs, a).tier == BestTier(tier0, mine);
    assert TermsAfter(t, cfg, a, mine + [x]).tier == BestTier(tier0, mine + [x]);
  }

  lemma MatchesStep(t: Tables, cfg: Config, a: Address, m: Tables, mine: seq<Activation>, op: Op)
    requires Matches(t, cfg, a, m, mine) && (op.Process? ==> op.env.expiryReadOk)
    ensures var (m', r) := Step(m, cfg, op);
            Matches(t, cfg, a, m', if r.Activated? && r.activation.miner == a then mine + [r.activation] else mine)
  {
    var (m', r) := Step(m, cfg, op);
    TermsStep(m, cfg, op, a);
    if r.Activated? && r.activation.miner == a {
      MatchesExtend(t, cfg, a, m, m', mine, r.activation);
    }
  }

  lemma ActivationsStep(t: Tables, cfg: Config, ops: seq<Op>, a: Address)
    requires ops != []
    ensures var n := |ops| - 1;
            var r := Step(Run(t, cfg, ops[..n]), cfg, ops[n]).1;
            var mine := Of(Activations(t, cfg, ops[..n]), a);
            Of(Activations(t, cfg, ops), a)
            == if r.Activated? && r.activation.miner == a then mine + [r.activation] else mine
  {
    var n := |ops| - 1;
    var before := Activations(t, cfg, ops[..n]);
    var r := Step(Run(t, cfg, ops[..n]), cfg, ops[n]).1;
    if r.Activated? {
      OfSnoc(before, r.activation, a);
      assert Of(before, a) + [] == Of(before, a);
    } else {
      assert Activations(t, cfg, ops) == before;
    }
  }

  /** In every run whose expiry reads succeed, a miner's tier, expiry and grace
      are determined by its own activations: the highest tier bought, the
      stacked expiry, and a fixed grace after it. */
  lemma {:induction false} TermsFromActivations(t: Tables, cfg: Config, ops: seq<Op>, a: Address)
    requires ReadsExpiry(ops)
    ensures Matches(t, cfg, a, Run(t, cfg, ops), Of(Activations(t, cfg, ops), a))
  {
    if ops == [] {
    } else {
      var n := |ops| - 1;
      TermsFromActivations(t, cfg, ops[..n], a);
      MatchesStep(t, cfg, a, Run(t, cfg, ops[..n]), Of(Activations(t, cfg, ops[..n]), a), ops[n]);
      ActivationsStep(t, cfg, ops, a);
    }
  }

  /** Tiers never go down, and paid time is never shortened. */
  lemma {:induction false} TermsNeverFall(t: Tables, cfg: Config, ops: seq<Op>, a: Address)
    requires ReadsExpiry(ops)
    ensures var t' := Run(t, cfg, ops);
            && Rank(TermsOf(t.subs, a).tier) <= Rank(TermsOf(t'.subs, a).tier)
            && (PaidExpiry(t.subs, a).Some? ==>
                  PaidExpiry(t'.subs, a).Some? && PaidExpiry(t.subs, a).value <= PaidExpiry(t'.subs, a).value)
  {
    if ops == [] {
    } else {
      TermsNeverFall(t, cfg, ops[..|ops| - 1], a);
      TermsStep(Run(t, cfg, ops[..|ops| - 1]), cfg, ops[|ops| - 1], a);
    }
  }

  // ----- Closed form -----

  function Candidate(times: seq<int>, i: nat, duration: nat): int
    requires i < |times|
  {
    times[i] + (|times| - i) * duration
  }

  /** With k activations, e is the latest of: the i-th activation time plus the
      durations from i on, and the old expiry plus all k. */
  ghost predicate IsLatest(e: int, expiry: Option<int>, times: seq<int>, duration: nat) {
    && (forall i | 0 <= i < |times| :: Candidate(times, i, duration) <= e)
    && (expiry.Some? ==> expiry.value + |times| * duration <= e)
    && ((exists i :: 0 <= i < |times| && Candidate(times, i, duration) == e)
        || (expiry.Some? && expiry.value + |times| * duration == e))
  }

  lemma {:induction false} ExpiryClosedForm(expiry: Option<int>, times: seq<int>, duration: nat)
    requires times != []
    ensures IsLatest(ExtendAll(expiry, times, duration).value, expiry, times, duration)
  {
    var n := |times| - 1;
    var before := times[..n];
    var e := ExtendAll(expiry, times, duration).value;
    assert Candidate(times, n, duration) == times[n] + duration;
    forall i | 0 <= i < n ensures Candidate(times, i, duration) == Candidate(before, i, duration) + duration {
      MulDistributes(duration, n - i, 1);
    }
    MulDistributes(duration, n, 1);
    if n == 0 {
    } else {
      ExpiryClosedForm(expiry, before, duration);
      var e0 := ExtendAll(expiry, before, duration).value;
      if e0 <= times[n] {
        assert Candidate(times, n, duration) == e;
      } else if i :| 0 <= i < n && Candidate(before, i, duration) == e0 {
        assert Candidate(times, i, duration) == e;
      }
    }
  }

  /** The seconds bought: one interval of the full duration per activation. */
  function Covered(expiry: Option<int>, times: seq<int>, duration: nat): set<int> {
    if times == [] then {} else
      var e := ExtendAll(expiry, times, duration).value;
      Covered(expiry, times[..|times| - 1], duration) + Interval(e - duration, e)
  }

  /** The last activation's interval starts where the earlier ones ended, or later. */
  lemma LastInterval(expiry: Option<int>, times: seq<int>, duration: nat)
    requires times != []
    ensures var before := ExtendAll(expiry, times[..|times| - 1], duration);
            var e := ExtendAll(expiry, times, duration).value;
            before.Some? ==> before.value <= e - duration
  {
  }

  /** All of it lies before the final expiry, and none of it was paid before. */
  lemma {:induction false} CoveredBounds(expiry: Option<int>, times: seq<int>, duration: nat)
    ensures forall s | s in Covered(expiry, times, duration) ::
              s < ExtendAll(expiry, times, duration).value && (expiry.Some? ==> expiry.value <= s)
    ensures times != [] && expiry.Some? ==> expiry.value <= ExtendAll(expiry, times, duration).value
  {
    if times == [] {
    } else {
      var before := times[..|times| - 1];
      CoveredBounds(expiry, before, duration);
      LastInterval(expiry, times, duration);
      var e := ExtendAll(expiry, times, duration).value;
      forall s | s in Covered(expiry, times, duration) ensures s < e && (expiry.Some? ==> expiry.value <= s) {
        if s in Covered(expiry, before, duration) {
          assert before != [];
        } else {
          assert s in Interval(e - duration, e);
        }
      }
    }
  }

  /** Stacking wastes nothing: k activations cover exactly k times the duration. */
  lemma {:induction false} CoveredTime(expiry: Option<int>, times: seq<int>, duration: nat)
    ensures |Covered(expiry, times, duration)| == |times| * duration
  {
    if times == [] {
    } else {
      var n := |times| - 1;
      CoveredTime(expiry, times[..n], duration);
      CoveredGrows(expiry, times, duration, Covered(expiry, times[..n], duration));
      MulDistributes(duration, n, 1);
    }
  }

  lemma CoveredGrows(expiry: Option<int>, times: seq<int>, duration: nat, covered: set<int>)
    requires times != [] && covered == Covered(expiry, times[..|times| - 1], duration)
    ensures |Covered(expiry, times, duration)| == |covered| + duration
  {
    var e := ExtendAll(expiry, times, duration).value;
    EarlierCovered(expiry, times, duration, covered);
    AddInterval(covered, e - duration, e, Covered(expiry, times, duration));
  }

  lemma EarlierCovered(expiry: Option<int>, times: seq<int>, duration: nat, covered: set<int>)
    requires times != [] && covered == Covered(expiry, times[..|times| - 1], duration)
    ensures forall s | s in covered :: s < ExtendAll(expiry, times, duration).value - duration
  {
    CoveredBounds(expiry, times[..|times| - 1], duration);
    LastInterval(expiry, times, duration);
  }

  lemma AddInterval(covered: set<int>, lo: int, hi: int, all: set<int>)
    requires lo <= hi && forall s | s in covered :: s < lo
    requires all == covered + Interval(lo, hi)
    ensures |all| == |covered| + (hi - lo)
  {
    IntervalSize(lo, hi);
    assert covered !! Interval(lo, hi);
  }

  /** What k activations at these times make of an expiry: it becomes the closed
      form, and the time bought is k times the duration, all of it before the new
      expiry and after the old one. */
  ghost predicate IsStacked(e: int, expiry: Option<int>, times: seq<int>, duration: nat) {
    && IsLatest(e, expiry, times, duration)
    && |Covered(expiry, times, duration)| == |times| * duration
    && forall s | s in Covered(expiry, times, duration) :: s < e && (expiry.Some? ==> expiry.value <= s)
  }

  lemma Stacked(expiry: Option<int>, times: seq<int>, duration: nat)
    requires times != []
    ensures IsStacked(ExtendAll(expiry, times, duration).value, expiry, times, duration)
  {
    ExpiryClosedForm(expiry, times, duration);
    CoveredTime(expiry, times, duration);
    CoveredBounds(expiry, times, duration);
  }

  /** The miner's activations since t stack up to its expiry in m, and its grace
      ends a fixed time later. */
  ghost predicate TermsStacked(t: Tables, cfg: Config, a: Address, m: Tables, mine: seq<Activation>) {
    var terms := TermsOf(m.subs, a);
    && terms.expiresAt.Some?
    && IsStacked(terms.expiresAt.value, PaidExpiry(t.subs, a), Times(mine), cfg.duration)
    && terms.graceUntil == Some(terms.expiresAt.value + cfg.grace)
  }

  lemma MatchesStacked(t: Tables, cfg: Config, a: Address, m: Tables, mine: seq<Activation>)
    requires Matches(t, cfg, a, m, mine) && mine != []
    ensures TermsStacked(t, cfg, a, m, mine)
  {
    Stacked(PaidExpiry(t.subs, a), Times(mine), cfg.duration);
  }

  /** The closed form of a whole run whose expiry reads succeed. */
  lemma ExpiryOfRun(t: Tables, cfg: Config, ops: seq<Op>, a: Address)
    requires ReadsExpiry(ops) && Of(Activations(t, cfg, ops), a) != []
    ensures TermsStacked(t, cfg, a, Run(t, cfg, ops), Of(Activations(t, cfg, ops), a))
  {
    TermsFromActivations(t, cfg, ops, a);
    MatchesStacked(t, cfg, a, Run(t, cfg, ops), Of(Activations(t, cfg, ops), a));
  }

  /** A failing expiry read costs the miner time exactly when its paid time was
      still running. */
  lemma UnreadExpiryCostsTime(t: Tables, cfg: Config, a: Address, tier: Tier, amount: nat, now: int)
    requires tier != Free
    ensures var unread := Activate(t, cfg, a, tier, amount, now, false);
            var known := Activate(t, cfg, a, tier, amount, now, true);
            && PaidExpiry(unread.subs, a).Some? && PaidExpiry(known.subs, a).Some?
            && (PaidExpiry(unread.subs, a).value < PaidExpiry(known.subs, a).value
                <==> PaidExpiry(t.subs, a).Some? && now < PaidExpiry(t.subs, a).value)
  {
  }
}
