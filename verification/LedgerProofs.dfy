/** What the ledger keeps over every run of scans. */
module LedgerProofs {
  import opened Prelude
  import opened Tiers
  import opened Ledger

  // ----- At-most-once activation -----

  predicate ConfirmedReadOk(op: Op) {
    op.Process? ==> op.env.confirmedReadOk
  }

  ghost predicate ReadsConfirmed(ops: seq<Op>) {
    forall i | 0 <= i < |ops| :: ConfirmedReadOk(ops[i])
  }

  /** A confirmed row is final: not one column of it changes again. */
  lemma ConfirmedStep(t: Tables, cfg: Config, op: Op, h: string)
    requires IsConfirmed(t, h) && ConfirmedReadOk(op)
    ensures IsConfirmed(Step(t, cfg, op).0, h)
    ensures Step(t, cfg, op).0.payments[h] == t.payments[h]
    ensures Step(t, cfg, op).1.Activated? ==> Step(t, cfg, op).1.activation.txHash != h
  {
  }

  /** Activation goes with confirmation. */
  lemma ActivationConfirms(t: Tables, cfg: Config, op: Op)
    ensures var (t', r) := Step(t, cfg, op); r.Activated? ==> IsConfirmed(t', r.activation.txHash)
  {
  }

  lemma {:induction false} ConfirmedRowFrozen(t: Tables, cfg: Config, ops: seq<Op>, h: string)
    requires IsConfirmed(t, h) && ReadsConfirmed(ops)
    ensures IsConfirmed(Run(t, cfg, ops), h) && Run(t, cfg, ops).payments[h] == t.payments[h]
    ensures forall i | 0 <= i < |Activations(t, cfg, ops)| :: Activations(t, cfg, ops)[i].txHash != h
  {
    if ops == [] {
    } else {
      var n := |ops| - 1;
      ConfirmedRowFrozen(t, cfg, ops[..n], h);
      ConfirmedStep(Run(t, cfg, ops[..n]), cfg, ops[n], h);
    }
  }

  ghost predicate DistinctHashes(acts: seq<Activation>) {
    forall i, j | 0 <= i < j < |acts| :: acts[i].txHash != acts[j].txHash
  }

  /** At-most-once activation: over any number of scans that show transfers
      again and again, in any order and at any depth, each tx_hash activates
      at most once, whatever writes fail, as long as the confirmed flag can
      be read. */
  lemma {:induction false} ActivatesAtMostOnce(t: Tables, cfg: Config, ops: seq<Op>)
    requires ReadsConfirmed(ops)
    ensures forall i | 0 <= i < |Activations(t, cfg, ops)| ::
              IsConfirmed(Run(t, cfg, ops), Activations(t, cfg, ops)[i].txHash)
    ensures DistinctHashes(Activations(t, cfg, ops))
  {
    if ops == [] {
    } else {
      var n := |ops| - 1;
      ActivatesAtMostOnce(t, cfg, ops[..n]);
      var m := Run(t, cfg, ops[..n]);
      var before := Activations(t, cfg, ops[..n]);
      ActivationConfirms(m, cfg, ops[n]);
      forall i | 0 <= i < |before|
        ensures IsConfirmed(Step(m, cfg, ops[n]).0, before[i].txHash)
        ensures Step(m, cfg, ops[n]).1.Activated? ==> Step(m, cfg, ops[n]).1.activation.txHash != before[i].txHash
      {
        ConfirmedStep(m, cfg, ops[n], before[i].txHash);
      }
    }
  }

  /** The activation is for this transfer, deep enough and worth its tier. */
  predicate ComesFrom(x: Activation, cfg: Config, op: Op) {
    && op.Process? && x.txHash == op.tx.txHash && cfg.confirmDepth <= op.tx.confirmations
    && x.usd == PaymentUSDValue(op.tx.amount, UsdPrice(op.env.price))
    && x.tier == TierForAmount(x.usd) && x.tier != Free
    && x.at == op.env.now && x.month == op.env.month
  }

  /** Nothing activates but a confirmed transfer that was shown, at its own value. */
  lemma {:induction false} ActivationsFromTransfers(t: Tables, cfg: Config, ops: seq<Op>, i: nat)
    requires i < |Activations(t, cfg, ops)|
    ensures exists j :: 0 <= j < |ops| && ComesFrom(Activations(t, cfg, ops)[i], cfg, ops[j])
  {
    var n := |ops| - 1;
    var before := Activations(t, cfg, ops[..n]);
    if i < |before| {
      ActivationsFromTransfers(t, cfg, ops[..n], i);
      var j :| 0 <= j < n && ComesFrom(before[i], cfg, ops[..n][j]);
      assert ComesFrom(Activations(t, cfg, ops)[i], cfg, ops[j]);
    } else {
      assert ComesFrom(Activations(t, cfg, ops)[i], cfg, ops[n]);
    }
  }

  // ----- Where the promise ends -----

  /** A transfer that activates when everything goes through. */
  predicate Pays(t: Tables, cfg: Config, tx: Transfer, e: Env) {
    && cfg.confirmDepth <= tx.confirmations
    && e.lookupOk && Lookup(t, tx.minor).Some? && e.upsertOk && e.activateOk
    && TierForAmount(PaymentUSDValue(tx.amount, UsdPrice(e.price))) != Free
  }

  /** A paying transfer is activated exactly when it is not known to be
      confirmed: a failing read of the flag activates it once more. */
  lemma ActivatesUnlessKnown(t: Tables, cfg: Config, tx: Transfer, e: Env)
    requires Pays(t, cfg, tx, e)
    ensures AfterTransfer(t, cfg, tx, e).1.Activated? <==> !(e.confirmedReadOk && IsConfirmed(t, tx.txHash))
  {
  }

  /** If the activation write fails, the payment is confirmed all the same, and
      no later scan activates it. */
  lemma FailedActivationIsLost(t: Tables, cfg: Config, tx: Transfer, e: Env, ops: seq<Op>)
    requires Pays(t, cfg, tx, e.(activateOk := true)) && !e.activateOk
    requires e.confirmedReadOk && !IsConfirmed(t, tx.txHash) && ReadsConfirmed(ops)
    ensures var t' := AfterTransfer(t, cfg, tx, e).0;
            forall i | 0 <= i < |Activations(t', cfg, ops)| :: Activations(t', cfg, ops)[i].txHash != tx.txHash
  {
    var t' := AfterTransfer(t, cfg, tx, e).0;
    assert IsConfirmed(t', tx.txHash);
    ConfirmedRowFrozen(t', cfg, ops, tx.txHash);
  }

  /** What deleting a miner's data leaves of its payments. */
  function ForgetPayments(t: Tables, a: Address): Tables {
    t.(payments := map h | h in t.payments && t.payments[h].miner != a :: t.payments[h])
  }

  /** The wallet is rescanned from the start: once a miner's payment rows are
      deleted, every paying transfer of its own activates again, and no other. */
  lemma DeletionForgetsActivations(t: Tables, cfg: Config, tx: Transfer, e: Env, a: Address)
    requires Pays(t, cfg, tx, e) && e.confirmedReadOk && IsConfirmed(t, tx.txHash)
    ensures AfterTransfer(ForgetPayments(t, a), cfg, tx, e).1.Activated? <==> t.payments[tx.txHash].miner == a
  {
  }

  // ----- The fund -----

  function FundedCents(acts: seq<Activation>, month: int): int {
    if acts == [] then 0 else
      var a := acts[|acts| - 1];
      FundedCents(acts[..|acts| - 1], month) + (if a.funded && a.month == month then Cents(a.usd) else 0)
  }

  function FundOf(t: Tables, month: int): int {
    if month in t.fund then t.fund[month] else 0
  }

  /** Adding to a whole number of cents rounds only what is added. */
  lemma CentsAdd(cents: int, usd: real)
    ensures Cents(cents as real / 100.0 + usd) == cents + Cents(usd)
  {
    var x := usd * 100.0 + 0.5;
    assert (cents as real / 100.0 + usd) * 100.0 + 0.5 == cents as real + x;
    assert (cents as real + x).Floor == cents + x.Floor;
  }

  lemma FundStep(t: Tables, cfg: Config, op: Op, month: int)
    ensures var (t', r) := Step(t, cfg, op);
            FundOf(t', month) == FundOf(t, month) +
              (if r.Activated? && r.activation.funded && r.activation.month == month
               then Cents(r.activation.usd) else 0)
  {
    if op.Process? {
      CentsAdd(FundOf(t, op.env.month), PaymentUSDValue(op.tx.amount, UsdPrice(op.env.price)));
    }
  }

  /** Fund conservation: in every run, each month's total grows by exactly the
      values, in cents, of the transfers activated in that month whose fund
      update went through. */
  lemma {:induction false} FundConserved(t: Tables, cfg: Config, ops: seq<Op>, month: int)
    ensures FundOf(Run(t, cfg, ops), month) == FundOf(t, month) + FundedCents(Activations(t, cfg, ops), month)
  {
    if ops == [] {
    } else {
      var n := |ops| - 1;
      FundConserved(t, cfg, ops[..n], month);
      FundStep(Run(t, cfg, ops[..n]), cfg, ops[n], month);
      var r := Step(Run(t, cfg, ops[..n]), cfg, ops[n]).1;
      var before := Activations(t, cfg, ops[..n]);
      if r.Activated? {
        assert Activations(t, cfg, ops)[..|before|] == before;
      } else {
        assert Activations(t, cfg, ops) == before;
      }
    }
  }

  function FundedUsd(acts: seq<Activation>, month: int): real {
    if acts == [] then 0.0 else
      var a := acts[|acts| - 1];
      FundedUsd(acts[..|acts| - 1], month) + (if a.funded && a.month == month then a.usd else 0.0)
  }

  /** Rounding to cents moves the total by at most half a cent per activation. */
  lemma {:induction false} FundRounding(acts: seq<Activation>, month: int)
    ensures -(|acts| as real) * 0.5 <= FundedCents(acts, month) as real - FundedUsd(acts, month) * 100.0
            <= |acts| as real * 0.5
  {
    if acts == [] {
    } else {
      FundRounding(acts[..|acts| - 1], month);
      var x := acts[|acts| - 1].usd * 100.0 + 0.5;
      assert x - 1.0 < x.Floor as real <= x;
    }
  }
}
