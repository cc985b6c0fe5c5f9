/** The subscription ledger in plain numbers: what a transfer is worth, which rows
    it leaves, and which columns an activation touches
    (services/manager/internal/subscription/scanner.go, types.go). */
module LedgerNumbers {
  import opened Prelude
  import opened Tiers
  import opened Ledger
  import opened LedgerProofs

  /** Atomic units in one XMR. */
  const XMR := 1_000_000_000_000.0

  /** The transfer is confirmed, its subaddress known, its hash not yet settled,
      and the confirming write goes through. */
  predicate IsSettling(t: Tables, cfg: Config, tx: Transfer, e: Env) {
    && cfg.confirmDepth <= tx.confirmations && e.lookupOk && tx.minor in t.addresses && e.upsertOk
    && !(e.confirmedReadOk && tx.txHash in t.payments && t.payments[tx.txHash].confirmed)
  }

  lemma ValueInNumbers(amount: uint64, p: real)
    requires 0.0 < p
    ensures PaymentUSDValue(amount, Some(p)) * XMR == amount as real * p
  {
    var xmr := amount as real / 1_000_000_000_000.0;
    assert xmr * 1_000_000_000_000.0 == amount as real;
    Reorder(xmr, p);
  }

  lemma Reorder(xmr: real, p: real)
    ensures xmr * p * 1_000_000_000_000.0 == xmr * 1_000_000_000_000.0 * p
  {
  }

  /** With a positive USD price, a settling transfer of less than USD 0.80 activates
      nothing; from USD 4 on it buys champion, in between supporter. It counts at
      exactly its XMR amount times the USD price. */
  lemma WorthAtPrice(t: Tables, cfg: Config, tx: Transfer, e: Env)
    requires IsSettling(t, cfg, tx, e) && e.price.Some? && 0.0 < e.price.value.usd
    ensures var r := AfterTransfer(t, cfg, tx, e).1;
            var worth := tx.amount as real * e.price.value.usd;
            && (r.TooSmall? <==> worth < 0.8 * XMR)
            && (r.Activated? <==> 0.8 * XMR <= worth && e.activateOk)
            && (r.Activated? ==>
                  && r.activation.usd * XMR == worth
                  && (r.activation.tier == Champion <==> 4.0 * XMR <= worth)
                  && (r.activation.tier == Supporter <==> worth < 4.0 * XMR))
  {
    var usd := PaymentUSDValue(tx.amount, Some(e.price.value.usd));
    ValueInNumbers(tx.amount, e.price.value.usd);
    Scaled(usd, 0.8);
    Scaled(usd, 4.0);
  }

  lemma Scaled(x: real, y: real)
    ensures x < y <==> x * XMR < y * XMR
  {
  }

  /** Without a positive USD price, any amount buys supporter at USD 0.80. */
  lemma WorthWithoutPrice(t: Tables, cfg: Config, tx: Transfer, e: Env)
    requires IsSettling(t, cfg, tx, e) && (e.price.None? || e.price.value.usd <= 0.0)
    ensures var r := AfterTransfer(t, cfg, tx, e).1;
            && (r.Activated? <==> e.activateOk)
            && (r.Activated? ==> r.activation.tier == Supporter && r.activation.usd == 0.8)
  {
  }

  /** Over every run: each activation is for a transfer that was shown deep enough,
      credited to the miner its subaddress belongs to, at the price met then. */
  ghost predicate WorthIts(x: Activation, t: Tables, cfg: Config, op: Op) {
    && op.Process? && x.txHash == op.tx.txHash && cfg.confirmDepth <= op.tx.confirmations
    && op.tx.minor in t.addresses && x.miner == t.addresses[op.tx.minor]
    && (if op.env.price.Some? && 0.0 < op.env.price.value.usd
        then && x.usd * XMR == op.tx.amount as real * op.env.price.value.usd
             && 0.8 * XMR <= op.tx.amount as real * op.env.price.value.usd
             && x.tier == (if 4.0 * XMR <= op.tx.amount as real * op.env.price.value.usd
                           then Champion else Supporter)
        else x.usd == 0.8 && x.tier == Supporter)
  }

  lemma {:induction false} ActivationsAreWorth(t: Tables, cfg: Config, ops: seq<Op>, i: nat)
    requires i < |Activations(t, cfg, ops)|
    ensures exists j :: 0 <= j < |ops| && WorthIts(Activations(t, cfg, ops)[i], Run(t, cfg, ops), cfg, ops[j])
  {
    var n := |ops| - 1;
    var m := Run(t, cfg, ops[..n]);
    var before := Activations(t, cfg, ops[..n]);
    AddressesStay(m, cfg, ops[n]);
    if i < |before| {
      ActivationsAreWorth(t, cfg, ops[..n], i);
      var j :| 0 <= j < n && WorthIts(before[i], m, cfg, ops[..n][j]);
      assert WorthIts(before[i], Run(t, cfg, ops), cfg, ops[j]);
    } else {
      StepIsWorth(m, cfg, ops[n]);
      assert WorthIts(Activations(t, cfg, ops)[i], Run(t, cfg, ops), cfg, ops[n]);
    }
  }

  lemma AddressesStay(t: Tables, cfg: Config, op: Op)
    ensures forall minor | minor in t.addresses ::
              minor in Step(t, cfg, op).0.addresses && Step(t, cfg, op).0.addresses[minor] == t.addresses[minor]
  {
  }

  lemma StepIsWorth(t: Tables, cfg: Config, op: Op)
    requires Step(t, cfg, op).1.Activated?
    ensures WorthIts(Step(t, cfg, op).1.activation, t, cfg, op)
  {
    if op.env.price.Some? && 0.0 < op.env.price.value.usd {
      WorthAtPrice(t, cfg, op.tx, op.env);
    } else {
      WorthWithoutPrice(t, cfg, op.tx, op.env);
    }
  }

  /** The payment row a settling transfer leaves: confirmed at its height, with the
      prices met at the first confirmation; miner and amount are those first
      recorded. No other row changes. */
  lemma SettlingRow(t: Tables, cfg: Config, tx: Transfer, e: Env)
    requires IsSettling(t, cfg, tx, e)
    ensures var t' := AfterTransfer(t, cfg, tx, e).0;
            && t'.payments.Keys == t.payments.Keys + {tx.txHash}
            && (forall h | h in t.payments && h != tx.txHash :: t'.payments[h] == t.payments[h])
            && var row := t'.payments[tx.txHash];
               && row.confirmed && row.height == tx.height
               && (tx.txHash in t.payments ==>
                     var before := t.payments[tx.txHash];
                     && row.miner == before.miner && row.amount == before.amount
                     && (before.usd.Some? ==> row.usd == before.usd) && (before.cad.Some? ==> row.cad == before.cad))
               && (tx.txHash !in t.payments ==> row.miner == t.addresses[tx.minor] && row.amount == tx.amount)
               && (tx.txHash !in t.payments || t.payments[tx.txHash].usd.None? ==>
                     row.usd == if e.price.Some? then Some(e.price.value.usd) else None)
               && (tx.txHash !in t.payments || t.payments[tx.txHash].cad.None? ==>
                     row.cad == if e.price.Some? then Some(e.price.value.cad) else None)
  {
  }

  /** The row of a transfer not deep enough, a pool or a pending one: inserted once,
      unconfirmed and without prices. */
  lemma ShallowRow(t: Tables, tx: Transfer, e: Env)
    ensures var (t', r) := AfterUnconfirmed(t, tx, e);
            && t' == t.(payments := t'.payments) && !r.Activated?
            && t'.payments ==
               if e.lookupOk && tx.minor in t.addresses && e.upsertOk && tx.txHash !in t.payments
               then t.payments[tx.txHash := SubPayment(t.addresses[tx.minor], tx.amount, None, None, false, tx.height)]
               else t.payments
  {
  }

  /** A transfer is not settled exactly when it is too shallow, its subaddress is
      unknown, it is known to be confirmed, or a statement fails: then subscriptions
      and fund stay as they are. */
  lemma UnsettledChangesNoTerms(t: Tables, cfg: Config, tx: Transfer, e: Env)
    requires !IsSettling(t, cfg, tx, e)
    ensures var (t', r) := AfterTransfer(t, cfg, tx, e);
            t'.subs == t.subs && t'.fund == t.fund && t'.addresses == t.addresses && !r.Activated? && !r.TooSmall?
  {
  }

  /** The subscription row after an activation: paid until the duration after now, or
      after the paid time still running; the last contribution is this one, the
      first retention date stays, and so do API key, hold and deletion mark. Nobody
      else's row changes. */
  lemma ActivatedRow(t: Tables, cfg: Config, tx: Transfer, e: Env)
    requires AfterTransfer(t, cfg, tx, e).1.Activated?
    ensures tx.minor in t.addresses
    ensures var a := t.addresses[tx.minor];
            var subs, subs' := t.subs, AfterTransfer(t, cfg, tx, e).0.subs;
            var bought := AfterTransfer(t, cfg, tx, e).1.activation.tier;
            var paid := e.expiryReadOk && a in subs && subs[a].tier != Free && subs[a].expiresAt.Some?
                        && e.now < subs[a].expiresAt.value;
            && subs'.Keys == subs.Keys + {a}
            && (forall b | b in subs && b != a :: subs'[b] == subs[b])
            && subs'[a].tier == (if bought == Champion || (a in subs && subs[a].tier == Champion)
                                 then Champion else Supporter)
            && subs'[a].expiresAt == Some((if paid then subs[a].expiresAt.value else e.now) + cfg.duration)
            && subs'[a].graceUntil == Some((if paid then subs[a].expiresAt.value else e.now) + cfg.duration + cfg.grace)
            && subs'[a].contribution == tx.amount
            && subs'[a].retentionSince == (if a in subs && subs[a].retentionSince.Some?
                                           then subs[a].retentionSince else Some(e.now))
            && (a in subs ==>
                  && subs'[a].apiKeyHash == subs[a].apiKeyHash && subs'[a].heldYear == subs[a].heldYear
                  && subs'[a].exportsLeft == subs[a].exportsLeft && subs'[a].deletedAt == subs[a].deletedAt)
            && (a !in subs ==>
                  && subs'[a].apiKeyHash == None && subs'[a].heldYear == None && subs'[a].exportsLeft == None
                  && subs'[a].deletedAt == None)
  {
    assert tx.minor in t.addresses;
  }

  /** A scan processes every incoming transfer, and pool and pending ones are only
      recorded: what it activates, and for whom, does not depend on them. */
  lemma {:induction false} OnlyIncomingActivates(t: Tables, cfg: Config, incoming: seq<Transfer>, pool: seq<Transfer>,
                                                 pending: seq<Transfer>, envs: nat -> Env, n: nat)
    requires |incoming| <= n <= |incoming| + |pool| + |pending|
    ensures var ops := ScanOps(incoming, pool, pending, envs);
            && (forall i | 0 <= i < |incoming| :: ops[i] == Process(incoming[i], envs(i)))
            && Activations(t, cfg, ops[..n]) == Activations(t, cfg, ops[..|incoming|])
            && Run(t, cfg, ops[..n]).subs == Run(t, cfg, ops[..|incoming|]).subs
            && Run(t, cfg, ops[..n]).fund == Run(t, cfg, ops[..|incoming|]).fund
  {
    var ops := ScanOps(incoming, pool, pending, envs);
    if n == |incoming| {
    } else {
      OnlyIncomingActivates(t, cfg, incoming, pool, pending, envs, n - 1);
      assert ops[..n][..n - 1] == ops[..n - 1];
      var m := Run(t, cfg, ops[..n - 1]);
      ShallowRow(m, ops[n - 1].tx, ops[n - 1].env);
    }
  }
}
