/** What one scan does with any list of transfers, entry by entry
    (services/manager/internal/subscription/scanner.go). Wallet-rpc reports a
    transaction once per subaddress it pays, so entries may share a hash; only
    the first of them is ever settled. */
module ScanEffects {
  import opened Prelude
  import opened Tiers
  import opened Ledger

  /** One scan at one instant: every transfer meets the same clock and price,
      and reads and writes go through. */
  function Batch(txs: seq<Transfer>, e: Env): (ops: seq<Op>)
    ensures |ops| == |txs|
  {
    seq(|txs|, i requires 0 <= i < |txs| => Process(txs[i], e))
  }

  predicate AllGood(e: Env) {
    e.lookupOk && e.confirmedReadOk && e.upsertOk && e.expiryReadOk && e.activateOk && e.fundOk
  }

  lemma BatchSnoc(txs: seq<Transfer>, tx: Transfer, e: Env)
    ensures Batch(txs + [tx], e)[..|txs|] == Batch(txs, e) && Batch(txs + [tx], e)[|txs|] == Process(tx, e)
  {
  }

  function Entries(txs: seq<Transfer>): set<Transfer> {
    set tx | tx in txs
  }

  // ----- One transfer and its row -----

  predicate Known(t: Tables, tx: Transfer) {
    Lookup(t, tx.minor).Some?
  }

  /** Deep enough and for a known subaddress: processing confirms its hash. */
  predicate Settles(t: Tables, cfg: Config, tx: Transfer) {
    Known(t, tx) && cfg.confirmDepth <= tx.confirmations
  }

  function RowOf(t: Tables, h: string): Option<SubPayment> {
    if h in t.payments then Some(t.payments[h]) else None
  }

  function Inserted(t: Tables, tx: Transfer): SubPayment
    requires Known(t, tx)
  {
    SubPayment(Lookup(t, tx.minor).value, tx.amount, None, None, false, tx.height)
  }

  function Settled(t: Tables, row: Option<SubPayment>, tx: Transfer, e: Env): SubPayment
    requires Known(t, tx)
  {
    var before := if row.Some? then row.value else Inserted(t, tx);
    before.(confirmed := true, height := tx.height,
            usd := Coalesce(before.usd, UsdPrice(e.price)), cad := Coalesce(before.cad, CadPrice(e.price)))
  }

  /** The row of a transfer's hash after the transfer. */
  function RowAfter(t: Tables, cfg: Config, row: Option<SubPayment>, tx: Transfer, e: Env): Option<SubPayment> {
    if !Known(t, tx) || (row.Some? && row.value.confirmed) then row
    else if Settles(t, cfg, tx) then Some(Settled(t, row, tx, e))
    else if row.Some? then row
    else Some(Inserted(t, tx))
  }

  lemma TransferRow(m: Tables, cfg: Config, tx: Transfer, e: Env, h: string)
    requires AllGood(e)
    ensures var m' := AfterTransfer(m, cfg, tx, e).0;
            && m'.addresses == m.addresses
            && RowOf(m', h) == if h == tx.txHash then RowAfter(m, cfg, RowOf(m, h), tx, e) else RowOf(m, h)
  {
  }

  /** What a settling transfer activates: None when it is too small. */
  datatype Effect = Effect(txHash: string, miner: Address, tier: Tier, cents: int)

  function Worth(t: Tables, tx: Transfer, e: Env): Option<Effect> {
    var usd := PaymentUSDValue(tx.amount, UsdPrice(e.price));
    if !Known(t, tx) || TierForAmount(usd) == Free then None
    else Some(Effect(tx.txHash, Lookup(t, tx.minor).value, TierForAmount(usd), Cents(usd)))
  }

  function EffectOf(x: Activation): Effect {
    Effect(x.txHash, x.miner, x.tier, Cents(x.usd))
  }

  function EffectsOf(acts: seq<Activation>): (es: seq<Effect>)
    ensures |es| == |acts|
  {
    seq(|acts|, i requires 0 <= i < |acts| => EffectOf(acts[i]))
  }

  function Effects(t: Tables, cfg: Config, txs: seq<Transfer>, e: Env): seq<Effect> {
    EffectsOf(Activations(t, cfg, Batch(txs, e)))
  }

  lemma TransferEffect(m: Tables, cfg: Config, tx: Transfer, e: Env)
    requires AllGood(e)
    ensures var r := AfterTransfer(m, cfg, tx, e).1;
            && (r.Activated? <==> Settles(m, cfg, tx) && !IsConfirmed(m, tx.txHash) && Worth(m, tx, e).Some?)
            && (r.Activated? ==> EffectOf(r.activation) == Worth(m, tx, e).value)
  {
  }

  // ----- A whole scan -----

  predicate SettledIn(t: Tables, cfg: Config, txs: set<Transfer>, h: string) {
    exists tx :: tx in txs && tx.txHash == h && Settles(t, cfg, tx)
  }

  /** The k-th transfer is the first of its hash that settles. */
  ghost predicate SettlesFirst(t: Tables, cfg: Config, txs: seq<Transfer>, k: nat)
    requires k < |txs|
  {
    && Settles(t, cfg, txs[k]) && !IsConfirmed(t, txs[k].txHash)
    && !SettledIn(t, cfg, Entries(txs[..k]), txs[k].txHash)
  }

  ghost predicate HasEffect(t: Tables, cfg: Config, txs: seq<Transfer>, e: Env, x: Effect) {
    exists k: nat :: k < |txs| && SettlesFirst(t, cfg, txs, k) && Worth(t, txs[k], e) == Some(x)
  }

  /** What a scan does with any transfers: exactly those activate that are the
      first of an unconfirmed hash to settle, and are worth a tier. */
  lemma {:induction false} BatchActivations(t: Tables, cfg: Config, txs: seq<Transfer>, e: Env)
    requires AllGood(e)
    ensures var m := Run(t, cfg, Batch(txs, e));
            && m.addresses == t.addresses
            && forall h :: IsConfirmed(m, h) <==> IsConfirmed(t, h) || SettledIn(t, cfg, Entries(txs), h)
    ensures forall x :: x in Effects(t, cfg, txs, e) <==> HasEffect(t, cfg, txs, e, x)
  {
    if txs == [] {
    } else {
      var n := |txs| - 1;
      FrontAndLast(txs);
      BatchActivations(t, cfg, txs[..n], e);
      ConfirmedSnoc(t, cfg, txs[..n], txs[n], e);
      EffectsSnoc(t, cfg, txs[..n], txs[n], e);
    }
  }

  lemma ConfirmedSnoc(t: Tables, cfg: Config, txs: seq<Transfer>, tx: Transfer, e: Env)
    requires AllGood(e)
    requires var m := Run(t, cfg, Batch(txs, e));
             && m.addresses == t.addresses
             && forall h :: IsConfirmed(m, h) <==> IsConfirmed(t, h) || SettledIn(t, cfg, Entries(txs), h)
    ensures var m := Run(t, cfg, Batch(txs + [tx], e));
            && m.addresses == t.addresses
            && forall h :: IsConfirmed(m, h) <==> IsConfirmed(t, h) || SettledIn(t, cfg, Entries(txs + [tx]), h)
  {
    var m, m' := Run(t, cfg, Batch(txs, e)), Run(t, cfg, Batch(txs + [tx], e));
    BatchSnoc(txs, tx, e);
    EntriesSnoc(txs, tx);
    TransferRow(m, cfg, tx, e, tx.txHash);
    forall h ensures IsConfirmed(m', h) <==> IsConfirmed(t, h) || SettledIn(t, cfg, Entries(txs + [tx]), h) {
      TransferRow(m, cfg, tx, e, h);
      assert IsConfirmed(m', h) == (RowOf(m', h).Some? && RowOf(m', h).value.confirmed);
      assert IsConfirmed(m, h) == (RowOf(m, h).Some? && RowOf(m, h).value.confirmed);
      assert Settles(m, cfg, tx) == Settles(t, cfg, tx);
      SettledInMore(t, cfg, Entries(txs), tx, h);
    }
  }

  lemma EntriesSnoc(txs: seq<Transfer>, tx: Transfer)
    ensures Entries(txs + [tx]) == Entries(txs) + {tx}
  {
  }

  lemma SettledInMore(t: Tables, cfg: Config, txs: set<Transfer>, tx: Transfer, h: string)
    ensures SettledIn(t, cfg, txs + {tx}, h)
            <==> SettledIn(t, cfg, txs, h) || (tx.txHash == h && Settles(t, cfg, tx))
  {
    if SettledIn(t, cfg, txs, h) {
      var x :| x in txs && x.txHash == h && Settles(t, cfg, x);
      assert x in txs + {tx};
    }
    assert tx in txs + {tx};
  }

  lemma EffectsSnoc(t: Tables, cfg: Config, txs: seq<Transfer>, tx: Transfer, e: Env)
    requires AllGood(e)
    requires var m := Run(t, cfg, Batch(txs, e));
             && m.addresses == t.addresses
             && forall h :: IsConfirmed(m, h) <==> IsConfirmed(t, h) || SettledIn(t, cfg, Entries(txs), h)
    requires forall x :: x in Effects(t, cfg, txs, e) <==> HasEffect(t, cfg, txs, e, x)
    ensures forall x :: x in Effects(t, cfg, txs + [tx], e) <==> HasEffect(t, cfg, txs + [tx], e, x)
  {
    var all := txs + [tx];
    var first := SettlesFirst(t, cfg, all, |txs|) && Worth(t, tx, e).Some?;
    assert all[..|txs|] == txs;
    EffectsAppend(t, cfg, txs, tx, e);
    assert Effects(t, cfg, all, e) == Effects(t, cfg, txs, e) + (if first then [Worth(t, tx, e).value] else []);
    forall x ensures x in Effects(t, cfg, all, e) <==> HasEffect(t, cfg, all, e, x) {
      HasEffectSnoc(t, cfg, txs, tx, e, x);
    }
  }

  lemma EffectsAppend(t: Tables, cfg: Config, txs: seq<Transfer>, tx: Transfer, e: Env)
    requires AllGood(e) && Run(t, cfg, Batch(txs, e)).addresses == t.addresses
    ensures var m := Run(t, cfg, Batch(txs, e));
            Effects(t, cfg, txs + [tx], e)
            == Effects(t, cfg, txs, e) +
               (if Settles(t, cfg, tx) && !IsConfirmed(m, tx.txHash) && Worth(t, tx, e).Some?
                then [Worth(t, tx, e).value] else [])
  {
    var m := Run(t, cfg, Batch(txs, e));
    var acts := Activations(t, cfg, Batch(txs, e));
    BatchSnoc(txs, tx, e);
    TransferEffect(m, cfg, tx, e);
    assert Lookup(m, tx.minor) == Lookup(t, tx.minor);
    var r := AfterTransfer(m, cfg, tx, e).1;
    if r.Activated? {
      EffectsOfSnoc(acts, r.activation);
    } else {
      assert Activations(t, cfg, Batch(txs + [tx], e)) == acts;
    }
  }

  lemma EffectsOfSnoc(acts: seq<Activation>, x: Activation)
    ensures EffectsOf(acts + [x]) == EffectsOf(acts) + [EffectOf(x)]
  {
  }

  lemma HasEffectSnoc(t: Tables, cfg: Config, txs: seq<Transfer>, tx: Transfer, e: Env, x: Effect)
    ensures HasEffect(t, cfg, txs + [tx], e, x)
            <==> HasEffect(t, cfg, txs, e, x) || (SettlesFirst(t, cfg, txs + [tx], |txs|) && Worth(t, tx, e) == Some(x))
  {
    var all := txs + [tx];
    forall k: nat | k < |txs| ensures all[k] == txs[k] && SettlesFirst(t, cfg, all, k) == SettlesFirst(t, cfg, txs, k) {
      assert all[..k] == txs[..k];
    }
    if HasEffect(t, cfg, txs, e, x) {
      var k: nat :| k < |txs| && SettlesFirst(t, cfg, txs, k) && Worth(t, txs[k], e) == Some(x);
      assert SettlesFirst(t, cfg, all, k) && Worth(t, all[k], e) == Some(x);
    }
  }
}
