/** Does the order of one scan's transfers matter? Exactly as far as entries that
    share a hash disagree. */
module ScanOrder {
  import opened Prelude
  import opened Tiers
  import opened Ledger
  import opened LedgerProofs
  import opened ExpiryProofs
  import opened ScanEffects

  // ----- When entries of one transaction agree -----

  /** Two entries of one transaction leave the same, whichever comes first: of a
      hash not seen before, the same miner and amount; if both settle, the same
      height, miner, tier and cents. */
  predicate Agree(t: Tables, cfg: Config, e: Env, x: Transfer, y: Transfer) {
    x.txHash == y.txHash && !IsConfirmed(t, x.txHash) && Known(t, x) && Known(t, y) ==>
      && (x.txHash !in t.payments ==> Lookup(t, x.minor) == Lookup(t, y.minor) && x.amount == y.amount)
      && (Settles(t, cfg, x) && Settles(t, cfg, y) ==> x.height == y.height && Worth(t, x, e) == Worth(t, y, e))
  }

  ghost predicate Agreeing(t: Tables, cfg: Config, e: Env, txs: set<Transfer>) {
    forall x, y | x in txs && y in txs :: Agree(t, cfg, e, x, y)
  }

  /** All of them agree, and if none settles a new hash, on its height too. */
  ghost predicate Consistent(t: Tables, cfg: Config, e: Env, txs: set<Transfer>) {
    && Agreeing(t, cfg, e, txs)
    && forall x, y | x in txs && y in txs && IsNewTo(t, cfg, txs, x) && IsNewTo(t, cfg, txs, y) ::
         x.txHash == y.txHash ==> x.height == y.height
  }

  predicate IsNewTo(t: Tables, cfg: Config, txs: set<Transfer>, x: Transfer) {
    Known(t, x) && x.txHash !in t.payments && !SettledIn(t, cfg, txs, x.txHash)
  }

  predicate KnownIn(t: Tables, txs: set<Transfer>, h: string) {
    exists x :: x in txs && x.txHash == h && Known(t, x)
  }

  ghost predicate IsInserted(t: Tables, txs: set<Transfer>, h: string, row: Option<SubPayment>) {
    exists x :: x in txs && x.txHash == h && Known(t, x) && row == Some(Inserted(t, x))
  }

  /** The row a hash has after these transfers: a confirmed one is frozen, a
      settled one is what each settling entry makes of it, a new one is what some
      entry inserted. */
  ghost predicate RowFits(t: Tables, cfg: Config, e: Env, txs: set<Transfer>, h: string, row: Option<SubPayment>) {
    if IsConfirmed(t, h) then row == RowOf(t, h)
    else if SettledIn(t, cfg, txs, h) then
      forall x | x in txs && x.txHash == h && Settles(t, cfg, x) :: row == Some(Settled(t, RowOf(t, h), x, e))
    else if h in t.payments then row == RowOf(t, h)
    else if KnownIn(t, txs, h) then IsInserted(t, txs, h, row)
    else row.None?
  }

  lemma RowFitsMore(t: Tables, cfg: Config, e: Env, txs: set<Transfer>, tx: Transfer, row: Option<SubPayment>)
    requires Agreeing(t, cfg, e, txs + {tx}) && RowFits(t, cfg, e, txs, tx.txHash, row)
    ensures RowFits(t, cfg, e, txs + {tx}, tx.txHash, RowAfter(t, cfg, row, tx, e))
  {
    var h := tx.txHash;
    assert tx in txs + {tx};
    SettledInMore(t, cfg, txs, tx, h);
    if IsConfirmed(t, h) || !Known(t, tx) {
      UnknownFits(t, cfg, e, txs, tx, row);
    } else if SettledIn(t, cfg, txs, h) {
      var y :| y in txs && y.txHash == h && Settles(t, cfg, y);
      assert Agree(t, cfg, e, y, tx);
    } else if Settles(t, cfg, tx) {
      FirstSettledFits(t, cfg, e, txs, tx, row);
    } else if h in t.payments {
    } else if KnownIn(t, txs, h) {
      var x :| x in txs && x.txHash == h && Known(t, x) && row == Some(Inserted(t, x));
      assert x in txs + {tx};
    } else {
      assert IsInserted(t, txs + {tx}, h, Some(Inserted(t, tx)));
    }
  }

  lemma UnknownFits(t: Tables, cfg: Config, e: Env, txs: set<Transfer>, tx: Transfer, row: Option<SubPayment>)
    requires RowFits(t, cfg, e, txs, tx.txHash, row)
    requires IsConfirmed(t, tx.txHash) || !Known(t, tx)
    ensures RowFits(t, cfg, e, txs + {tx}, tx.txHash, RowAfter(t, cfg, row, tx, e))
  {
    var h := tx.txHash;
    SettledInMore(t, cfg, txs, tx, h);
    if !IsConfirmed(t, h) && !SettledIn(t, cfg, txs, h) && h !in t.payments {
      if KnownIn(t, txs, h) {
        var x :| x in txs && x.txHash == h && Known(t, x) && row == Some(Inserted(t, x));
        assert x in txs + {tx};
      } else {
        assert !KnownIn(t, txs + {tx}, h);
      }
    }
  }

  lemma FirstSettledFits(t: Tables, cfg: Config, e: Env, txs: set<Transfer>, tx: Transfer, row: Option<SubPayment>)
    requires Agreeing(t, cfg, e, txs + {tx}) && RowFits(t, cfg, e, txs, tx.txHash, row)
    requires !IsConfirmed(t, tx.txHash) && !SettledIn(t, cfg, txs, tx.txHash) && Settles(t, cfg, tx)
    ensures RowFits(t, cfg, e, txs + {tx}, tx.txHash, RowAfter(t, cfg, row, tx, e))
  {
    var h := tx.txHash;
    assert tx in txs + {tx};
    SettledInMore(t, cfg, txs, tx, h);
    forall x | x in txs + {tx} && x.txHash == h && Settles(t, cfg, x) ensures x == tx {
      assert x in txs ==> SettledIn(t, cfg, txs, h);
    }
    if h !in t.payments && KnownIn(t, txs, h) {
      var x :| x in txs && x.txHash == h && Known(t, x) && row == Some(Inserted(t, x));
      assert Agree(t, cfg, e, x, tx);
    }
  }

  lemma RowFitsOther(t: Tables, cfg: Config, e: Env, txs: set<Transfer>, tx: Transfer, h: string,
                     row: Option<SubPayment>)
    requires RowFits(t, cfg, e, txs, h, row) && tx.txHash != h
    ensures RowFits(t, cfg, e, txs + {tx}, h, row)
  {
    SettledInMore(t, cfg, txs, tx, h);
    if !IsConfirmed(t, h) && !SettledIn(t, cfg, txs, h) && h !in t.payments {
      if KnownIn(t, txs, h) {
        var x :| x in txs && x.txHash == h && Known(t, x) && row == Some(Inserted(t, x));
        assert x in txs + {tx};
      } else {
        assert !KnownIn(t, txs + {tx}, h);
      }
    }
  }

  lemma {:induction false} BatchPayments(t: Tables, cfg: Config, txs: seq<Transfer>, e: Env)
    requires AllGood(e) && Agreeing(t, cfg, e, Entries(txs))
    ensures forall h :: RowFits(t, cfg, e, Entries(txs), h, RowOf(Run(t, cfg, Batch(txs, e)), h))
  {
    if txs == [] {
    } else {
      var n := |txs| - 1;
      var front, tx := txs[..n], txs[n];
      FrontAndLast(txs);
      EntriesSnoc(front, tx);
      BatchPayments(t, cfg, front, e);
      var m := Run(t, cfg, Batch(front, e));
      forall h ensures RowFits(t, cfg, e, Entries(txs), h, RowOf(Run(t, cfg, Batch(txs, e)), h)) {
        BatchRowSnoc(t, cfg, front, tx, e, h);
        if h == tx.txHash {
          RowFitsMore(t, cfg, e, Entries(front), tx, RowOf(m, h));
        } else {
          RowFitsOther(t, cfg, e, Entries(front), tx, h, RowOf(m, h));
        }
      }
    }
  }

  lemma BatchRowSnoc(t: Tables, cfg: Config, txs: seq<Transfer>, tx: Transfer, e: Env, h: string)
    requires AllGood(e)
    ensures var row := RowOf(Run(t, cfg, Batch(txs, e)), h);
            RowOf(Run(t, cfg, Batch(txs + [tx], e)), h)
            == if h == tx.txHash then RowAfter(t, cfg, row, tx, e) else row
  {
    var m := Run(t, cfg, Batch(txs, e));
    BatchActivations(t, cfg, txs, e);
    BatchSnoc(txs, tx, e);
    TransferRow(m, cfg, tx, e, h);
    RowAfterLocal(m, t, cfg, RowOf(m, h), tx, e);
  }

  lemma RowAfterLocal(m: Tables, t: Tables, cfg: Config, row: Option<SubPayment>, tx: Transfer, e: Env)
    requires m.addresses == t.addresses
    ensures RowAfter(m, cfg, row, tx, e) == RowAfter(t, cfg, row, tx, e)
  {
  }

  lemma RowDetermined(t: Tables, cfg: Config, e: Env, txs: set<Transfer>, h: string,
                      row: Option<SubPayment>, row': Option<SubPayment>)
    requires Consistent(t, cfg, e, txs) && RowFits(t, cfg, e, txs, h, row) && RowFits(t, cfg, e, txs, h, row')
    ensures row == row'
  {
    if IsConfirmed(t, h) {
    } else if SettledIn(t, cfg, txs, h) {
      var x :| x in txs && x.txHash == h && Settles(t, cfg, x);
    } else if h !in t.payments && KnownIn(t, txs, h) {
      var x :| x in txs && x.txHash == h && Known(t, x) && row == Some(Inserted(t, x));
      var y :| y in txs && y.txHash == h && Known(t, y) && row' == Some(Inserted(t, y));
      assert Agree(t, cfg, e, x, y) && IsNewTo(t, cfg, txs, x) && IsNewTo(t, cfg, txs, y);
    }
  }

  /** Some entry that settles an unconfirmed hash is worth this. */
  ghost predicate MayHave(t: Tables, cfg: Config, txs: set<Transfer>, e: Env, x: Effect) {
    exists tx :: tx in txs && Settles(t, cfg, tx) && !IsConfirmed(t, tx.txHash) && Worth(t, tx, e) == Some(x)
  }

  lemma {:induction false} FirstOf(t: Tables, cfg: Config, txs: seq<Transfer>, h: string) returns (k: nat)
    requires !IsConfirmed(t, h) && SettledIn(t, cfg, Entries(txs), h)
    ensures k < |txs| && txs[k].txHash == h && SettlesFirst(t, cfg, txs, k)
  {
    var n := |txs| - 1;
    FrontAndLast(txs);
    EntriesSnoc(txs[..n], txs[n]);
    SettledInMore(t, cfg, Entries(txs[..n]), txs[n], h);
    if SettledIn(t, cfg, Entries(txs[..n]), h) {
      k := FirstOf(t, cfg, txs[..n], h);
      assert txs[..n][..k] == txs[..k];
    } else {
      k := n;
    }
  }

  lemma EffectOfAny(t: Tables, cfg: Config, txs: seq<Transfer>, e: Env, x: Effect)
    requires AllGood(e) && Agreeing(t, cfg, e, Entries(txs))
    ensures x in Effects(t, cfg, txs, e) <==> MayHave(t, cfg, Entries(txs), e, x)
  {
    BatchActivations(t, cfg, txs, e);
    if HasEffect(t, cfg, txs, e, x) {
      var k: nat :| k < |txs| && SettlesFirst(t, cfg, txs, k) && Worth(t, txs[k], e) == Some(x);
      assert txs[k] in Entries(txs);
    }
    if MayHave(t, cfg, Entries(txs), e, x) {
      var tx :| tx in Entries(txs) && Settles(t, cfg, tx) && !IsConfirmed(t, tx.txHash) && Worth(t, tx, e) == Some(x);
      var k := FirstOf(t, cfg, txs, tx.txHash);
      assert txs[k] in Entries(txs);
      assert Agree(t, cfg, e, txs[k], tx);
    }
  }

  lemma EffectsDistinct(t: Tables, cfg: Config, txs: seq<Transfer>, e: Env)
    requires AllGood(e)
    ensures Distinct(Effects(t, cfg, txs, e))
  {
    ActivatesAtMostOnce(t, cfg, Batch(txs, e));
  }

  // ----- Every order of a scan -----

  /** Two scans do the same: they leave the same payment rows and activate for the
      same transactions the same miners, tiers and cents. */
  ghost predicate SameScan(t: Tables, cfg: Config, txs: seq<Transfer>, txs': seq<Transfer>, e: Env) {
    && Run(t, cfg, Batch(txs, e)).payments == Run(t, cfg, Batch(txs', e)).payments
    && multiset(Effects(t, cfg, txs, e)) == multiset(Effects(t, cfg, txs', e))
  }

  lemma SameEntries(txs: seq<Transfer>, txs': seq<Transfer>)
    requires multiset(txs) == multiset(txs')
    ensures Entries(txs) == Entries(txs')
  {
    forall x ensures x in txs <==> x in txs' {
      assert (x in multiset(txs)) == (x in multiset(txs'));
    }
  }

  lemma RowsAreMap(p: map<string, SubPayment>, q: map<string, SubPayment>, t: Tables, t': Tables)
    requires p == t.payments && q == t'.payments && forall h :: RowOf(t, h) == RowOf(t', h)
    ensures p == q
  {
    forall h ensures h in p <==> h in q {
      assert RowOf(t, h) == RowOf(t', h);
    }
    forall h | h in p ensures p[h] == q[h] {
      assert RowOf(t, h) == RowOf(t', h);
    }
  }

  lemma ConsistentIsSame(t: Tables, cfg: Config, txs: seq<Transfer>, txs': seq<Transfer>, e: Env)
    requires AllGood(e) && Consistent(t, cfg, e, Entries(txs)) && multiset(txs) == multiset(txs')
    ensures SameScan(t, cfg, txs, txs', e)
  {
    SameEntries(txs, txs');
    var m, m' := Run(t, cfg, Batch(txs, e)), Run(t, cfg, Batch(txs', e));
    BatchPayments(t, cfg, txs, e);
    BatchPayments(t, cfg, txs', e);
    forall h ensures RowOf(m, h) == RowOf(m', h) {
      RowDetermined(t, cfg, e, Entries(txs), h, RowOf(m, h), RowOf(m', h));
    }
    RowsAreMap(m.payments, m'.payments, m, m');
    EffectsDistinct(t, cfg, txs, e);
    EffectsDistinct(t, cfg, txs', e);
    forall x ensures x in Effects(t, cfg, txs, e) <==> x in Effects(t, cfg, txs', e) {
      EffectOfAny(t, cfg, txs, e, x);
      EffectOfAny(t, cfg, txs', e, x);
    }
    DistinctSame(Effects(t, cfg, txs, e), Effects(t, cfg, txs', e));
  }

  /** What the row of x's hash looks like when x came first and then others did. */
  ghost predicate CameFirst(t: Tables, cfg: Config, e: Env, x: Transfer, others: set<Transfer>, row: Option<SubPayment>)
    requires Known(t, x)
  {
    && row.Some?
    && (Settles(t, cfg, x) ==> row == Some(Settled(t, RowOf(t, x.txHash), x, e)))
    && (x.txHash !in t.payments ==> row.value.miner == Lookup(t, x.minor).value && row.value.amount == x.amount)
    && (x.txHash !in t.payments && !Settles(t, cfg, x) && !SettledIn(t, cfg, others, x.txHash) ==>
          row == Some(Inserted(t, x)))
  }

  lemma CameFirstStep(t: Tables, cfg: Config, e: Env, x: Transfer, others: set<Transfer>, tx: Transfer,
                      row: Option<SubPayment>)
    requires Known(t, x) && CameFirst(t, cfg, e, x, others, row)
    ensures CameFirst(t, cfg, e, x, others + {tx}, if tx.txHash == x.txHash then RowAfter(t, cfg, row, tx, e) else row)
  {
    SettledInMore(t, cfg, others, tx, x.txHash);
  }

  lemma {:induction false} FirstRow(t: Tables, cfg: Config, x: Transfer, others: seq<Transfer>, e: Env)
    requires AllGood(e) && Known(t, x) && !IsConfirmed(t, x.txHash)
    ensures CameFirst(t, cfg, e, x, Entries(others), RowOf(Run(t, cfg, Batch([x] + others, e)), x.txHash))
  {
    if others == [] {
      BatchSnoc([], x, e);
      assert [x] + [] == [] + [x];
      TransferRow(t, cfg, x, e, x.txHash);
    } else {
      var n := |others| - 1;
      var front, tx := others[..n], others[n];
      FirstRow(t, cfg, x, front, e);
      FrontAndLast(others);
      EntriesSnoc(front, tx);
      assert [x] + others == [x] + front + [tx];
      BatchRowSnoc(t, cfg, [x] + front, tx, e, x.txHash);
      CameFirstStep(t, cfg, e, x, Entries(front), tx, RowOf(Run(t, cfg, Batch([x] + front, e)), x.txHash));
    }
  }

  /** A settling entry that comes first decides what its transaction activates. */
  lemma FirstEffect(t: Tables, cfg: Config, x: Transfer, others: seq<Transfer>, e: Env, effect: Effect)
    requires AllGood(e) && Settles(t, cfg, x) && !IsConfirmed(t, x.txHash) && effect.txHash == x.txHash
    ensures effect in Effects(t, cfg, [x] + others, e) <==> Worth(t, x, e) == Some(effect)
  {
    var txs := [x] + others;
    BatchActivations(t, cfg, txs, e);
    assert txs[0] == x && Entries(txs[..0]) == {};
    assert SettlesFirst(t, cfg, txs, 0);
    forall k: nat | 0 < k < |txs| ensures SettledIn(t, cfg, Entries(txs[..k]), x.txHash) {
      assert txs[..k][0] == x && x in Entries(txs[..k]);
    }
  }

  /** Any entry can come first. */
  lemma PutFirst(txs: seq<Transfer>, x: Transfer) returns (others: seq<Transfer>)
    requires x in Entries(txs)
    ensures multiset([x] + others) == multiset(txs)
  {
    var i :| 0 <= i < |txs| && txs[i] == x;
    others := Without(txs, i);
    MultisetWithout(txs, i);
    assert multiset([x] + others) == multiset{x} + multiset(others);
  }

  lemma SameRow(t: Tables, cfg: Config, txs: seq<Transfer>, txs': seq<Transfer>, e: Env, h: string)
    requires SameScan(t, cfg, txs, txs', e)
    ensures RowOf(Run(t, cfg, Batch(txs, e)), h) == RowOf(Run(t, cfg, Batch(txs', e)), h)
  {
  }

  lemma SameEffect(t: Tables, cfg: Config, txs: seq<Transfer>, txs': seq<Transfer>, e: Env, x: Effect)
    requires SameScan(t, cfg, txs, txs', e)
    ensures x in Effects(t, cfg, txs, e) <==> x in Effects(t, cfg, txs', e)
  {
    assert (x in multiset(Effects(t, cfg, txs, e))) == (x in multiset(Effects(t, cfg, txs', e)));
  }

  /** If it does not matter which of two entries comes first, they agree. */
  lemma EitherFirstAgree(t: Tables, cfg: Config, e: Env, x: Transfer, xs: seq<Transfer>, y: Transfer, ys: seq<Transfer>)
    requires AllGood(e) && SameScan(t, cfg, [x] + xs, [y] + ys, e)
    ensures Agree(t, cfg, e, x, y)
    ensures x.txHash == y.txHash && Known(t, x) && Known(t, y) && x.txHash !in t.payments
            && !SettledIn(t, cfg, Entries([x] + xs), x.txHash) && !SettledIn(t, cfg, Entries([y] + ys), x.txHash)
            ==> x.height == y.height
  {
    if x.txHash == y.txHash && !IsConfirmed(t, x.txHash) && Known(t, x) && Known(t, y) {
      SameRow(t, cfg, [x] + xs, [y] + ys, e, x.txHash);
      FirstRow(t, cfg, x, xs, e);
      FirstRow(t, cfg, y, ys, e);
      if Settles(t, cfg, x) && Settles(t, cfg, y) {
        EitherFirstWorth(t, cfg, e, x, xs, y, ys);
      }
      if !SettledIn(t, cfg, Entries([x] + xs), x.txHash) && !SettledIn(t, cfg, Entries([y] + ys), x.txHash) {
        NotSettledFirst(t, cfg, x, xs, x.txHash);
        NotSettledFirst(t, cfg, y, ys, x.txHash);
      }
    }
  }

  lemma NotSettledFirst(t: Tables, cfg: Config, x: Transfer, others: seq<Transfer>, h: string)
    requires !SettledIn(t, cfg, Entries([x] + others), h) && x.txHash == h
    ensures !Settles(t, cfg, x) && !SettledIn(t, cfg, Entries(others), h)
  {
    assert x in Entries([x] + others);
    assert forall y | y in Entries(others) :: y in Entries([x] + others);
  }

  lemma EitherFirstWorth(t: Tables, cfg: Config, e: Env, x: Transfer, xs: seq<Transfer>, y: Transfer, ys: seq<Transfer>)
    requires AllGood(e) && SameScan(t, cfg, [x] + xs, [y] + ys, e)
    requires x.txHash == y.txHash && !IsConfirmed(t, x.txHash) && Settles(t, cfg, x) && Settles(t, cfg, y)
    ensures Worth(t, x, e) == Worth(t, y, e)
  {
    forall effect: Effect | effect.txHash == x.txHash
      ensures Worth(t, x, e) == Some(effect) <==> Worth(t, y, e) == Some(effect)
    {
      FirstEffect(t, cfg, x, xs, e, effect);
      FirstEffect(t, cfg, y, ys, e, effect);
      SameEffect(t, cfg, [x] + xs, [y] + ys, e, effect);
    }
    if Worth(t, x, e).Some? {
      assert Worth(t, x, e).value.txHash == x.txHash;
    } else if Worth(t, y, e).Some? {
      assert Worth(t, y, e).value.txHash == x.txHash;
    }
  }

  lemma SameIsConsistent(t: Tables, cfg: Config, txs: seq<Transfer>, e: Env)
    requires AllGood(e)
    requires forall txs' | multiset(txs') == multiset(txs) :: SameScan(t, cfg, txs, txs', e)
    ensures Consistent(t, cfg, e, Entries(txs))
  {
    forall x, y | x in Entries(txs) && y in Entries(txs)
      ensures Agree(t, cfg, e, x, y)
      ensures IsNewTo(t, cfg, Entries(txs), x) && IsNewTo(t, cfg, Entries(txs), y) && x.txHash == y.txHash ==>
                x.height == y.height
    {
      var xs := PutFirst(txs, x);
      var ys := PutFirst(txs, y);
      SameEntries(txs, [x] + xs);
      SameEntries(txs, [y] + ys);
      assert SameScan(t, cfg, txs, [x] + xs, e) && SameScan(t, cfg, txs, [y] + ys, e);
      EitherFirstAgree(t, cfg, e, x, xs, y, ys);
    }
  }

  /** Reordering one scan's transfers changes neither the payment rows nor what is
      activated, exactly when entries that share a hash agree. */
  lemma ScanOrderExact(t: Tables, cfg: Config, txs: seq<Transfer>, e: Env)
    requires AllGood(e)
    ensures Consistent(t, cfg, e, Entries(txs))
            <==> forall txs' | multiset(txs') == multiset(txs) :: SameScan(t, cfg, txs, txs', e)
  {
    if Consistent(t, cfg, e, Entries(txs)) {
      forall txs' | multiset(txs') == multiset(txs) ensures SameScan(t, cfg, txs, txs', e) {
        ConsistentIsSame(t, cfg, txs, txs', e);
      }
    } else if forall txs' | multiset(txs') == multiset(txs) :: SameScan(t, cfg, txs, txs', e) {
      SameIsConsistent(t, cfg, txs, e);
    }
  }

  // ----- Terms and fund -----

  function CountOf(a: Address): Effect -> int {
    (x: Effect) => if x.miner == a then 1 else 0
  }

  function ChampionOf(a: Address): Effect -> int {
    (x: Effect) => if x.miner == a && x.tier == Champion then 1 else 0
  }

  function CentsOf(): Effect -> int {
    (x: Effect) => x.cents
  }

  function Champions(acts: seq<Activation>): nat {
    if acts == [] then 0 else Champions(acts[..|acts| - 1]) + (if acts[|acts| - 1].tier == Champion then 1 else 0)
  }

  /** Activations of one scan: all at its instant, for a paid tier, and funded. */
  ghost predicate AllMadeBy(acts: seq<Activation>, e: Env) {
    forall i | 0 <= i < |acts| ::
      acts[i].at == e.now && acts[i].month == e.month && acts[i].funded && acts[i].tier != Free
  }

  lemma {:induction false} BatchMadeBy(t: Tables, cfg: Config, txs: seq<Transfer>, e: Env)
    requires AllGood(e)
    ensures AllMadeBy(Activations(t, cfg, Batch(txs, e)), e)
  {
    if txs == [] {
    } else {
      var n := |txs| - 1;
      FrontAndLast(txs);
      BatchSnoc(txs[..n], txs[n], e);
      BatchMadeBy(t, cfg, txs[..n], e);
    }
  }

  /** What a scan does to terms and fund, from its effects. */
  lemma {:induction false} EffectSums(acts: seq<Activation>, e: Env, a: Address, month: int)
    requires AllMadeBy(acts, e)
    ensures var mine := Of(acts, a);
            && |mine| == SumOf(CountOf(a), EffectsOf(acts))
            && Champions(mine) == SumOf(ChampionOf(a), EffectsOf(acts))
            && AllMadeBy(mine, e)
    ensures FundedCents(acts, month) == if month == e.month then SumOf(CentsOf(), EffectsOf(acts)) else 0
  {
    if acts == [] {
    } else {
      var n := |acts| - 1;
      var x := acts[n];
      EffectSums(acts[..n], e, a, month);
      FrontAndLast(acts);
      EffectsOfSnoc(acts[..n], x);
      SumOfSnoc(CountOf(a), EffectsOf(acts[..n]), EffectOf(x));
      SumOfSnoc(ChampionOf(a), EffectsOf(acts[..n]), EffectOf(x));
      SumOfSnoc(CentsOf(), EffectsOf(acts[..n]), EffectOf(x));
      OfSnoc(acts[..n], x, a);
      CountsSnoc(Of(acts[..n], a), x, a, e);
    }
  }

  lemma CountsSnoc(mine: seq<Activation>, x: Activation, a: Address, e: Env)
    requires AllMadeBy(mine, e) && AllMadeBy([x], e)
    ensures var mine' := mine + (if x.miner == a then [x] else []);
            && |mine'| == |mine| + (if x.miner == a then 1 else 0)
            && Champions(mine') == Champions(mine) + (if x.miner == a && x.tier == Champion then 1 else 0)
            && AllMadeBy(mine', e)
  {
    assert [x][0] == x;
    assert (mine + [x])[..|mine|] == mine && mine + [] == mine;
  }

  /** The tier after so many activations, some of them for champions. */
  function TierBy(tier: Tier, count: int, champions: int): Tier {
    if count <= 0 then tier else if tier == Champion || 0 < champions then Champion else Supporter
  }

  lemma {:induction false} BestByCount(tier: Tier, acts: seq<Activation>)
    requires forall i | 0 <= i < |acts| :: acts[i].tier != Free
    ensures BestTier(tier, acts) == TierBy(tier, |acts|, Champions(acts))
  {
    if acts == [] {
    } else {
      BestByCount(tier, acts[..|acts| - 1]);
    }
  }

  function Instants(now: int, count: nat): (times: seq<int>)
    ensures |times| == count
  {
    if count == 0 then [] else Instants(now, count - 1) + [now]
  }

  lemma {:induction false} TimesAtOnce(acts: seq<Activation>, e: Env)
    requires AllMadeBy(acts, e)
    ensures Times(acts) == Instants(e.now, |acts|)
  {
    if acts == [] {
    } else {
      var n := |acts| - 1;
      TimesAtOnce(acts[..n], e);
      assert Times(acts) == Times(acts[..n]) + [e.now];
    }
  }

  /** Terms and fund after a scan are those its effects give. */
  lemma TermsByCount(t: Tables, cfg: Config, txs: seq<Transfer>, e: Env, a: Address, month: int)
    requires AllGood(e)
    ensures var m := Run(t, cfg, Batch(txs, e));
            var mine := Of(Activations(t, cfg, Batch(txs, e)), a);
            var effects := Effects(t, cfg, txs, e);
            && TermsOf(m.subs, a) == TermsAfter(t, cfg, a, mine)
            && Times(mine) == Instants(e.now, |mine|) && |mine| == SumOf(CountOf(a), effects)
            && BestTier(TermsOf(t.subs, a).tier, mine)
               == TierBy(TermsOf(t.subs, a).tier, |mine|, SumOf(ChampionOf(a), effects))
            && FundOf(m, month) == FundOf(t, month) + (if month == e.month then SumOf(CentsOf(), effects) else 0)
  {
    var mine := Of(Activations(t, cfg, Batch(txs, e)), a);
    TermsFromActivations(t, cfg, Batch(txs, e), a);
    FundConserved(t, cfg, Batch(txs, e), month);
    BatchMadeBy(t, cfg, txs, e);
    EffectSums(Activations(t, cfg, Batch(txs, e)), e, a, month);
    TimesAtOnce(mine, e);
    BestByCount(TermsOf(t.subs, a).tier, mine);
  }

  lemma TermsAlike(t: Tables, cfg: Config, a: Address, mine: seq<Activation>, mine': seq<Activation>)
    requires Times(mine) == Times(mine')
    requires BestTier(TermsOf(t.subs, a).tier, mine) == BestTier(TermsOf(t.subs, a).tier, mine')
    ensures TermsAfter(t, cfg, a, mine) == TermsAfter(t, cfg, a, mine')
  {
    assert |mine| == |Times(mine)| && |mine'| == |Times(mine')|;
  }

  lemma SameScanSameTerms(t: Tables, cfg: Config, txs: seq<Transfer>, txs': seq<Transfer>, e: Env,
                          a: Address, month: int)
    requires AllGood(e) && SameScan(t, cfg, txs, txs', e)
    ensures var r, r' := Run(t, cfg, Batch(txs, e)), Run(t, cfg, Batch(txs', e));
            TermsOf(r.subs, a) == TermsOf(r'.subs, a) && FundOf(r, month) == FundOf(r', month)
  {
    TermsByCount(t, cfg, txs, e, a, month);
    TermsByCount(t, cfg, txs', e, a, month);
    SumOfPermutes(CountOf(a), Effects(t, cfg, txs, e), Effects(t, cfg, txs', e));
    SumOfPermutes(ChampionOf(a), Effects(t, cfg, txs, e), Effects(t, cfg, txs', e));
    SumOfPermutes(CentsOf(), Effects(t, cfg, txs, e), Effects(t, cfg, txs', e));
    TermsAlike(t, cfg, a, Of(Activations(t, cfg, Batch(txs, e)), a), Of(Activations(t, cfg, Batch(txs', e)), a));
  }

  /** Where entries that share a hash agree, reordering the transfers of one scan
      at one instant leaves every miner the same tier, expiry and grace, the same
      payment rows and the same fund. */
  lemma ScanOrderIrrelevant(t: Tables, cfg: Config, txs: seq<Transfer>, txs': seq<Transfer>, e: Env,
                            a: Address, month: int)
    requires multiset(txs) == multiset(txs') && AllGood(e) && Consistent(t, cfg, e, Entries(txs))
    ensures var r, r' := Run(t, cfg, Batch(txs, e)), Run(t, cfg, Batch(txs', e));
            && TermsOf(r.subs, a) == TermsOf(r'.subs, a)
            && FundOf(r, month) == FundOf(r', month)
            && r.payments == r'.payments
  {
    ConsistentIsSame(t, cfg, txs, txs', e);
    SameScanSameTerms(t, cfg, txs, txs', e, a, month);
  }

  ghost predicate DistinctTransfers(txs: seq<Transfer>) {
    forall i, j | 0 <= i < j < |txs| :: txs[i].txHash != txs[j].txHash
  }

  /** No two entries of one transaction is one way to agree. */
  lemma DistinctIsConsistent(t: Tables, cfg: Config, txs: seq<Transfer>, e: Env)
    requires DistinctTransfers(txs)
    ensures Consistent(t, cfg, e, Entries(txs))
  {
    forall x, y | x in Entries(txs) && y in Entries(txs) && x.txHash == y.txHash ensures x == y {
      var i :| 0 <= i < |txs| && txs[i] == x;
      var j :| 0 <= j < |txs| && txs[j] == y;
      assert i == j;
    }
  }

  // ----- Two entries of one transaction -----

  /** Once a transaction has been settled, no entry of it does anything again, in
      this scan or a later one: what it paid to its other subaddresses is lost. */
  lemma LaterEntryIsLost(t: Tables, cfg: Config, x: Transfer, e: Env, ops: seq<Op>, y: Transfer, e': Env)
    requires AllGood(e) && Settles(t, cfg, x)
    requires ReadsConfirmed(ops) && e'.confirmedReadOk && y.txHash == x.txHash
    ensures var m := Run(AfterTransfer(t, cfg, x, e).0, cfg, ops);
            && !AfterTransfer(m, cfg, y, e').1.Activated?
            && (Pays(m, cfg, y, e') ==> AfterTransfer(m, cfg, y, e') == (m, Ignored))
  {
    var t' := AfterTransfer(t, cfg, x, e).0;
    TransferRow(t, cfg, x, e, x.txHash);
    assert RowOf(t', x.txHash).Some? && RowOf(t', x.txHash).value.confirmed;
    assert IsConfirmed(t', x.txHash);
    ConfirmedRowFrozen(t', cfg, ops, x.txHash);
  }

  lemma SecondIsIgnored(t: Tables, cfg: Config, x: Transfer, y: Transfer, e: Env)
    requires AllGood(e) && x.txHash == y.txHash && Settles(t, cfg, x) && Settles(t, cfg, y)
    ensures Run(t, cfg, Batch([x, y], e)) == AfterTransfer(t, cfg, x, e).0
  {
    var t' := AfterTransfer(t, cfg, x, e).0;
    BatchSnoc([], x, e);
    BatchSnoc([x], y, e);
    assert [] + [x] == [x] && [x] + [y] == [x, y];
    assert Run(t, cfg, Batch([], e)) == t;
    assert Run(t, cfg, Batch([x], e)) == t';
    TransferRow(t, cfg, x, e, x.txHash);
    assert RowOf(t', x.txHash).Some? && RowOf(t', x.txHash).value.confirmed;
    assert IsConfirmed(t', y.txHash);
    assert Lookup(t', y.minor) == Lookup(t, y.minor);
  }

  /** What one settling entry makes of terms and fund. */
  lemma OneEntry(t: Tables, cfg: Config, x: Transfer, e: Env, a: Address, month: int)
    requires AllGood(e) && Settles(t, cfg, x) && !IsConfirmed(t, x.txHash) && Worth(t, x, e).Some?
    ensures var w := Worth(t, x, e).value;
            var m := AfterTransfer(t, cfg, x, e).0;
            && TermsOf(m.subs, a) ==
               (if w.miner == a
                then var until := Extend(PaidExpiry(t.subs, a), e.now, cfg.duration);
                     Terms(Higher(TermsOf(t.subs, a).tier, w.tier), Some(until), Some(until + cfg.grace))
                else TermsOf(t.subs, a))
            && FundOf(m, month) == FundOf(t, month) + (if month == e.month then w.cents else 0)
  {
    TransferEffect(t, cfg, x, e);
    TermsStep(t, cfg, Process(x, e), a);
    FundStep(t, cfg, Process(x, e), month);
  }

  /** An activation always changes its miner's terms. */
  lemma ActivationShows(t: Tables, cfg: Config, a: Address, tier: Tier, now: int)
    requires tier != Free && 0 < cfg.duration
    ensures var until := Extend(PaidExpiry(t.subs, a), now, cfg.duration);
            Terms(Higher(TermsOf(t.subs, a).tier, tier), Some(until), Some(until + cfg.grace)) != TermsOf(t.subs, a)
  {
  }

  ghost predicate SameTerms(r: Tables, r': Tables) {
    forall a :: TermsOf(r.subs, a) == TermsOf(r'.subs, a)
  }

  ghost predicate SameFund(r: Tables, r': Tables) {
    forall month :: FundOf(r, month) == FundOf(r', month)
  }

  /** Two entries of one new transaction that are both worth a tier: their order
      does not matter to terms and fund exactly when they are for the same miner,
      raise it to the same tier and are worth the same cents. */
  lemma PairOrder(t: Tables, cfg: Config, x: Transfer, y: Transfer, e: Env)
    requires AllGood(e) && 0 < cfg.duration && x.txHash == y.txHash && !IsConfirmed(t, x.txHash)
    requires Settles(t, cfg, x) && Settles(t, cfg, y) && Worth(t, x, e).Some? && Worth(t, y, e).Some?
    ensures var r, r' := Run(t, cfg, Batch([x, y], e)), Run(t, cfg, Batch([y, x], e));
            var wx, wy := Worth(t, x, e).value, Worth(t, y, e).value;
            var tier := TermsOf(t.subs, wx.miner).tier;
            SameTerms(r, r') && SameFund(r, r')
            <==> wx.miner == wy.miner && Higher(tier, wx.tier) == Higher(tier, wy.tier) && wx.cents == wy.cents
  {
    var r, r' := Run(t, cfg, Batch([x, y], e)), Run(t, cfg, Batch([y, x], e));
    var wx, wy := Worth(t, x, e).value, Worth(t, y, e).value;
    SecondIsIgnored(t, cfg, x, y, e);
    SecondIsIgnored(t, cfg, y, x, e);
    if SameTerms(r, r') && SameFund(r, r') {
      assert TermsOf(r.subs, wx.miner) == TermsOf(r'.subs, wx.miner) && FundOf(r, e.month) == FundOf(r', e.month);
    }
    OneEntry(t, cfg, x, e, wx.miner, e.month);
    OneEntry(t, cfg, y, e, wx.miner, e.month);
    ActivationShows(t, cfg, wx.miner, wx.tier, e.now);
    if wx.miner == wy.miner && Higher(TermsOf(t.subs, wx.miner).tier, wx.tier)
                               == Higher(TermsOf(t.subs, wx.miner).tier, wy.tier) && wx.cents == wy.cents {
      forall a ensures TermsOf(r.subs, a) == TermsOf(r'.subs, a) {
        OneEntry(t, cfg, x, e, a, e.month);
        OneEntry(t, cfg, y, e, a, e.month);
      }
      forall month ensures FundOf(r, month) == FundOf(r', month) {
        OneEntry(t, cfg, x, e, wx.miner, month);
        OneEntry(t, cfg, y, e, wx.miner, month);
      }
    }
  }
}
