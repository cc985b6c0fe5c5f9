/** The subscription ledger: what the wallet scanner does with each transfer it
    is shown, scan after scan
    (services/manager/internal/subscription/scanner.go).
    Times are seconds, USD values exact, fund totals whole cents. */
module Ledger {
  import opened Prelude
  import opened Tiers

  /** A row of subscription_payments. */
  datatype SubPayment = SubPayment(miner: Address, amount: uint64, usd: Option<real>, cad: Option<real>,
                                   confirmed: bool, height: nat)

  datatype Tables = Tables(
    addresses: map<nat, Address>,        // subscription_addresses, by subaddress index
    payments: map<string, SubPayment>,   // subscription_payments, by tx_hash
    subs: map<Address, Subscription>,
    fund: map<int, int>)                 // node_fund_months.total_funded_usd, in cents

  datatype Transfer = Transfer(txHash: string, amount: uint64, confirmations: nat, height: nat, minor: nat)

  datatype Price = Price(usd: real, cad: real)

  datatype Config = Config(confirmDepth: nat, duration: nat, grace: nat)

  /** The clock, the price oracle, and which statements go through. */
  datatype Env = Env(now: int, month: int, price: Option<Price>,
                     lookupOk: bool, confirmedReadOk: bool, upsertOk: bool,
                     expiryReadOk: bool, activateOk: bool, fundOk: bool)

  /** What came of one transfer. */
  datatype Result =
    | Failed
    | Ignored
    | TooSmall
    | Activated(activation: Activation)

  datatype Activation = Activation(txHash: string, miner: Address, tier: Tier, usd: real,
                                   at: int, month: int, funded: bool)

  // ----- Single statements -----

  /** Without a price every payment counts as a supporter payment. */
  function PaymentUSDValue(amount: uint64, price: Option<real>): real {
    if price.None? || price.value <= 0.0 then SUPPORTER_MIN_USD
    else amount as real / 1_000_000_000_000.0 * price.value
  }

  /** NUMERIC(10,2): cents, halves rounded up. */
  function Cents(usd: real): int {
    (usd * 100.0 + 0.5).Floor
  }

  function UsdPrice(price: Option<Price>): Option<real> {
    if price.Some? then Some(price.value.usd) else None
  }

  function CadPrice(price: Option<Price>): Option<real> {
    if price.Some? then Some(price.value.cad) else None
  }

  function Coalesce<T>(x: Option<T>, y: Option<T>): Option<T> {
    if x.Some? then x else y
  }

  function Insert(t: Tables, miner: Address, tx: Transfer): Tables {
    if tx.txHash in t.payments then t
    else t.(payments := t.payments[tx.txHash := SubPayment(miner, tx.amount, None, None, false, tx.height)])
  }

  function UpsertConfirmed(t: Tables, miner: Address, tx: Transfer, price: Option<Price>): Tables {
    var usd, cad := UsdPrice(price), CadPrice(price);
    var row := if tx.txHash in t.payments
               then var row := t.payments[tx.txHash];
                    row.(confirmed := true, height := tx.height,
                         usd := Coalesce(row.usd, usd), cad := Coalesce(row.cad, cad))
               else SubPayment(miner, tx.amount, usd, cad, true, tx.height);
    t.(payments := t.payments[tx.txHash := row])
  }

  /** The expiry of a paid tier; a free row's does not count. */
  function PaidExpiry(subs: map<Address, Subscription>, a: Address): Option<int> {
    if a in subs && subs[a].tier != Free then subs[a].expiresAt else None
  }

  /** An unread, absent or past expiry is replaced by the current time. */
  function Extend(expiry: Option<int>, now: int, duration: int): int {
    (if expiry.Some? && now < expiry.value then expiry.value else now) + duration
  }

  function UpgradedTier(held: Tier, bought: Tier): Tier {
    if bought == Champion || held == Champion then Champion else bought
  }

  function Activate(t: Tables, cfg: Config, a: Address, tier: Tier, amount: nat, now: int, readOk: bool): Tables {
    var expiresAt := Extend(if readOk then PaidExpiry(t.subs, a) else None, now, cfg.duration);
    var row := if a in t.subs then t.subs[a] else FREE_ROW;
    t.(subs := t.subs[a := row.(
         tier := UpgradedTier(row.tier, tier),
         expiresAt := Some(expiresAt), graceUntil := Some(expiresAt + cfg.grace),
         retentionSince := Coalesce(row.retentionSince, Some(now)),
         contribution := amount)])
  }

  function AddToFund(t: Tables, month: int, usd: real): Tables {
    var before := if month in t.fund then t.fund[month] as real / 100.0 else 0.0;
    t.(fund := t.fund[month := Cents(before + usd)])
  }

  // ----- One transfer -----

  /** The address behind a subaddress index; None is the empty string. */
  function Lookup(t: Tables, minor: nat): Option<Address> {
    if minor in t.addresses then Some(t.addresses[minor]) else None
  }

  function AfterUnconfirmed(t: Tables, tx: Transfer, e: Env): (Tables, Result) {
    if !e.lookupOk then (t, Failed)
    else if Lookup(t, tx.minor).None? then (t, Ignored)
    else if !e.upsertOk then (t, Failed)
    else (Insert(t, Lookup(t, tx.minor).value, tx), Ignored)
  }

  predicate IsConfirmed(t: Tables, txHash: string) {
    txHash in t.payments && t.payments[txHash].confirmed
  }

  function AfterTransfer(t: Tables, cfg: Config, tx: Transfer, e: Env): (Tables, Result) {
    if tx.confirmations < cfg.confirmDepth then AfterUnconfirmed(t, tx, e)
    else if !e.lookupOk then (t, Failed)
    else if Lookup(t, tx.minor).None? then (t, Ignored)
    else if e.confirmedReadOk && IsConfirmed(t, tx.txHash) then (t, Ignored)
    else if !e.upsertOk then (t, Failed)
    else
      var miner := Lookup(t, tx.minor).value;
      var t1 := UpsertConfirmed(t, miner, tx, e.price);
      var usd := PaymentUSDValue(tx.amount, UsdPrice(e.price));
      var tier := TierForAmount(usd);
      if tier == Free then (t1, TooSmall)
      else if !e.activateOk then (t1, Failed)
      else
        var t2 := Activate(t1, cfg, miner, tier, tx.amount, e.now, e.expiryReadOk);
        (if e.fundOk then AddToFund(t2, e.month, usd) else t2,
         Activated(Activation(tx.txHash, miner, tier, usd, e.now, e.month, e.fundOk)))
  }

  // ----- Runs -----

  /** Scans are lists of these: confirmed transfers are processed, pool and
      pending ones recorded; in between, subaddresses are handed out. */
  datatype Op =
    | Process(tx: Transfer, env: Env)
    | Unconfirmed(tx: Transfer, env: Env)
    | Assign(minor: nat, miner: Address)

  function Step(t: Tables, cfg: Config, op: Op): (Tables, Result) {
    match op
    case Process(tx, e) => AfterTransfer(t, cfg, tx, e)
    case Unconfirmed(tx, e) => AfterUnconfirmed(t, tx, e)
    case Assign(minor, miner) =>
      (if minor in t.addresses then t else t.(addresses := t.addresses[minor := miner]), Ignored)
  }

  function Run(t: Tables, cfg: Config, ops: seq<Op>): Tables {
    if ops == [] then t else Step(Run(t, cfg, ops[..|ops| - 1]), cfg, ops[|ops| - 1]).0
  }

  /** The activations of a run, in order. */
  function Activations(t: Tables, cfg: Config, ops: seq<Op>): seq<Activation> {
    if ops == [] then [] else
      var n := |ops| - 1;
      var r := Step(Run(t, cfg, ops[..n]), cfg, ops[n]).1;
      Activations(t, cfg, ops[..n]) + (if r.Activated? then [r.activation] else [])
  }

  // ----- The scanner object -----

  class SubscriptionScanner {
    const cfg: Config
    var addresses: map<nat, Address>
    var payments: map<string, SubPayment>
    var subs: map<Address, Subscription>
    var fund: map<int, int>

    /** Zero settings are replaced by 10 confirmations, 30 days and 48 hours. */
    constructor (t: Tables, confirmDepth: nat, durationDays: nat, graceHours: nat)
      ensures cfg == Config(if confirmDepth == 0 then 10 else confirmDepth,
                            (if durationDays == 0 then 30 else durationDays) * 86400,
                            (if graceHours == 0 then 48 else graceHours) * 3600)
      ensures State() == t
    {
      var depth, days, hours := confirmDepth, durationDays, graceHours;
      if depth == 0 { depth := 10; }
      if days == 0 { days := 30; }
      if hours == 0 { hours := 48; }
      cfg := Config(depth, days * 86400, hours * 3600);
      addresses, payments, subs, fund := t.addresses, t.payments, t.subs, t.fund;
    }

    function State(): Tables
      reads this
    {
      Tables(addresses, payments, subs, fund)
    }

    method RecordUnconfirmed(tx: Transfer, e: Env) returns (r: Result)
      modifies this`payments
      ensures (State(), r) == AfterUnconfirmed(old(State()), tx, e)
    {
      if !e.lookupOk {
        return Failed;
      }
      if tx.minor !in addresses {
        return Ignored;
      }
      if !e.upsertOk {
        return Failed;
      }
      if tx.txHash !in payments {
        payments := payments[tx.txHash := SubPayment(addresses[tx.minor], tx.amount, None, None, false, tx.height)];
      }
      r := Ignored;
    }

    method ActivateSubscription(a: Address, tier: Tier, contribution: nat, e: Env) returns (ok: bool)
      modifies this`subs
      ensures ok == e.activateOk
      ensures State() == if ok then Activate(old(State()), cfg, a, tier, contribution, e.now, e.expiryReadOk)
                         else old(State())
    {
      var currentExpiry: Option<int> := None;
      if e.expiryReadOk && a in subs && subs[a].tier != Free {
        currentExpiry := subs[a].expiresAt;
      }
      var baseTime := e.now;
      if currentExpiry.Some? && currentExpiry.value > e.now {
        baseTime := currentExpiry.value;
      }
      var expiresAt := baseTime + cfg.duration;
      var graceUntil := expiresAt + cfg.grace;
      if !e.activateOk {
        return false;
      }
      var row := if a in subs then subs[a] else FREE_ROW;
      subs := subs[a := row.(
        tier := if tier == Champion then Champion else if row.tier == Champion then Champion else tier,
        expiresAt := Some(expiresAt), graceUntil := Some(graceUntil),
        retentionSince := if row.retentionSince.Some? then row.retentionSince else Some(e.now),
        contribution := contribution)];
      ok := true;
    }

    method UpdateFundMonth(usd: real, e: Env)
      modifies this`fund
      ensures State() == if e.fundOk then AddToFund(old(State()), e.month, usd) else old(State())
    {
      if e.fundOk {
        var total := if e.month in fund then fund[e.month] as real / 100.0 else 0.0;
        fund := fund[e.month := Cents(total + usd)];
      }
    }

    method ProcessTransfer(tx: Transfer, e: Env) returns (r: Result)
      modifies this
      ensures (State(), r) == AfterTransfer(old(State()), cfg, tx, e)
    {
      if tx.confirmations < cfg.confirmDepth {
        r := RecordUnconfirmed(tx, e);
        return;
      }
      if !e.lookupOk {
        return Failed;
      }
      if tx.minor !in addresses {
        return Ignored;
      }
      var minerAddress := addresses[tx.minor];
      if e.confirmedReadOk && tx.txHash in payments && payments[tx.txHash].confirmed {
        return Ignored;
      }
      if !e.upsertOk {
        return Failed;
      }
      payments := UpsertConfirmed(State(), minerAddress, tx, e.price).payments;
      var usdValue := PaymentUSDValue(tx.amount, UsdPrice(e.price));
      var tier := TierForAmount(usdValue);
      if tier == Free {
        return TooSmall;
      }
      var ok := ActivateSubscription(minerAddress, tier, tx.amount, e);
      if !ok {
        return Failed;
      }
      UpdateFundMonth(usdValue, e);
      r := Activated(Activation(tx.txHash, minerAddress, tier, usdValue, e.now, e.month, e.fundOk));
    }

    /** One poll cycle over what wallet-rpc reports, if it reports anything;
        errors of single transfers are logged and the scan goes on. */
    method Scan(reported: bool, incoming: seq<Transfer>, pool: seq<Transfer>, pending: seq<Transfer>,
                envs: nat -> Env)
      returns (ok: bool, ghost ops: seq<Op>)
      modifies this
      ensures ok == reported
      ensures ops == if reported then ScanOps(incoming, pool, pending, envs) else []
      ensures State() == Run(old(State()), cfg, ops)
    {
      ok, ops := reported, [];
      if !reported {
        return;
      }
      var all := incoming + pool + pending;
      var i := 0;
      while i < |incoming|
        invariant 0 <= i <= |incoming|
        invariant ops == ScanOps(incoming, pool, pending, envs)[..i]
        invariant State() == Run(old(State()), cfg, ops)
      {
        var _ := ProcessTransfer(incoming[i], envs(i));
        ops := ops + [Process(incoming[i], envs(i))];
        assert ops[..|ops| - 1] == ScanOps(incoming, pool, pending, envs)[..i];
        i := i + 1;
      }
      while i < |all|
        invariant |incoming| <= i <= |all|
        invariant ops == ScanOps(incoming, pool, pending, envs)[..i]
        invariant State() == Run(old(State()), cfg, ops)
      {
        var _ := RecordUnconfirmed(all[i], envs(i));
        ops := ops + [Unconfirmed(all[i], envs(i))];
        assert ops[..|ops| - 1] == ScanOps(incoming, pool, pending, envs)[..i];
        i := i + 1;
      }
    }
  }

  /** The steps of one scan: all incoming transfers, then pool, then pending. */
  function ScanOps(incoming: seq<Transfer>, pool: seq<Transfer>, pending: seq<Transfer>, envs: nat -> Env)
    : (ops: seq<Op>)
    ensures |ops| == |incoming| + |pool| + |pending|
  {
    var all := incoming + pool + pending;
    seq(|all|, i requires 0 <= i < |all| =>
      if i < |incoming| then Process(all[i], envs(i)) else Unconfirmed(all[i], envs(i)))
  }
}
