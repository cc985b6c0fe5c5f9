/** Tiers and the subscriptions table
    (services/manager/internal/subscription/types.go, migrations 003 to 007). */
module Tiers {
  import opened Prelude

  datatype Tier = Free | Supporter | Champion

  function Rank(t: Tier): nat {
    match t
    case Free => 0
    case Supporter => 1
    case Champion => 2
  }

  predicate TierIncludes(actual: Tier, required: Tier) {
    Rank(actual) >= Rank(required)
  }

  const SUPPORTER_MIN_USD := 0.80
  const CHAMPION_MIN_USD := 4.00

  function TierForAmount(usd: real): Tier {
    if usd >= CHAMPION_MIN_USD then Champion
    else if usd >= SUPPORTER_MIN_USD then Supporter
    else Free
  }

  /** A row of the subscriptions table, without its identifiers and e-mail. */
  datatype Subscription = Subscription(
    tier: Tier,
    expiresAt: Option<int>,
    graceUntil: Option<int>,
    apiKeyHash: Option<string>,
    contribution: nat,
    retentionSince: Option<int>,
    heldYear: Option<int>,
    exportsLeft: Option<int>,
    deletedAt: Option<int>)

  /** The row GetOrCreateSubscription inserts. */
  const FREE_ROW := Subscription(Free, None, None, None, 0, None, None, None, None)

  /** The reset shared by the delete handler and the pruner; deletedAt stays. */
  function ResetToFree(s: Subscription): Subscription {
    s.(tier := Free, expiresAt := None, graceUntil := None, apiKeyHash := None,
       retentionSince := None, heldYear := None, exportsLeft := None)
  }

  /** Does a row with this tier and grace period give paid access at `now`? */
  predicate IsActive(tier: Tier, graceUntil: Option<int>, now: int) {
    TierIncludes(tier, Supporter) && graceUntil.Some? && now < graceUntil.value
  }
}
