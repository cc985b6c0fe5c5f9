/** The proportional split of a coinbase reward
    (services/manager/internal/scanner/coinbase.go). */
module Payout {
  import opened Prelude

  datatype Payment = Payment(miner: Address, amount: uint64, height: nat, hash: string)

  /** Hashrates of the miners in the order the map is ranged over. */
  function Hashrates(order: seq<Address>, miners: map<Address, uint64>): (hs: seq<uint64>)
    requires forall a | a in order :: a in miners
    ensures |hs| == |order|
  {
    seq(|order|, i requires 0 <= i < |order| => miners[order[i]])
  }

  /** The share of one miner as 64-bit arithmetic computes it. */
  function MachineShare(h: uint64, reward: uint64, total: uint64): uint64
    requires total != 0
  {
    Wrap(h * reward) / total
  }

  /** The share of one miner over the integers. */
  function FairShare(h: uint64, reward: uint64, total: uint64): nat
    requires total != 0
  {
    QuotientNonNegative(h, reward, total);
    h * reward / total
  }

  lemma ProductNonNegative(x: nat, y: nat)
    ensures 0 <= x * y
  {
  }

  lemma QuotientNonNegative(x: nat, y: nat, d: nat)
    requires 0 < d
    ensures 0 <= x * y / d
  {
    ProductNonNegative(x, y);
    var p: nat := x * y;
    assert 0 <= p / d;
  }

  function MachineShares(hs: seq<uint64>, reward: uint64, total: uint64): (s: seq<uint64>)
    requires total != 0
    ensures |s| == |hs|
  {
    seq(|hs|, i requires 0 <= i < |hs| => MachineShare(hs[i], reward, total))
  }

  function FairShares(hs: seq<uint64>, reward: uint64, total: uint64): (s: seq<nat>)
    requires total != 0
    ensures |s| == |hs|
  {
    seq(|hs|, i requires 0 <= i < |hs| => FairShare(hs[i], reward, total))
  }

  /** What each visited miner is allotted: its share, and for the last one
      whatever the others left of the reward. */
  function Amounts(hs: seq<uint64>, reward: uint64, total: uint64): (s: seq<uint64>)
    requires total != 0
    ensures |s| == |hs|
  {
    if hs == [] then [] else
      var front := MachineShares(hs, reward, total)[..|hs| - 1];
      front + [Wrap(reward - Sum(front))]
  }

  /** The payments that are kept: one per miner with a non-zero amount. */
  function Emitted(order: seq<Address>, amounts: seq<uint64>, height: nat, hash: string): seq<Payment>
    requires |order| == |amounts|
  {
    if order == [] then [] else
      var n := |order| - 1;
      Emitted(order[..n], amounts[..n], height, hash) + Kept(order[n], amounts[n], height, hash)
  }

  function Kept(miner: Address, amount: uint64, height: nat, hash: string): seq<Payment> {
    if amount == 0 then [] else [Payment(miner, amount, height, hash)]
  }

  function PaymentsFor(order: seq<Address>, miners: map<Address, uint64>, reward: uint64, total: uint64,
                       height: nat, hash: string): seq<Payment>
    requires forall a | a in order :: a in miners
  {
    if total == 0 then []
    else Emitted(order, Amounts(Hashrates(order, miners), reward, total), height, hash)
  }

  /** The extraction loop. `order` is the order in which the map happens to be
      ranged over; nothing is assumed about the numbers. */
  method ExtractPayments(order: seq<Address>, miners: map<Address, uint64>, reward: uint64, total: uint64,
                         height: nat, hash: string)
    returns (payments: seq<Payment>)
    requires IsOrder(order, miners.Keys)
    ensures payments == PaymentsFor(order, miners, reward, total, height, hash)
  {
    payments := [];
    if total == 0 {
      return;
    }
    ghost var hs := Hashrates(order, miners);
    ghost var amounts := Amounts(hs, reward, total);
    var distributedTotal: uint64 := 0;
    var i := 0;
    while i < |order|
      invariant 0 <= i <= |order|
      invariant distributedTotal == Distributed(amounts, i)
      invariant payments == EmittedTo(order, amounts, i, height, hash)
    {
      var address := order[i];
      var difficulty := miners[address];
      i := i + 1;
      var amount: uint64;
      if i == |order| {
        amount := Wrap(reward - distributedTotal);
      } else {
        amount := MachineShare(difficulty, reward, total);
      }
      VisitStep(order, hs, reward, total, i - 1, distributedTotal, amount, payments, height, hash);
      distributedTotal := Wrap(distributedTotal + amount);
      if amount == 0 {
        continue;
      }
      payments := payments + [Payment(address, amount, height, hash)];
    }
    assert order[..i] == order && amounts[..i] == amounts;
  }

  function Distributed(amounts: seq<uint64>, i: nat): uint64
    requires i <= |amounts|
  {
    Wrap(Sum(amounts[..i]))
  }

  function EmittedTo(order: seq<Address>, amounts: seq<uint64>, i: nat, height: nat, hash: string): seq<Payment>
    requires i <= |order| == |amounts|
  {
    Emitted(order[..i], amounts[..i], height, hash)
  }

  lemma AmountAt(hs: seq<uint64>, reward: uint64, total: uint64, i: nat)
    requires total != 0 && i < |hs|
    ensures var amounts := Amounts(hs, reward, total);
            && amounts[i] == (if i == |hs| - 1 then Wrap(reward - Distributed(amounts, i))
                              else MachineShare(hs[i], reward, total))
            && Wrap(Distributed(amounts, i) + amounts[i]) == Distributed(amounts, i + 1)
  {
    var amounts := Amounts(hs, reward, total);
    var front := MachineShares(hs, reward, total)[..|hs| - 1];
    if i == |hs| - 1 {
      assert amounts[..i] == front;
      WrapSub(reward, Sum(front));
    }
    assert amounts[..i + 1] == amounts[..i] + [amounts[i]];
    SumAppend(amounts[..i], amounts[i]);
    WrapAdd(Sum(amounts[..i]), amounts[i]);
  }

  /** One visit of the loop. */
  lemma VisitStep(order: seq<Address>, hs: seq<uint64>, reward: uint64, total: uint64, i: nat,
                  distributed: uint64, amount: uint64, payments: seq<Payment>, height: nat, hash: string)
    requires total != 0 && i < |hs| == |order|
    requires var amounts := Amounts(hs, reward, total);
             distributed == Distributed(amounts, i) && payments == EmittedTo(order, amounts, i, height, hash)
    requires amount == if i == |hs| - 1 then Wrap(reward - distributed) else MachineShare(hs[i], reward, total)
    ensures var amounts := Amounts(hs, reward, total);
            && Wrap(distributed + amount) == Distributed(amounts, i + 1)
            && (amount == 0 ==> payments == EmittedTo(order, amounts, i + 1, height, hash))
            && (amount != 0 ==> payments + [Payment(order[i], amount, height, hash)]
                                == EmittedTo(order, amounts, i + 1, height, hash))
  {
    AmountAt(hs, reward, total, i);
    EmittedStep(order, Amounts(hs, reward, total), i, height, hash);
  }

  lemma EmittedStep(order: seq<Address>, amounts: seq<uint64>, i: nat, height: nat, hash: string)
    requires |order| == |amounts| && i < |order|
    ensures EmittedTo(order, amounts, i + 1, height, hash)
            == if amounts[i] == 0 then EmittedTo(order, amounts, i, height, hash)
               else EmittedTo(order, amounts, i, height, hash) + [Payment(order[i], amounts[i], height, hash)]
  {
    assert order[..i + 1][..i] == order[..i] && amounts[..i + 1][..i] == amounts[..i];
  }

  // ----- Conservation -----

  function Total(payments: seq<Payment>): nat {
    if payments == [] then 0 else Total(payments[..|payments| - 1]) + payments[|payments| - 1].amount
  }

  /** Skipping zero amounts skips no money, and keeps no empty payment. */
  lemma {:induction false} EmittedTotal(order: seq<Address>, amounts: seq<uint64>, height: nat, hash: string)
    requires |order| == |amounts|
    ensures Total(Emitted(order, amounts, height, hash)) == Sum(amounts)
    ensures forall p | p in Emitted(order, amounts, height, hash) ::
              p.amount != 0 && p.height == height && p.hash == hash
  {
    if order == [] {
    } else {
      var n := |order| - 1;
      EmittedTotal(order[..n], amounts[..n], height, hash);
      var front := Emitted(order[..n], amounts[..n], height, hash);
      var all := Emitted(order, amounts, height, hash);
      if amounts[n] != 0 {
        assert all[..|all| - 1] == front;
      } else {
        assert all == front;
      }
    }
  }

  /** Exactly the miners with a non-zero amount are paid, each once and its own
      amount, in the order they were visited. */
  lemma {:induction false} EmittedEach(order: seq<Address>, amounts: seq<uint64>, height: nat, hash: string)
    requires |order| == |amounts|
    ensures forall p :: p in Emitted(order, amounts, height, hash)
                        <==> exists i :: 0 <= i < |order| && IsPaid(order, amounts, i, height, hash, p)
    ensures Distinct(order) ==> DistinctMiners(Emitted(order, amounts, height, hash))
  {
    var all := Emitted(order, amounts, height, hash);
    if order == [] {
    } else {
      var n := |order| - 1;
      var front := Emitted(order[..n], amounts[..n], height, hash);
      EmittedEach(order[..n], amounts[..n], height, hash);
      forall i, p | 0 <= i < n
        ensures IsPaid(order[..n], amounts[..n], i, height, hash, p) == IsPaid(order, amounts, i, height, hash, p) {
      }
      forall p ensures p in all <==> exists i :: 0 <= i < |order| && IsPaid(order, amounts, i, height, hash, p) {
        if p in all && p !in front {
          assert IsPaid(order, amounts, n, height, hash, p);
        }
      }
      forall i, j | 0 <= i < j < |all| && Distinct(order) ensures all[i].miner != all[j].miner {
        assert all[i] in front;
      }
    }
  }

  predicate IsPaid(order: seq<Address>, amounts: seq<uint64>, i: nat, height: nat, hash: string, p: Payment)
    requires i < |order| == |amounts|
  {
    amounts[i] != 0 && p == Payment(order[i], amounts[i], height, hash)
  }

  ghost predicate DistinctMiners(payments: seq<Payment>) {
    forall i, j | 0 <= i < j < |payments| :: payments[i].miner != payments[j].miner
  }

  /** Whatever the numbers, the amounts add up to the reward modulo 2^64; over
      the integers they add up to it exactly when the shares of all but the
      last miner do not already exceed it. */
  lemma AmountsTotal(hs: seq<uint64>, reward: uint64, total: uint64)
    requires total != 0 && hs != []
    ensures Wrap(Sum(Amounts(hs, reward, total))) == reward
    ensures Sum(Amounts(hs, reward, total)) == reward
            <==> Sum(MachineShares(hs, reward, total)[..|hs| - 1]) <= reward
  {
    var front := MachineShares(hs, reward, total)[..|hs| - 1];
    RestTotal(front, reward);
  }

  lemma RestTotal(front: seq<uint64>, reward: uint64)
    ensures Wrap(Sum(front + [Wrap(reward - Sum(front))])) == reward
    ensures Sum(front + [Wrap(reward - Sum(front))]) == reward <==> Sum(front) <= reward
  {
    SumNonNegative(front);
    SumAppend(front, Wrap(reward - Sum(front)));
    RestCompletes(Sum(front), reward, Wrap(reward - Sum(front)));
  }

  lemma RestCompletes(sum: nat, reward: uint64, rest: uint64)
    requires rest == Wrap(reward - sum)
    ensures Wrap(sum + rest) == reward
    ensures sum + rest == reward <==> sum <= reward
  {
    WrapAdd(reward - sum, sum);
    WrapSmall(reward);
    if sum <= reward {
      WrapSmall(reward - sum);
    }
  }

  ghost predicate NoOverflow(hs: seq<uint64>, reward: uint64) {
    forall i | 0 <= i < |hs| :: hs[i] * reward < TWO64
  }

  /** What the division of each product leaves over. */
  function Remainders(hs: seq<uint64>, reward: uint64, total: uint64): (s: seq<nat>)
    requires total != 0
    ensures |s| == |hs|
  {
    seq(|hs|, i requires 0 <= i < |hs| => Remainder(hs[i], reward, total))
  }

  function Remainder(h: uint64, reward: uint64, total: uint64): (r: nat)
    requires total != 0
    ensures r < total
  {
    h * reward % total
  }

  lemma ShareAndRemainder(h: uint64, reward: uint64, total: uint64)
    requires total != 0
    ensures total * FairShare(h, reward, total) + Remainder(h, reward, total) == h * reward
  {
  }

  /** All shares together, times the total, miss the products by the remainders. */
  lemma {:induction false} SharesAndRemainders(hs: seq<uint64>, reward: uint64, total: uint64)
    requires total != 0
    ensures total * Sum(FairShares(hs, reward, total)) + Sum(Remainders(hs, reward, total)) == Sum(hs) * reward
  {
    var fair, rests := FairShares(hs, reward, total), Remainders(hs, reward, total);
    if hs == [] {
    } else {
      var n := |hs| - 1;
      SharesAndRemainders(hs[..n], reward, total);
      assert fair[..n] == FairShares(hs[..n], reward, total) && rests[..n] == Remainders(hs[..n], reward, total);
      ShareAndRemainder(hs[n], reward, total);
      MulDistributes(total, Sum(fair[..n]), fair[n]);
      MulDistributes(reward, Sum(hs[..n]), hs[n]);
    }
  }

  lemma {:induction false} SumBounded(s: seq<nat>, most: nat)
    requires forall i | 0 <= i < |s| :: s[i] <= most
    ensures 0 <= Sum(s) <= |s| * most
  {
    if s == [] {
    } else {
      SumBounded(s[..|s| - 1], most);
      MulDistributes(most, |s| - 1, 1);
    }
  }

  /** Floors lose something but at most total-1 per miner, before division. */
  lemma FairShareSums(hs: seq<uint64>, reward: uint64, total: uint64)
    requires total != 0
    ensures total * Sum(FairShares(hs, reward, total)) <= Sum(hs) * reward
    ensures Sum(hs) * reward - |hs| * (total - 1) <= total * Sum(FairShares(hs, reward, total))
  {
    SharesAndRemainders(hs, reward, total);
    SumBounded(Remainders(hs, reward, total), total - 1);
  }

  /** Dividing the two bounds by the total. */
  lemma CancelUpper(total: nat, floors: int, reward: int)
    requires 0 < total && total * floors <= total * reward
    ensures floors <= reward
  {
    if reward < floors {
      MulMonotone(total, reward + 1, floors);
      MulDistributes(total, reward, 1);
    }
  }

  lemma CancelLower(total: nat, floors: int, reward: int, n: nat)
    requires 0 < total && 0 < n && total * reward - n * (total - 1) <= total * floors
    ensures reward - floors <= n - 1
  {
    if floors + n <= reward {
      MulMonotone(total, floors + n, reward);
      MulDistributes(total, floors, n);
      MulDistributes(n, total - 1, 1);
      Commutes(total, n);
    }
  }

  lemma Commutes(x: int, y: int)
    ensures x * y == y * x
  {
  }

  /** What the floors leave undistributed. */
  function Dust(hs: seq<uint64>, reward: uint64, total: uint64): int
    requires total != 0
  {
    reward - Sum(FairShares(hs, reward, total))
  }

  lemma DustBounds(hs: seq<uint64>, reward: uint64, total: uint64)
    requires total != 0 && hs != []
    ensures Sum(hs) <= total ==> 0 <= Dust(hs, reward, total)
    ensures Sum(hs) == total ==> Dust(hs, reward, total) <= |hs| - 1
  {
    FairShareSums(hs, reward, total);
    var floors, rates := Sum(FairShares(hs, reward, total)), Sum(hs);
    if rates <= total {
      MulMonotone(reward, rates, total);
      Commutes(reward, rates);
      Commutes(reward, total);
      CancelUpper(total, floors, reward);
    }
    if rates == total {
      CancelLower(total, floors, reward, |hs|);
    }
  }

  lemma SharesAgree(hs: seq<uint64>, reward: uint64, total: uint64)
    requires total != 0 && NoOverflow(hs, reward)
    ensures MachineShares(hs, reward, total) == FairShares(hs, reward, total)
  {
    forall i | 0 <= i < |hs| ensures MachineShare(hs[i], reward, total) == FairShare(hs[i], reward, total) {
      ShareAgrees(hs[i], reward, total);
    }
  }

  lemma ShareAgrees(h: uint64, reward: uint64, total: uint64)
    requires total != 0 && h * reward < TWO64
    ensures MachineShare(h, reward, total) == FairShare(h, reward, total)
  {
    ProductNonNegative(h, reward);
    WrapSmall(h * reward);
  }

  lemma WrapSmall(x: int)
    requires 0 <= x < TWO64
    ensures Wrap(x) == x
  {
  }

  lemma WrapDrops(x: int)
    requires TWO64 <= x
    ensures Wrap(x) <= x - TWO64
  {
  }

  /** Losing at least 2^64 before the division loses at least one unit after it. */
  lemma QuotientDrops(x: nat, total: nat)
    requires TWO64 <= x && 0 < total < TWO64
    ensures Wrap(x) / total < x / total
  {
    WrapDrops(x);
    var small, large := Wrap(x) / total, x / total;
    if large <= small {
      MulMonotone(total, large + 1, small + 1);
      MulDistributes(total, small, 1);
      MulDistributes(total, large, 1);
    }
  }

  /** A share is computed exactly when its product fits 64 bits; otherwise it
      always comes out too small. */
  lemma ShareExact(h: uint64, reward: uint64, total: uint64)
    requires total != 0
    ensures MachineShare(h, reward, total) == FairShare(h, reward, total) <==> h * reward < TWO64
    ensures MachineShare(h, reward, total) <= FairShare(h, reward, total)
  {
    var x: nat := h * reward;
    if x < TWO64 {
      WrapSmall(x);
    } else {
      QuotientDrops(x, total);
    }
  }

  /** Without overflow, every miner but the last gets exactly its floor, and the
      last gets its floor plus all the dust. */
  lemma AmountsAreFair(hs: seq<uint64>, reward: uint64, total: uint64)
    requires total != 0 && hs != []
    requires NoOverflow(hs[..|hs| - 1], reward) && Sum(hs) <= total
    ensures forall i | 0 <= i < |hs| - 1 ::
              Amounts(hs, reward, total)[i] == FairShare(hs[i], reward, total)
    ensures Amounts(hs, reward, total)[|hs| - 1]
            == FairShare(hs[|hs| - 1], reward, total) + Dust(hs, reward, total)
  {
    FrontIsFair(hs, reward, total);
    AmountsAreFloors(hs, reward, total);
    FloorsAt(hs, reward, total, Amounts(hs, reward, total));
  }

  lemma FloorsAt(hs: seq<uint64>, reward: uint64, total: uint64, amounts: seq<uint64>)
    requires total != 0 && hs != []
    requires var fair := FairShares(hs, reward, total);
             amounts == fair[..|hs| - 1] + [fair[|hs| - 1] + Dust(hs, reward, total)]
    ensures forall i | 0 <= i < |hs| - 1 :: amounts[i] == FairShare(hs[i], reward, total)
    ensures amounts[|hs| - 1] == FairShare(hs[|hs| - 1], reward, total) + Dust(hs, reward, total)
  {
  }

  lemma AmountsAreFloors(hs: seq<uint64>, reward: uint64, total: uint64)
    requires total != 0 && hs != [] && Sum(hs) <= total
    requires MachineShares(hs, reward, total)[..|hs| - 1] == FairShares(hs, reward, total)[..|hs| - 1]
    ensures var fair := FairShares(hs, reward, total);
            Amounts(hs, reward, total)
            == fair[..|hs| - 1] + [fair[|hs| - 1] + Dust(hs, reward, total)]
  {
    DustBounds(hs, reward, total);
    RestIsLast(hs, reward, total, FairShares(hs, reward, total));
  }

  lemma RestIsLast(hs: seq<uint64>, reward: uint64, total: uint64, fair: seq<nat>)
    requires total != 0 && hs != [] && |fair| == |hs|
    requires MachineShares(hs, reward, total)[..|hs| - 1] == fair[..|hs| - 1] && Sum(fair) <= reward
    ensures Amounts(hs, reward, total) == fair[..|hs| - 1] + [fair[|hs| - 1] + (reward - Sum(fair))]
  {
    LastIsRest(fair, reward);
  }

  /** The remainder is the last floor and the dust, without wrap-around. */
  lemma LastIsRest(fair: seq<nat>, reward: uint64)
    requires fair != [] && Sum(fair) <= reward
    ensures Wrap(reward - Sum(fair[..|fair| - 1])) == fair[|fair| - 1] + (reward - Sum(fair))
  {
    SumNonNegative(fair[..|fair| - 1]);
    WrapSmall(reward - Sum(fair[..|fair| - 1]));
  }

  lemma FrontIsFair(hs: seq<uint64>, reward: uint64, total: uint64)
    requires total != 0 && hs != [] && NoOverflow(hs[..|hs| - 1], reward)
    ensures MachineShares(hs, reward, total)[..|hs| - 1] == FairShares(hs, reward, total)[..|hs| - 1]
  {
    var n := |hs| - 1;
    SharesAgree(hs[..n], reward, total);
    assert MachineShares(hs, reward, total)[..n] == MachineShares(hs[..n], reward, total);
    assert FairShares(hs, reward, total)[..n] == FairShares(hs[..n], reward, total);
  }

  /** The products the loop computes, all but the last miner's, fit 64 bits. */
  ghost predicate LoopFits(order: seq<Address>, miners: map<Address, uint64>, reward: uint64)
    requires forall a | a in order :: a in miners
  {
    order == [] || NoOverflow(Hashrates(order, miners)[..|order| - 1], reward)
  }

  /** Payout conservation: for any non-empty miner map and any iteration order,
      the emitted payments add up to the reward; only the last miner visited
      may get more than its floor. */
  lemma PayoutConserves(order: seq<Address>, miners: map<Address, uint64>, reward: uint64, total: uint64,
                        height: nat, hash: string)
    requires IsOrder(order, miners.Keys) && miners != map[] && total != 0
    requires LoopFits(order, miners, reward) && Sum(Hashrates(order, miners)) <= total
    ensures Total(PaymentsFor(order, miners, reward, total, height, hash)) == reward
    ensures forall i | 0 <= i < |order| - 1 ::
              Amounts(Hashrates(order, miners), reward, total)[i] == FairShare(miners[order[i]], reward, total)
    ensures order != [] &&
            Amounts(Hashrates(order, miners), reward, total)[|order| - 1]
            >= FairShare(miners[order[|order| - 1]], reward, total)
  {
    var hs := Hashrates(order, miners);
    NonEmptyOrder(order, miners);
    AmountsAreFair(hs, reward, total);
    DustBounds(hs, reward, total);
    FrontIsFair(hs, reward, total);
    AmountsTotal(hs, reward, total);
    EmittedTotal(order, Amounts(hs, reward, total), height, hash);
  }

  /** The split in plain numbers: each miner visited, but the last, gets its
      hashrate times the reward over the pool total, rounded down, and nothing
      when that is zero; nobody gets two payments. */
  lemma EachGetsItsShare(order: seq<Address>, miners: map<Address, uint64>, reward: uint64, total: uint64,
                         height: nat, hash: string, i: nat)
    requires IsOrder(order, miners.Keys) && total != 0
    requires LoopFits(order, miners, reward) && Sum(Hashrates(order, miners)) <= total
    requires i < |order| - 1
    ensures var payments := PaymentsFor(order, miners, reward, total, height, hash);
            && DistinctMiners(payments)
            && (forall p | p in payments && p.miner == order[i] :: p.amount == miners[order[i]] * reward / total)
            && (miners[order[i]] * reward / total != 0 <==> exists p :: p in payments && p.miner == order[i])
  {
    var hs := Hashrates(order, miners);
    var amounts := Amounts(hs, reward, total);
    AmountsAreFair(hs, reward, total);
    EmittedEach(order, amounts, height, hash);
    OnlyOwnAmount(order, amounts, height, hash, i);
    assert amounts[i] == FairShare(hs[i], reward, total);
  }

  lemma OnlyOwnAmount(order: seq<Address>, amounts: seq<uint64>, height: nat, hash: string, i: nat)
    requires |order| == |amounts| && Distinct(order) && i < |order|
    ensures forall p | p in Emitted(order, amounts, height, hash) && p.miner == order[i] :: p.amount == amounts[i]
    ensures amounts[i] != 0 <==> exists p :: p in Emitted(order, amounts, height, hash) && p.miner == order[i]
  {
    EmittedEach(order, amounts, height, hash);
    forall p | p in Emitted(order, amounts, height, hash) && p.miner == order[i]
      ensures p.amount == amounts[i] && amounts[i] != 0 {
      var j :| 0 <= j < |order| && IsPaid(order, amounts, j, height, hash, p);
      assert j == i;
    }
    if amounts[i] != 0 {
      assert IsPaid(order, amounts, i, height, hash, Payment(order[i], amounts[i], height, hash));
    }
  }

  lemma NonEmptyOrder(order: seq<Address>, miners: map<Address, uint64>)
    requires IsOrder(order, miners.Keys) && miners != map[]
    ensures order != []
  {
    OrderLength(order, miners.Keys);
  }

  /** A reward that was never backfilled pays nobody. */
  lemma {:induction false} NoRewardNoPayments(order: seq<Address>, miners: map<Address, uint64>, total: uint64,
                                              height: nat, hash: string)
    requires forall a | a in order :: a in miners
    ensures PaymentsFor(order, miners, 0, total, height, hash) == []
  {
    if total != 0 && order != [] {
      var amounts := Amounts(Hashrates(order, miners), 0, total);
      var front := amounts[..|order| - 1];
      AllZeroSum(front);
      AllZeroEmitted(order, amounts, height, hash);
    }
  }

  lemma {:induction false} AllZeroSum(s: seq<int>)
    requires forall i | 0 <= i < |s| :: s[i] == 0
    ensures Sum(s) == 0
  {
    if s == [] {
    } else {
      AllZeroSum(s[..|s| - 1]);
    }
  }

  lemma {:induction false} AllZeroEmitted(order: seq<Address>, amounts: seq<uint64>, height: nat, hash: string)
    requires |order| == |amounts| && forall i | 0 <= i < |amounts| :: amounts[i] == 0
    ensures Emitted(order, amounts, height, hash) == []
  {
    if order == [] {
    } else {
      AllZeroEmitted(order[..|order| - 1], amounts[..|order| - 1], height, hash);
    }
  }

  /** Nobody is paid exactly when the pool total or the reward is zero or there
      are no miners: the shares may overflow, but they cannot all vanish. */
  lemma NobodyPaid(order: seq<Address>, miners: map<Address, uint64>, reward: uint64, total: uint64,
                   height: nat, hash: string)
    requires IsOrder(order, miners.Keys)
    ensures PaymentsFor(order, miners, reward, total, height, hash) == []
            <==> total == 0 || reward == 0 || miners == map[]
  {
    OrderLength(order, miners.Keys);
    if reward == 0 {
      NoRewardNoPayments(order, miners, total, height, hash);
    } else if total != 0 && order != [] {
      var amounts := Amounts(Hashrates(order, miners), reward, total);
      AmountsTotal(Hashrates(order, miners), reward, total);
      EmittedTotal(order, amounts, height, hash);
      WrapSmall(0);
    }
  }

  // ----- Against the remainder-free reference of the test suite -----

  /** The remainder-free reference: everyone gets the floor. */
  function ReferencePayments(order: seq<Address>, miners: map<Address, uint64>, reward: uint64, total: uint64,
                             height: nat, hash: string): seq<Payment>
    requires forall a | a in order :: a in miners
  {
    if total == 0 then []
    else Emitted(order, MachineShares(Hashrates(order, miners), reward, total), height, hash)
  }

  lemma {:induction false} ZeroSum(s: seq<nat>)
    requires Sum(s) == 0
    ensures forall i | 0 <= i < |s| :: s[i] == 0
  {
    if s == [] {
    } else {
      SumNonNegative(s[..|s| - 1]);
      ZeroSum(s[..|s| - 1]);
    }
  }

  lemma CancelEqual(c: nat, x: int, y: int)
    requires 0 < c && c * x == c * y
    ensures x == y
  {
    CancelUpper(c, x, y);
    CancelUpper(c, y, x);
  }

  /** There is no dust exactly when the miners make up the whole pool and every
      product divides evenly. */
  lemma DustFree(hs: seq<uint64>, reward: uint64, total: uint64)
    requires total != 0 && reward != 0 && Sum(hs) <= total
    ensures Dust(hs, reward, total) == 0
            <==> Sum(hs) == total && forall i | 0 <= i < |hs| :: Remainder(hs[i], reward, total) == 0
  {
    var fair, rests, rates := Sum(FairShares(hs, reward, total)), Remainders(hs, reward, total), Sum(hs);
    SharesAndRemainders(hs, reward, total);
    SumNonNegative(rests);
    if fair == reward {
      MulMonotone(reward, rates, total);
      Commutes(reward, rates);
      Commutes(reward, total);
      ZeroSum(rests);
      assert forall i | 0 <= i < |hs| :: rests[i] == Remainder(hs[i], reward, total);
      CancelEqual(reward, rates, total);
    } else if forall i | 0 <= i < |hs| :: Remainder(hs[i], reward, total) == 0 {
      AllZeroSum(rests);
      if rates == total {
        CancelEqual(total, fair, reward);
      }
    }
  }

  /** The lists begin alike and differ at most in the last miner's payment,
      which the first makes larger by `more`. */
  ghost predicate DifferAtLast(ps: seq<Payment>, rs: seq<Payment>, last: Address, more: int, height: nat, hash: string)
  {
    exists same, got: uint64, share: uint64 ::
      && got == share + more
      && ps == same + Kept(last, got, height, hash) && rs == same + Kept(last, share, height, hash)
  }

  /** The production loop differs from the reference only at the last miner
      visited, by the dust; the two agree exactly when there is no reward, or the
      miners make up the whole pool and every product divides evenly. */
  lemma AgreesWithReference(order: seq<Address>, miners: map<Address, uint64>, reward: uint64, total: uint64,
                            height: nat, hash: string)
    requires IsOrder(order, miners.Keys) && miners != map[] && total != 0
    requires NoOverflow(Hashrates(order, miners), reward) && Sum(Hashrates(order, miners)) <= total
    ensures PaymentsFor(order, miners, reward, total, height, hash)
            == ReferencePayments(order, miners, reward, total, height, hash)
            <==> reward == 0 || EvenlyShared(order, miners, reward, total)
    ensures order != [] &&
            DifferAtLast(PaymentsFor(order, miners, reward, total, height, hash),
                         ReferencePayments(order, miners, reward, total, height, hash),
                         order[|order| - 1], Dust(Hashrates(order, miners), reward, total), height, hash)
    ensures Total(PaymentsFor(order, miners, reward, total, height, hash))
            - Total(ReferencePayments(order, miners, reward, total, height, hash))
            == Dust(Hashrates(order, miners), reward, total)
  {
    var hs := Hashrates(order, miners);
    NonEmptyOrder(order, miners);
    SharesAgree(hs, reward, total);
    EmittedDiffer(order, hs, reward, total, height, hash);
    DustFreeMiners(order, miners, reward, total);
  }

  /** The miners are the whole pool, and the division leaves nothing over. */
  ghost predicate EvenlyShared(order: seq<Address>, miners: map<Address, uint64>, reward: uint64, total: uint64)
    requires total != 0 && forall a | a in order :: a in miners
  {
    Sum(Hashrates(order, miners)) == total && forall a | a in miners :: Remainder(miners[a], reward, total) == 0
  }

  lemma DustFreeMiners(order: seq<Address>, miners: map<Address, uint64>, reward: uint64, total: uint64)
    requires IsOrder(order, miners.Keys) && total != 0 && Sum(Hashrates(order, miners)) <= total
    ensures Dust(Hashrates(order, miners), reward, total) == 0
            <==> reward == 0 || EvenlyShared(order, miners, reward, total)
  {
    var hs := Hashrates(order, miners);
    if reward == 0 {
      AllZeroSum(FairShares(hs, reward, total));
    } else {
      DustFree(hs, reward, total);
      forall a | a in miners ensures exists i :: 0 <= i < |hs| && hs[i] == miners[a] && order[i] == a {
        assert a in order;
        var i :| 0 <= i < |order| && order[i] == a;
        assert hs[i] == miners[a];
      }
    }
  }

  lemma EmittedDiffer(order: seq<Address>, hs: seq<uint64>, reward: uint64, total: uint64, height: nat, hash: string)
    requires |order| == |hs| && hs != [] && total != 0 && Sum(hs) <= total
    requires MachineShares(hs, reward, total) == FairShares(hs, reward, total)
    ensures var ps := Emitted(order, Amounts(hs, reward, total), height, hash);
            var rs := Emitted(order, MachineShares(hs, reward, total), height, hash);
            var dust := Dust(hs, reward, total);
            && (ps == rs <==> dust == 0)
            && DifferAtLast(ps, rs, order[|order| - 1], dust, height, hash)
            && Total(ps) - Total(rs) == dust
  {
    var n := |hs| - 1;
    var amounts, shares := Amounts(hs, reward, total), MachineShares(hs, reward, total);
    AmountsAreFloors(hs, reward, total);
    assert amounts[n] == shares[n] + Dust(hs, reward, total) && amounts[..n] == shares[..n];
    EmittedTotal(order, amounts, height, hash);
    EmittedTotal(order, shares, height, hash);
    var same := Emitted(order[..n], shares[..n], height, hash);
    assert Emitted(order, amounts, height, hash) == same + Kept(order[n], amounts[n], height, hash);
    assert Emitted(order, shares, height, hash) == same + Kept(order[n], shares[n], height, hash);
  }

  /** A lone miner with 162 H/s of a 5 MH/s pool: its share is 19440000 atomic
      units, the loop gives it the whole reward. */
  lemma LoneMinerTakesAll()
    ensures var miners: map<Address, uint64> := map["4addr_local" := 162];
            && PaymentsFor(["4addr_local"], miners, 600_000_000_000, 5_000_000, 1, "h")
               == [Payment("4addr_local", 600_000_000_000, 1, "h")]
            && ReferencePayments(["4addr_local"], miners, 600_000_000_000, 5_000_000, 1, "h")
               == [Payment("4addr_local", 19_440_000, 1, "h")]
  {
    var miners: map<Address, uint64> := map["4addr_local" := 162];
    var order := ["4addr_local"];
    var hs := Hashrates(order, miners);
    assert hs == [162];
    var amounts := Amounts(hs, 600_000_000_000, 5_000_000);
    assert MachineShares(hs, 600_000_000_000, 5_000_000)[..0] == [];
    assert amounts == [600_000_000_000];
    assert MachineShares(hs, 600_000_000_000, 5_000_000) == [19_440_000];
    assert order[..0] == [];
  }

  // ----- Order-insensitivity -----

  function RateOf(miners: map<Address, uint64>): Address -> int {
    (a: Address) => if a in miners then miners[a] else 0
  }

  lemma {:induction false} HashrateSum(order: seq<Address>, miners: map<Address, uint64>)
    requires forall a | a in order :: a in miners
    ensures Sum(Hashrates(order, miners)) == SumOf(RateOf(miners), order)
  {
    if order == [] {
    } else {
      var n := |order| - 1;
      HashrateSum(order[..n], miners);
      assert Hashrates(order, miners)[..n] == Hashrates(order[..n], miners);
    }
  }

  lemma HashrateSumIgnoresOrder(o1: seq<Address>, o2: seq<Address>, miners: map<Address, uint64>, keys: set<Address>)
    requires keys <= miners.Keys && IsOrder(o1, keys) && IsOrder(o2, keys)
    ensures |o1| == |o2|
    ensures Sum(Hashrates(o1, miners)) == Sum(Hashrates(o2, miners))
  {
    OrderLength(o1, keys);
    OrderLength(o2, keys);
    DistinctSame(o1, o2);
    HashrateSum(o1, miners);
    HashrateSum(o2, miners);
    SumOfPermutes(RateOf(miners), o1, o2);
  }

  lemma NoOverflowIgnoresOrder(o1: seq<Address>, o2: seq<Address>, miners: map<Address, uint64>, reward: uint64)
    requires IsOrder(o1, miners.Keys) && IsOrder(o2, miners.Keys)
    requires NoOverflow(Hashrates(o1, miners), reward)
    ensures NoOverflow(Hashrates(o2, miners), reward)
  {
    var h1, h2 := Hashrates(o1, miners), Hashrates(o2, miners);
    forall q | 0 <= q < |h2| ensures h2[q] * reward < TWO64 {
      assert o2[q] in o1;
      var p :| 0 <= p < |o1| && o1[p] == o2[q];
      assert h1[p] == h2[q];
    }
  }

  /** The dust does not depend on the order either. */
  lemma DustIgnoresOrder(o1: seq<Address>, o2: seq<Address>, miners: map<Address, uint64>,
                         reward: uint64, total: uint64)
    requires IsOrder(o1, miners.Keys) && IsOrder(o2, miners.Keys) && total != 0
    requires NoOverflow(Hashrates(o1, miners), reward)
    ensures Dust(Hashrates(o1, miners), reward, total) == Dust(Hashrates(o2, miners), reward, total)
  {
    var shares := map a | a in miners :: MachineShare(miners[a], reward, total);
    NoOverflowIgnoresOrder(o1, o2, miners, reward);
    SharesAgree(Hashrates(o1, miners), reward, total);
    SharesAgree(Hashrates(o2, miners), reward, total);
    HashrateSumIgnoresOrder(o1, o2, shares, miners.Keys);
    assert Hashrates(o1, shares) == MachineShares(Hashrates(o1, miners), reward, total);
    assert Hashrates(o2, shares) == MachineShares(Hashrates(o2, miners), reward, total);
  }

  function AmountOf(order: seq<Address>, miners: map<Address, uint64>, reward: uint64, total: uint64, i: nat): uint64
    requires total != 0 && i < |order| && forall a | a in order :: a in miners
  {
    Amounts(Hashrates(order, miners), reward, total)[i]
  }

  /** What the last miner visited gets on top of its share. */
  function Extra(order: seq<Address>, i: nat, dust: int): int {
    if i == |order| - 1 then dust else 0
  }

  /** Two iteration orders differ by the dust for the two miners visited last, and
      not at all for the others. When the pool total is the sum of the miners,
      that is at most n-1 atomic units. */
  lemma PayoutIgnoresOrder(o1: seq<Address>, o2: seq<Address>, miners: map<Address, uint64>,
                           reward: uint64, total: uint64, i: nat, j: nat)
    requires IsOrder(o1, miners.Keys) && IsOrder(o2, miners.Keys) && total != 0
    requires NoOverflow(Hashrates(o1, miners), reward)
    requires Sum(Hashrates(o1, miners)) <= total
    requires i < |o1| && j < |o2| && o1[i] == o2[j]
    ensures var dust := Dust(Hashrates(o1, miners), reward, total);
            AmountOf(o1, miners, reward, total, i) - AmountOf(o2, miners, reward, total, j)
            == Extra(o1, i, dust) - Extra(o2, j, dust)
    ensures Sum(Hashrates(o1, miners)) == total ==>
              -(|miners| - 1)
              <= AmountOf(o1, miners, reward, total, i) - AmountOf(o2, miners, reward, total, j)
              <= |miners| - 1
  {
    HashrateSumIgnoresOrder(o1, o2, miners, miners.Keys);
    DustIgnoresOrder(o1, o2, miners, reward, total);
    NoOverflowIgnoresOrder(o1, o2, miners, reward);
    OrderLength(o1, miners.Keys);
    AmountIs(o1, miners, reward, total, i);
    AmountIs(o2, miners, reward, total, j);
    DustBounds(Hashrates(o1, miners), reward, total);
  }

  lemma AmountIs(order: seq<Address>, miners: map<Address, uint64>, reward: uint64, total: uint64, i: nat)
    requires IsOrder(order, miners.Keys) && total != 0 && i < |order|
    requires NoOverflow(Hashrates(order, miners), reward) && Sum(Hashrates(order, miners)) <= total
    ensures AmountOf(order, miners, reward, total, i)
            == FairShare(miners[order[i]], reward, total)
               + Extra(order, i, Dust(Hashrates(order, miners), reward, total))
  {
    AmountsAreFair(Hashrates(order, miners), reward, total);
  }

  ghost predicate SameAmounts(o1: seq<Address>, o2: seq<Address>, miners: map<Address, uint64>,
                              reward: uint64, total: uint64)
    requires total != 0 && (forall a | a in o1 :: a in miners) && forall a | a in o2 :: a in miners
  {
    forall i: nat, j: nat | i < |o1| && j < |o2| && o1[i] == o2[j] ::
      AmountOf(o1, miners, reward, total, i) == AmountOf(o2, miners, reward, total, j)
  }

  /** Two iteration orders give everyone the same exactly when they end with the
      same miner, or there is no reward, or the miners are the whole pool and the
      division leaves nothing over. */
  lemma SamePayout(o1: seq<Address>, o2: seq<Address>, miners: map<Address, uint64>, reward: uint64, total: uint64)
    requires IsOrder(o1, miners.Keys) && IsOrder(o2, miners.Keys) && total != 0 && miners != map[]
    requires NoOverflow(Hashrates(o1, miners), reward)
    requires Sum(Hashrates(o1, miners)) <= total
    ensures o1 != [] && o2 != []
    ensures SameAmounts(o1, o2, miners, reward, total)
            <==> o1[|o1| - 1] == o2[|o2| - 1] || reward == 0 || EvenlyShared(o1, miners, reward, total)
  {
    NonEmptyOrder(o1, miners);
    NonEmptyOrder(o2, miners);
    DustFreeMiners(o1, miners, reward, total);
    SameAmountsNoDust(o1, o2, miners, reward, total);
    NoDustSameAmounts(o1, o2, miners, reward, total);
  }

  lemma SameAmountsNoDust(o1: seq<Address>, o2: seq<Address>, miners: map<Address, uint64>,
                          reward: uint64, total: uint64)
    requires IsOrder(o1, miners.Keys) && IsOrder(o2, miners.Keys) && total != 0 && o1 != [] && o2 != []
    requires NoOverflow(Hashrates(o1, miners), reward)
    requires Sum(Hashrates(o1, miners)) <= total
    ensures SameAmounts(o1, o2, miners, reward, total) ==>
              o1[|o1| - 1] == o2[|o2| - 1] || Dust(Hashrates(o1, miners), reward, total) == 0
  {
    var m := |o1| - 1;
    assert o1[m] in o2;
    var j: nat :| j < |o2| && o2[j] == o1[m];
    PayoutIgnoresOrder(o1, o2, miners, reward, total, m, j);
  }

  lemma NoDustSameAmounts(o1: seq<Address>, o2: seq<Address>, miners: map<Address, uint64>,
                          reward: uint64, total: uint64)
    requires IsOrder(o1, miners.Keys) && IsOrder(o2, miners.Keys) && total != 0 && o1 != [] && o2 != []
    requires NoOverflow(Hashrates(o1, miners), reward)
    requires Sum(Hashrates(o1, miners)) <= total
    ensures o1[|o1| - 1] == o2[|o2| - 1] || Dust(Hashrates(o1, miners), reward, total) == 0 ==>
              SameAmounts(o1, o2, miners, reward, total)
  {
    if o1[|o1| - 1] == o2[|o2| - 1] || Dust(Hashrates(o1, miners), reward, total) == 0 {
      forall i: nat, j: nat | i < |o1| && j < |o2| && o1[i] == o2[j]
        ensures AmountOf(o1, miners, reward, total, i) == AmountOf(o2, miners, reward, total, j)
      {
        PayoutIgnoresOrder(o1, o2, miners, reward, total, i, j);
        if o1[|o1| - 1] == o2[|o2| - 1] {
          SameLast(o1, o2, i, j);
        }
      }
    }
  }

  lemma SameLast(o1: seq<Address>, o2: seq<Address>, i: nat, j: nat)
    requires Distinct(o1) && Distinct(o2) && i < |o1| && j < |o2| && o1[i] == o2[j]
    requires o1[|o1| - 1] == o2[|o2| - 1]
    ensures i == |o1| - 1 <==> j == |o2| - 1
  {
  }
}
