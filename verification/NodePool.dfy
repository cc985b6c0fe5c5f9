/** The least-loaded node allocator (services/manager/internal/nodepool/pool.go). */
module NodePool {
  import opened Prelude

  datatype Node = Node(sidechain: string, running: bool, subscribers: int)

  type Nodes = map<nat, Node>

  /** The nodes an assignment for a sidechain chooses from. */
  function Eligible(nodes: Nodes, sidechain: string): set<nat> {
    set id | id in nodes && nodes[id].sidechain == sidechain && nodes[id].running
  }

  /** No node of the set has fewer subscribers; ties are broken in any way. */
  ghost predicate IsLeastOf(nodes: Nodes, ids: set<nat>, id: nat)
    requires ids <= nodes.Keys
  {
    id in ids && forall other | other in ids :: nodes[id].subscribers <= nodes[other].subscribers
  }

  ghost predicate IsLeastLoaded(nodes: Nodes, sidechain: string, id: nat) {
    IsLeastOf(nodes, Eligible(nodes, sidechain), id)
  }

  function Increment(nodes: Nodes, id: nat): Nodes
    requires id in nodes
  {
    nodes[id := nodes[id].(subscribers := nodes[id].subscribers + 1)]
  }

  class Pool {
    var nodes: Nodes

    constructor (nodes: Nodes)
      ensures this.nodes == nodes
    {
      this.nodes := nodes;
    }

    /** Skips the rows other transactions hold; None when no other node of the
        sidechain is running. */
    method AssignNode(sidechain: string, locked: set<nat>) returns (id: Option<nat>)
      modifies this
      ensures id.None? <==>
                forall n | n in old(nodes) && n !in locked ::
                  !(old(nodes)[n].sidechain == sidechain && old(nodes)[n].running)
      ensures id.Some? ==>
                && id.value in old(nodes) && id.value !in locked
                && old(nodes)[id.value].sidechain == sidechain && old(nodes)[id.value].running
      ensures id.None? ==> nodes == old(nodes)
      ensures id.Some? ==> IsLeastOf(old(nodes), Eligible(old(nodes), sidechain) - locked, id.value)
                           && nodes == Increment(old(nodes), id.value)
      ensures locked == {} && id.Some? ==> IsLeastLoaded(old(nodes), sidechain, id.value)
    {
      var free := Eligible(nodes, sidechain) - locked;
      if free == {} {
        assert forall n | n in Eligible(nodes, sidechain) && n !in locked :: n in free;
        return None;
      }
      var best :| best in free;
      var rest := free - {best};
      while rest != {}
        invariant best in free && rest <= free
        invariant forall other | other in free - rest :: nodes[best].subscribers <= nodes[other].subscribers
      {
        var other :| other in rest;
        if nodes[other].subscribers < nodes[best].subscribers {
          best := other;
        }
        rest := rest - {other};
      }
      nodes := Increment(nodes, best);
      id := Some(best);
    }
  }

  // ----- Runs of serial assignments -----

  ghost predicate IsRun(nodes: Nodes, sidechain: string, ids: seq<nat>)
    decreases |ids|, 0
  {
    ids == [] ||
    var n := |ids| - 1;
    IsRun(nodes, sidechain, ids[..n]) && IsLeastLoaded(Run(nodes, sidechain, ids[..n]), sidechain, ids[n])
  }

  ghost function Run(nodes: Nodes, sidechain: string, ids: seq<nat>): Nodes
    requires IsRun(nodes, sidechain, ids)
    decreases |ids|, 1
  {
    if ids == [] then nodes else Increment(Run(nodes, sidechain, ids[..|ids| - 1]), ids[|ids| - 1])
  }

  /** The eligible nodes with exactly v subscribers. */
  function With(nodes: Nodes, eligible: set<nat>, v: int): set<nat> {
    set id | id in eligible && id in nodes && nodes[id].subscribers == v
  }

  /** q full rounds and r more: every eligible node has q or q+1 new subscribers,
      and exactly r of them have q+1; nothing else changed. */
  ghost predicate Level(nodes: Nodes, now: Nodes, sidechain: string, start: int, q: nat, r: nat) {
    var eligible := Eligible(nodes, sidechain);
    && now.Keys == nodes.Keys
    && (forall id | id in eligible :: start + q <= now[id].subscribers <= start + q + 1)
    && |With(now, eligible, start + q + 1)| == r && r < |eligible|
    && (forall id | id in nodes :: id !in eligible ==> now[id] == nodes[id])
    && (forall id | id in nodes :: now[id].(subscribers := 0) == nodes[id].(subscribers := 0))
  }

  lemma SameEligible(nodes: Nodes, now: Nodes, sidechain: string)
    requires now.Keys == nodes.Keys
    requires forall id | id in nodes :: now[id].(subscribers := 0) == nodes[id].(subscribers := 0)
    ensures Eligible(now, sidechain) == Eligible(nodes, sidechain)
  {
    forall id | id in nodes ensures now[id].sidechain == nodes[id].sidechain && now[id].running == nodes[id].running {
      assert now[id].(subscribers := 0) == nodes[id].(subscribers := 0);
    }
  }

  /** A least loaded node is low while not all nodes are high. */
  lemma LeastIsLow(nodes: Nodes, now: Nodes, sidechain: string, start: int, q: nat, r: nat, id: nat)
    requires Level(nodes, now, sidechain, start, q, r) && IsLeastLoaded(now, sidechain, id)
    ensures id in Eligible(nodes, sidechain) && now[id].subscribers == start + q
  {
    SameEligible(nodes, now, sidechain);
    var eligible := Eligible(nodes, sidechain);
    var high := With(now, eligible, start + q + 1);
    assert high <= eligible && high != eligible;
    var x :| x in eligible && x !in high;
    assert now[id].subscribers <= now[x].subscribers;
  }

  lemma LevelStep(nodes: Nodes, now: Nodes, sidechain: string, start: int, q: nat, r: nat, id: nat)
    requires Level(nodes, now, sidechain, start, q, r) && IsLeastLoaded(now, sidechain, id)
    ensures if r + 1 == |Eligible(nodes, sidechain)| then Level(nodes, Increment(now, id), sidechain, start, q + 1, 0)
            else Level(nodes, Increment(now, id), sidechain, start, q, r + 1)
  {
    LeastIsLow(nodes, now, sidechain, start, q, r, id);
    var eligible := Eligible(nodes, sidechain);
    var now' := Increment(now, id);
    assert With(now', eligible, start + q + 1) == With(now, eligible, start + q + 1) + {id};
    if r + 1 == |eligible| {
      FullSet(With(now', eligible, start + q + 1), eligible);
      assert With(now', eligible, start + (q + 1) + 1) == {};
    }
  }

  lemma FullSet(part: set<nat>, whole: set<nat>)
    requires part <= whole && |part| == |whole|
    ensures part == whole
  {
    assert whole == part + (whole - part);
  }

  lemma {:induction false} LevelAfter(nodes: Nodes, sidechain: string, start: int, ids: seq<nat>)
    returns (q: nat, r: nat)
    requires Eligible(nodes, sidechain) != {} && IsRun(nodes, sidechain, ids)
    requires forall id | id in Eligible(nodes, sidechain) :: nodes[id].subscribers == start
    ensures Level(nodes, Run(nodes, sidechain, ids), sidechain, start, q, r)
    ensures |ids| == q * |Eligible(nodes, sidechain)| + r
  {
    if ids == [] {
      q, r := 0, 0;
      assert With(nodes, Eligible(nodes, sidechain), start + 0 + 1) == {};
    } else {
      var m := |ids| - 1;
      q, r := LevelAfter(nodes, sidechain, start, ids[..m]);
      LevelStep(nodes, Run(nodes, sidechain, ids[..m]), sidechain, start, q, r, ids[m]);
      MulDistributes(|Eligible(nodes, sidechain)|, q, 1);
      if r + 1 == |Eligible(nodes, sidechain)| {
        q, r := q + 1, 0;
      } else {
        r := r + 1;
      }
    }
  }

  /** Fair allocation: from equal counts and a fixed set of n running nodes, after
      any m assignments, however ties are broken, every node has gained
      floor(m/n) or one more, and exactly m mod n of them one more. */
  lemma FairAllocation(nodes: Nodes, sidechain: string, start: int, ids: seq<nat>)
    requires Eligible(nodes, sidechain) != {} && IsRun(nodes, sidechain, ids)
    requires forall id | id in Eligible(nodes, sidechain) :: nodes[id].subscribers == start
    ensures var n := |Eligible(nodes, sidechain)|;
            Level(nodes, Run(nodes, sidechain, ids), sidechain, start, |ids| / n, |ids| % n)
  {
    var q, r := LevelAfter(nodes, sidechain, start, ids);
    DivUnique(|ids|, |Eligible(nodes, sidechain)|, q, r);
  }

  lemma DivUnique(m: nat, n: nat, q: nat, r: nat)
    requires 0 < n && m == q * n + r && r < n
    ensures m / n == q && m % n == r
  {
    var q', r' := m / n, m % n;
    assert q' * n + r' == q * n + r;
    if q' < q {
      MulMonotone(n, q' + 1, q);
      MulDistributes(n, q', 1);
    } else if q < q' {
      MulMonotone(n, q + 1, q');
      MulDistributes(n, q, 1);
    }
  }
}
