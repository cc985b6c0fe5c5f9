/** The WebSocket hub's books (services/manager/internal/ws/hub.go). */
module Hub {
  import opened Prelude

  /** A connection; distinct connections are distinct values. */
  datatype Conn = Conn(id: nat)

  const MAX_CONNS_PER_IP := 5

  function ConnsOf(clients: map<Conn, Ip>, ip: Ip): set<Conn> {
    set c | c in clients && clients[c] == ip
  }

  /** Each counter is the number of registered connections of its address; an
      address without connections has no counter. */
  ghost predicate Agree(clients: map<Conn, Ip>, counts: map<Ip, int>) {
    forall ip :: if ip in counts then counts[ip] == |ConnsOf(clients, ip)| && 1 <= counts[ip] <= MAX_CONNS_PER_IP
                 else ConnsOf(clients, ip) == {}
  }

  lemma JoinCounts(clients: map<Conn, Ip>, c: Conn, ip: Ip, other: Ip)
    requires c !in clients
    ensures |ConnsOf(clients[c := ip], other)| == |ConnsOf(clients, other)| + (if other == ip then 1 else 0)
  {
    if other == ip {
      assert ConnsOf(clients[c := ip], ip) == ConnsOf(clients, ip) + {c};
    } else {
      assert ConnsOf(clients[c := ip], other) == ConnsOf(clients, other);
    }
  }

  lemma LeaveCounts(clients: map<Conn, Ip>, c: Conn, other: Ip)
    requires c in clients
    ensures |ConnsOf(clients - {c}, other)| == |ConnsOf(clients, other)| - (if other == clients[c] then 1 else 0)
    ensures other != clients[c] ==> ConnsOf(clients - {c}, other) == ConnsOf(clients, other)
  {
    if other == clients[c] {
      assert ConnsOf(clients, other) == ConnsOf(clients - {c}, other) + {c};
    } else {
      assert ConnsOf(clients - {c}, other) == ConnsOf(clients, other);
    }
  }

  class Hub {
    var clients: map<Conn, Ip>
    var ipConnCount: map<Ip, int>

    ghost predicate Valid()
      reads this
    {
      Agree(clients, ipConnCount)
    }

    constructor ()
      ensures Valid() && clients == map[]
    {
      clients, ipConnCount := map[], map[];
    }

    /** Registers a fresh connection unless its address is at the limit. */
    method AddClient(c: Conn, ip: Ip) returns (added: bool)
      requires Valid() && c !in clients
      modifies this
      ensures Valid()
      ensures added <==> |set other | other in old(clients) && old(clients)[other] == ip| < 5
      ensures clients == if added then old(clients)[c := ip] else old(clients)
    {
      var count := if ip in ipConnCount then ipConnCount[ip] else 0;
      assert count == |ConnsOf(clients, ip)|;
      if count >= MAX_CONNS_PER_IP {
        return false;
      }
      forall other ensures |ConnsOf(clients[c := ip], other)|
                           == |ConnsOf(clients, other)| + (if other == ip then 1 else 0) {
        JoinCounts(clients, c, ip, other);
      }
      clients := clients[c := ip];
      ipConnCount := ipConnCount[ip := count + 1];
      added := true;
    }

    /** Unregisters a connection; one that is already gone changes nothing. */
    method RemoveClient(c: Conn)
      requires Valid()
      modifies this
      ensures Valid()
      ensures clients == old(clients) - {c}
    {
      if c in clients {
        var ip := clients[c];
        assert c in ConnsOf(clients, ip);
        forall other
          ensures |ConnsOf(clients - {c}, other)| == |ConnsOf(clients, other)| - (if other == ip then 1 else 0)
          ensures other != ip ==> ConnsOf(clients - {c}, other) == ConnsOf(clients, other)
        {
          LeaveCounts(clients, c, other);
        }
        clients := clients - {c};
        ipConnCount := ipConnCount[ip := ipConnCount[ip] - 1];
        if ipConnCount[ip] <= 0 {
          ipConnCount := ipConnCount - {ip};
        }
      }
    }

    /** The write loop of a broadcast over a snapshot taken earlier: it removes
        every snapshot connection whose write fails, even if it has left, or
        has been removed, in the meantime. */
    method RemoveFailed(snapshot: seq<Conn>, writeOk: Conn -> bool)
      requires Valid()
      modifies this
      ensures Valid()
      ensures clients == old(clients) - (set c | c in snapshot && !writeOk(c))
    {
      var i := 0;
      while i < |snapshot|
        invariant 0 <= i <= |snapshot| && Valid()
        invariant clients == old(clients) - (set c | c in snapshot[..i] && !writeOk(c))
      {
        if !writeOk(snapshot[i]) {
          RemoveClient(snapshot[i]);
        }
        i := i + 1;
      }
      assert snapshot[..i] == snapshot;
    }
  }
}
