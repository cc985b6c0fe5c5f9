/** Tier lookups through the 30-second cache
    (services/manager/internal/subscription/service.go). Times are seconds. */
module TierCache {
  import opened Prelude
  import opened Tiers

  const CACHE_TTL := 30

  /** Cache keys: "sub:" + address, or "apikey:" + hash. */
  datatype Key = ByAddress(address: Address) | ByApiKey(hash: string)

  /** The columns of a subscription row a lookup reads. */
  datatype Found = Found(address: Address, tier: Tier, graceUntil: Option<int>)

  /** The database as lookups see it: the row each key resolves to. */
  type Rows = map<Key, Found>

  datatype Entry = Entry(address: Option<Address>, tier: Tier, graceUntil: Option<int>, setAt: int)

  datatype Reply = Error | Reply(tier: Tier, address: Option<Address>)

  /** The answer without a cache. */
  function Uncached(rows: Rows, key: Key, now: int): Reply {
    if key !in rows then Reply(Free, None)
    else
      var f := rows[key];
      Reply(if IsActive(f.tier, f.graceUntil, now) then f.tier else Free,
            if key.ByApiKey? then Some(f.address) else None)
  }

  /** What a lookup at `now` stores; an unknown API key is not cached. */
  function EntryFor(rows: Rows, key: Key, now: int): Option<Entry> {
    var reply := Uncached(rows, key, now);
    match key
    case ByAddress(_) =>
      Some(Entry(None, reply.tier, if reply.tier != Free then rows[key].graceUntil else None, now))
    case ByApiKey(_) =>
      if key in rows then Some(Entry(reply.address, reply.tier, rows[key].graceUntil, now)) else None
  }

  /** The answer an entry gives by itself; None sends the lookup to the database. */
  function Hit(e: Entry, key: Key, now: int): Option<Reply> {
    if IsActive(e.tier, e.graceUntil, now) then Some(Reply(e.tier, e.address))
    else if key.ByAddress? && e.tier == Free then Some(Reply(Free, None))
    else None
  }

  /** Redis no longer returns an entry once its time to live is over. */
  predicate InRedis(cache: map<Key, Entry>, key: Key, now: int) {
    key in cache && now < cache[key].setAt + CACHE_TTL
  }

  /** How the three remote calls of a lookup went. */
  datatype Calls = Calls(getOk: bool, dbOk: bool, setOk: bool)

  function Lookup(cache: map<Key, Entry>, rows: Rows, key: Key, now: int, calls: Calls): (map<Key, Entry>, Reply) {
    var hit := if calls.getOk && InRedis(cache, key, now) then Hit(cache[key], key, now) else None;
    if hit.Some? then (cache, hit.value)
    else if !calls.dbOk then (cache, Error)
    else
      var entry := EntryFor(rows, key, now);
      (if calls.setOk && entry.Some? then cache[key := entry.value] else cache, Uncached(rows, key, now))
  }

  class Service {
    var cache: map<Key, Entry>

    constructor ()
      ensures cache == map[]
    {
      cache := map[];
    }

    method CheckTier(address: Address, rows: Rows, now: int, calls: Calls) returns (ok: bool, tier: Tier)
      modifies this
      ensures var (c, reply) := Lookup(old(cache), rows, ByAddress(address), now, calls);
              && cache == c && ok == reply.Reply? && tier == if ok then reply.tier else Free
    {
      var key := ByAddress(address);
      if calls.getOk && InRedis(cache, key, now) {
        var cached := cache[key];
        if TierIncludes(cached.tier, Supporter) && cached.graceUntil.Some? && now < cached.graceUntil.value {
          return true, cached.tier;
        }
        if cached.tier == Free {
          return true, Free;
        }
      }
      if !calls.dbOk {
        return false, Free;
      }
      tier := Free;
      var graceUntil: Option<int> := None;
      if key in rows && IsActive(rows[key].tier, rows[key].graceUntil, now) {
        tier := rows[key].tier;
        graceUntil := rows[key].graceUntil;
      }
      if calls.setOk {
        cache := cache[key := Entry(None, tier, graceUntil, now)];
      }
      ok := true;
    }

    method CheckTierByAPIKey(hash: string, rows: Rows, now: int, calls: Calls)
      returns (ok: bool, tier: Tier, address: Option<Address>)
      modifies this
      ensures var (c, reply) := Lookup(old(cache), rows, ByApiKey(hash), now, calls);
              && cache == c && ok == reply.Reply?
              && (ok ==> tier == reply.tier && address == reply.address)
              && (!ok ==> tier == Free && address == None)
    {
      var key := ByApiKey(hash);
      if calls.getOk && InRedis(cache, key, now) {
        var cached := cache[key];
        if TierIncludes(cached.tier, Supporter) && cached.graceUntil.Some? && now < cached.graceUntil.value {
          return true, cached.tier, cached.address;
        }
      }
      if !calls.dbOk {
        return false, Free, None;
      }
      if key !in rows {
        return true, Free, None;
      }
      var sub := rows[key];
      tier := if IsActive(sub.tier, sub.graceUntil, now) then sub.tier else Free;
      if calls.setOk {
        cache := cache[key := Entry(Some(sub.address), tier, sub.graceUntil, now)];
      }
      return true, tier, Some(sub.address);
    }

    /** Removes the address entry only, if Redis answers; API-key entries stay. */
    method InvalidateCache(address: Address, deleteOk: bool)
      modifies this
      ensures cache == if deleteOk then old(cache) - {ByAddress(address)} else old(cache)
    {
      if deleteOk {
        cache := cache - {ByAddress(address)};
      }
    }
  }

  // ----- Runs -----

  /** A database state and the instant it came into effect. */
  datatype Snapshot = Snapshot(since: int, rows: Rows)

  /** `history` ends with the current database. */
  datatype World = World(now: int, cache: map<Key, Entry>, history: seq<Snapshot>)

  datatype Step =
    | Tick(seconds: nat)
    | Change(rows: Rows)
    | Evict(key: Key)
    | Ask(key: Key, calls: Calls)

  function Current(w: World): Rows
    requires w.history != []
  {
    w.history[|w.history| - 1].rows
  }

  function Next(w: World, e: Step): (w': World)
    requires w.history != []
    ensures w'.history != []
  {
    match e
    case Tick(seconds) => w.(now := w.now + seconds)
    case Change(rows) => w.(history := w.history + [Snapshot(w.now, rows)])
    case Evict(key) => w.(cache := w.cache - {key})
    case Ask(key, calls) => w.(cache := Lookup(w.cache, Current(w), key, w.now, calls).0)
  }

  function Run(w: World, es: seq<Step>): (w': World)
    requires w.history != []
    ensures w'.history != []
  {
    if es == [] then w else Next(Run(w, es[..|es| - 1]), es[|es| - 1])
  }

  /** Snapshot i was the database at instant u. */
  predicate InEffect(history: seq<Snapshot>, i: int, u: int) {
    0 <= i < |history| && history[i].since <= u && (i + 1 < |history| ==> u <= history[i + 1].since)
  }

  /** An entry is what a lookup stored, at the time it says, from the database
      of that time. */
  ghost predicate Backed(w: World, key: Key) {
    key in w.cache ==>
      && w.cache[key].setAt <= w.now
      && exists i :: InEffect(w.history, i, w.cache[key].setAt)
                     && EntryFor(w.history[i].rows, key, w.cache[key].setAt) == Some(w.cache[key])
  }

  ghost predicate Inv(w: World) {
    && w.history != [] && w.history[|w.history| - 1].since <= w.now
    && forall key :: Backed(w, key)
  }

  lemma BackedStep(w: World, e: Step, key: Key)
    requires Inv(w)
    ensures Backed(Next(w, e), key)
  {
    var w' := Next(w, e);
    var n := |w.history| - 1;
    if key in w'.cache {
      if key in w.cache && w'.cache[key] == w.cache[key] {
        assert Backed(w, key);
        var i :| InEffect(w.history, i, w.cache[key].setAt)
                 && EntryFor(w.history[i].rows, key, w.cache[key].setAt) == Some(w.cache[key]);
        assert InEffect(w'.history, i, w.cache[key].setAt) && w'.history[i] == w.history[i];
      } else {
        assert InEffect(w'.history, n, w.now);
      }
    }
  }

  lemma InvStep(w: World, e: Step)
    requires Inv(w)
    ensures Inv(Next(w, e))
  {
    forall key ensures Backed(Next(w, e), key) {
      BackedStep(w, e, key);
    }
  }

  lemma {:induction false} InvRun(w: World, es: seq<Step>)
    requires Inv(w)
    ensures Inv(Run(w, es))
  {
    if es == [] {
    } else {
      InvRun(w, es[..|es| - 1]);
      InvStep(Run(w, es[..|es| - 1]), es[|es| - 1]);
    }
  }

  /** An entry answers, later on, what its database would have answered then. */
  lemma HitAgrees(rows: Rows, key: Key, setAt: int, now: int)
    requires setAt <= now && EntryFor(rows, key, setAt).Some?
    ensures var hit := Hit(EntryFor(rows, key, setAt).value, key, now);
            hit.Some? ==> hit.value == Uncached(rows, key, now)
  {
  }

  /** Some database of the last 30 seconds gives this reply at this instant. */
  ghost predicate RecentlyTrue(w: World, key: Key, reply: Reply) {
    exists i: int, u: int :: InEffect(w.history, i, u) && w.now - 30 <= u <= w.now
                             && reply == Uncached(w.history[i].rows, key, w.now)
  }

  /** Bounded staleness: in every run of database changes, evictions,
      invalidations, lookups and clock ticks, starting with an empty cache, a
      lookup that does not fail answers what the uncached lookup would answer
      now, on a database that was current at most 30 seconds ago. */
  lemma LookupIsRecent(w: World, es: seq<Step>, key: Key, calls: Calls)
    requires w.cache == map[] && |w.history| == 1 && w.history[0].since <= w.now
    ensures var w' := Run(w, es);
            var reply := Lookup(w'.cache, Current(w'), key, w'.now, calls).1;
            reply.Reply? ==> RecentlyTrue(w', key, reply)
  {
    InvRun(w, es);
    var w' := Run(w, es);
    var n := |w'.history| - 1;
    assert Backed(w', key);
    if calls.getOk && InRedis(w'.cache, key, w'.now) && Hit(w'.cache[key], key, w'.now).Some? {
      var setAt := w'.cache[key].setAt;
      var i :| InEffect(w'.history, i, setAt) && EntryFor(w'.history[i].rows, key, setAt) == Some(w'.cache[key]);
      HitAgrees(w'.history[i].rows, key, setAt, w'.now);
    } else {
      assert InEffect(w'.history, n, w'.now);
    }
  }

  /** The key has resolved to the same row in every database of the last 30 s. */
  ghost predicate Settled(w: World, key: Key)
    requires w.history != []
  {
    forall i: int, u: int | InEffect(w.history, i, u) && w.now - 30 <= u <= w.now ::
      (key in w.history[i].rows) == (key in Current(w))
      && (key in Current(w) ==> w.history[i].rows[key] == Current(w)[key])
  }

  /** So the cached answer is the uncached one once the row has been left alone
      for 30 seconds. */
  lemma SettledLookupIsExact(w: World, es: seq<Step>, key: Key, calls: Calls)
    requires w.cache == map[] && |w.history| == 1 && w.history[0].since <= w.now
    requires Settled(Run(w, es), key)
    ensures var w' := Run(w, es);
            var reply := Lookup(w'.cache, Current(w'), key, w'.now, calls).1;
            reply.Reply? ==> reply == Uncached(Current(w'), key, w'.now)
  {
    LookupIsRecent(w, es, key, calls);
  }

  // ----- What a lookup means -----

  /** The row is for supporters or champions, and its grace period still runs. */
  predicate PaysNow(row: Found, now: int) {
    (row.tier == Supporter || row.tier == Champion) && row.graceUntil.Some? && now < row.graceUntil.value
  }

  /** What these rows say about the key: its row's tier while that pays, Free
      otherwise and without a row; for an API key, whose it is. */
  predicate Says(rows: Rows, key: Key, now: int, reply: Reply) {
    && reply.Reply?
    && reply.tier == (if key in rows && PaysNow(rows[key], now) then rows[key].tier else Free)
    && (key.ByApiKey? ==> reply.address == if key in rows then Some(rows[key].address) else None)
  }

  /** The reply is what the rows of some instant of the last 30 seconds say. */
  ghost predicate SaidRecently(w: World, key: Key, reply: Reply) {
    exists i: int, u: int :: InEffect(w.history, i, u) && w.now - 30 <= u <= w.now
                             && Says(w.history[i].rows, key, w.now, reply)
  }

  /** In every run, a lookup that does not fail grants a paid tier exactly when some
      row of the last 30 seconds for the key was a paid one whose grace period has
      not ended by now, and then that row's tier. */
  lemma LookupSays(w: World, es: seq<Step>, key: Key, calls: Calls)
    requires w.cache == map[] && |w.history| == 1 && w.history[0].since <= w.now
    ensures var w' := Run(w, es);
            var reply := Lookup(w'.cache, Current(w'), key, w'.now, calls).1;
            reply.Reply? ==> SaidRecently(w', key, reply)
  {
    LookupIsRecent(w, es, key, calls);
    var w' := Run(w, es);
    var reply := Lookup(w'.cache, Current(w'), key, w'.now, calls).1;
    if reply.Reply? {
      var i: int, u: int :| InEffect(w'.history, i, u) && w'.now - 30 <= u <= w'.now
                            && reply == Uncached(w'.history[i].rows, key, w'.now);
      assert Says(w'.history[i].rows, key, w'.now, reply);
    }
  }

  /** A lookup fails exactly when the cache does not answer it and the database
      cannot: so a miner is never denied what it paid for by an empty cache. */
  lemma LookupFails(cache: map<Key, Entry>, rows: Rows, key: Key, now: int, calls: Calls)
    ensures calls.dbOk ==> Lookup(cache, rows, key, now, calls).1.Reply?
    ensures key !in cache || !calls.getOk ==>
              (calls.dbOk <==> Lookup(cache, rows, key, now, calls).1.Reply?)
              && (calls.dbOk ==> Says(rows, key, now, Lookup(cache, rows, key, now, calls).1))
  {
  }
}
