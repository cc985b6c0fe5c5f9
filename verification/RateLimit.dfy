/** The per-IP rate limiter with its two back ends
    (services/gateway/internal/middleware/ratelimit.go). Times are milliseconds,
    windows are seconds. */
module RateLimit {
  import opened Prelude

  datatype MemEntry = MemEntry(count: nat, window: int)

  /** A Redis counter; without an expiry it stays. */
  datatype Counter = Counter(count: nat, expiresAt: Option<int>)

  datatype RedisKey = RedisKey(ip: Ip, window: int)

  const EXPIRY_MS := 2000
  const DEADLINE_MS := 500

  // ----- The two back ends -----

  predicate IsLive(redis: map<RedisKey, Counter>, key: RedisKey, at: int) {
    key in redis && (redis[key].expiresAt.None? || at < redis[key].expiresAt.value)
  }

  /** INCR at an instant: an expired counter starts afresh. */
  function Incr(redis: map<RedisKey, Counter>, key: RedisKey, at: int): map<RedisKey, Counter> {
    if IsLive(redis, key, at)
    then redis[key := redis[key].(count := redis[key].count + 1)]
    else redis[key := Counter(1, None)]
  }

  function Expire(redis: map<RedisKey, Counter>, key: RedisKey, at: int): map<RedisKey, Counter> {
    if IsLive(redis, key, at) then redis[key := redis[key].(expiresAt := Some(at + EXPIRY_MS))] else redis
  }

  function MemCount(mem: map<Ip, MemEntry>, ip: Ip, window: int): nat {
    if ip in mem && mem[ip].window == window then mem[ip].count + 1 else 1
  }

  /** The fallback always admits the first request of a window. */
  predicate MemAllows(mem: map<Ip, MemEntry>, ip: Ip, window: int, burst: nat) {
    !(ip in mem && mem[ip].window == window) || MemCount(mem, ip, window) <= burst
  }

  predicate RedisAllows(count: nat, burst: nat) {
    count <= burst
  }

  class RateLimiter {
    const burstSize: nat
    var memStore: map<Ip, MemEntry>

    constructor (rps: nat)
      ensures burstSize == rps * 2 && memStore == map[]
    {
      burstSize := rps * 2;
      memStore := map[];
    }

    method InMemoryCheck(ip: Ip, window: int) returns (allowed: bool)
      modifies this
      ensures allowed == MemAllows(old(memStore), ip, window, burstSize)
      ensures memStore == old(memStore)[ip := MemEntry(MemCount(old(memStore), ip, window), window)]
    {
      if ip !in memStore || memStore[ip].window != window {
        memStore := memStore[ip := MemEntry(1, window)];
        return true;
      }
      memStore := memStore[ip := memStore[ip].(count := memStore[ip].count + 1)];
      allowed := memStore[ip].count <= burstSize;
    }

    /** One request: `count` is Redis's answer, None an error. Tells whether the
        handler may run and when, in milliseconds, Redis is asked to expire the key. */
    method Middleware(isWebSocket: bool, ip: Ip, now: nat, count: Option<nat>)
      returns (admitted: bool, expire: Option<nat>)
      modifies this
      ensures isWebSocket ==> admitted && expire.None? && memStore == old(memStore)
      ensures !isWebSocket && count.Some? ==>
                && admitted == RedisAllows(count.value, burstSize)
                && expire == (if count.value == 1 then Some(2000) else None)
                && memStore == old(memStore)
      ensures !isWebSocket && count.None? ==>
                && admitted == MemAllows(old(memStore), ip, now / 1000, burstSize) && expire.None?
                && memStore == old(memStore)[ip := MemEntry(MemCount(old(memStore), ip, now / 1000), now / 1000)]
    {
      if isWebSocket {
        return true, None;
      }
      var window := now / 1000;
      if count.None? {
        admitted := InMemoryCheck(ip, window);
        return admitted, None;
      }
      expire := if count.value == 1 then Some(EXPIRY_MS) else None;
      admitted := !(count.value > burstSize);
    }
  }

  // ----- Runs -----

  /** What happens at Redis and at the fallback store, in the order it happens.
      `replied` is false when the INCR was executed but its answer was lost. */
  datatype Event =
    | Increment(ip: Ip, window: int, at: int, replied: bool)
    | SetExpiry(ip: Ip, window: int, at: int)
    | Fallback(ip: Ip, window: int)

  /** The stores, and how many requests each back end admitted per window. */
  datatype State = State(redis: map<RedisKey, Counter>, mem: map<Ip, MemEntry>,
                         viaRedis: map<RedisKey, nat>, viaMem: map<RedisKey, nat>)

  function Of(m: map<RedisKey, nat>, k: RedisKey): nat {
    if k in m then m[k] else 0
  }

  function Next(s: State, burst: nat, e: Event): State {
    match e
    case Increment(ip, window, at, replied) =>
      var k := RedisKey(ip, window);
      var redis := Incr(s.redis, k, at);
      var admitted := replied && RedisAllows(redis[k].count, burst);
      s.(redis := redis,
         viaRedis := if admitted then s.viaRedis[k := Of(s.viaRedis, k) + 1] else s.viaRedis)
    case SetExpiry(ip, window, at) => s.(redis := Expire(s.redis, RedisKey(ip, window), at))
    case Fallback(ip, window) =>
      var k := RedisKey(ip, window);
      s.(mem := s.mem[ip := MemEntry(MemCount(s.mem, ip, window), window)],
         viaMem := if MemAllows(s.mem, ip, window, burst) then s.viaMem[k := Of(s.viaMem, k) + 1] else s.viaMem)
  }

  function Run(burst: nat, es: seq<Event>): State {
    if es == [] then State(map[], map[], map[], map[])
    else Next(Run(burst, es[..|es| - 1]), burst, es[|es| - 1])
  }

  /** A request reads its window off the clock when it arrives. An INCR that it
      sees answered was executed within its deadline; one whose answer is lost
      may be executed at any later time. An expiry is only set afterwards. */
  predicate Timely(e: Event) {
    match e
    case Increment(_, window, at, replied) =>
      window * 1000 <= at && (replied ==> at <= window * 1000 + 999 + DEADLINE_MS)
    case SetExpiry(_, window, at) => window * 1000 <= at
    case Fallback(_, _) => true
  }

  /** Redis executes one command after the other. */
  ghost predicate InTimeOrder(es: seq<Event>) {
    forall i, j | 0 <= i < j < |es| && !es[i].Fallback? && !es[j].Fallback? :: es[i].at <= es[j].at
  }

  /** Fallback checks of one address come in the order of their windows. */
  ghost predicate InWindowOrder(es: seq<Event>) {
    forall i, j | 0 <= i < j < |es| && es[i].Fallback? && es[j].Fallback? && es[i].ip == es[j].ip ::
      es[i].window <= es[j].window
  }

  /** How often a window's counter has been incremented. */
  function Increments(es: seq<Event>, k: RedisKey): nat {
    if es == [] then 0 else
      var e := es[|es| - 1];
      Increments(es[..|es| - 1], k) + (if e.Increment? && RedisKey(e.ip, e.window) == k then 1 else 0)
  }

  predicate Increases(e: Event, k: RedisKey) {
    e.Increment? && RedisKey(e.ip, e.window) == k
  }

  /** No INCR of this counter has come two seconds late or later. */
  ghost predicate InUse(es: seq<Event>, k: RedisKey) {
    forall i | 0 <= i < |es| && Increases(es[i], k) :: es[i].at < k.window * 1000 + EXPIRY_MS
  }

  /** The counter has counted n INCRs, and will not expire while in use. */
  ghost predicate Counted(s: State, k: RedisKey, n: nat) {
    && (k in s.redis <==> 0 < n)
    && (k in s.redis ==> s.redis[k].count == n)
    && (k in s.redis && s.redis[k].expiresAt.Some? ==> k.window * 1000 + EXPIRY_MS <= s.redis[k].expiresAt.value)
  }

  lemma CountedStep(s: State, burst: nat, e: Event, k: RedisKey, n: nat)
    requires Counted(s, k, n) && Of(s.viaRedis, k) <= Min(burst, n)
    requires Timely(e) && (Increases(e, k) ==> e.at < k.window * 1000 + EXPIRY_MS)
    ensures var n' := if Increases(e, k) then n + 1 else n;
            Counted(Next(s, burst, e), k, n') && Of(Next(s, burst, e).viaRedis, k) <= Min(burst, n')
  {
  }

  /** The two-second expiry never resets a counter in use: it is exactly the
      number of INCRs so far. A lost INCR that is executed after the expiry does
      reset it, but nothing is admitted on its account any more. So Redis admits
      at most `burst` requests of a window. */
  lemma {:induction false} RedisCountsAll(burst: nat, es: seq<Event>, k: RedisKey)
    requires InTimeOrder(es) && forall i | 0 <= i < |es| :: Timely(es[i])
    ensures var s := Run(burst, es);
            && Of(s.viaRedis, k) <= Min(burst, Increments(es, k))
            && (InUse(es, k) ==> Counted(s, k, Increments(es, k)))
  {
    if es == [] {
    } else {
      var n := |es| - 1;
      RedisCountsAll(burst, es[..n], k);
      if Increases(es[n], k) ==> es[n].at < k.window * 1000 + EXPIRY_MS {
        if InUse(es[..n], k) {
          CountedStep(Run(burst, es[..n]), burst, es[n], k, Increments(es[..n], k));
        } else {
          assert !Increases(es[n], k);
          assert !InUse(es, k);
        }
      }
    }
  }

  /** Answered INCRs of this counter among its first `burst` ones. */
  function AnsweredFirst(es: seq<Event>, k: RedisKey, burst: nat): nat {
    if es == [] then 0 else
      var n := |es| - 1;
      AnsweredFirst(es[..n], k, burst) +
      (if Increases(es[n], k) && es[n].replied && Increments(es[..n], k) < burst then 1 else 0)
  }

  /** Exactly how many requests of a window Redis admits: those answered among the
      first `burst` of its INCRs. */
  lemma {:induction false} RedisAdmits(burst: nat, es: seq<Event>, k: RedisKey)
    requires InTimeOrder(es) && forall i | 0 <= i < |es| :: Timely(es[i])
    ensures Of(Run(burst, es).viaRedis, k) == AnsweredFirst(es, k, burst)
  {
    if es == [] {
    } else {
      var n := |es| - 1;
      RedisAdmits(burst, es[..n], k);
      if Increases(es[n], k) && es[n].replied {
        forall i | 0 <= i < n && Increases(es[..n][i], k) ensures es[..n][i].at < k.window * 1000 + EXPIRY_MS {
          assert es[..n][i] == es[i];
        }
        RedisCountsAll(burst, es[..n], k);
        CountAfter(Run(burst, es[..n]), es[n], k, Increments(es[..n], k));
      }
    }
  }

  lemma CountAfter(s: State, e: Event, k: RedisKey, n: nat)
    requires Counted(s, k, n) && Timely(e) && Increases(e, k) && e.replied
    ensures Incr(s.redis, k, e.at)[k].count == n + 1
  {
  }

  /** When every INCR is answered, the first `burst` requests of a window pass. */
  lemma {:induction false} AllAnswered(burst: nat, es: seq<Event>, k: RedisKey)
    requires forall i | 0 <= i < |es| && Increases(es[i], k) :: es[i].replied
    ensures AnsweredFirst(es, k, burst) == Min(burst, Increments(es, k))
  {
    if es == [] {
    } else {
      AllAnswered(burst, es[..|es| - 1], k);
    }
  }

  /** What the fallback store says about the windows of one address. */
  ghost predicate MemBooks(s: State, burst: nat, ip: Ip) {
    && (ip !in s.mem ==> forall w :: Of(s.viaMem, RedisKey(ip, w)) == 0)
    && (ip in s.mem ==>
          && 1 <= s.mem[ip].count
          && Of(s.viaMem, RedisKey(ip, s.mem[ip].window)) <= Min(burst, s.mem[ip].count)
          && (forall w :: Of(s.viaMem, RedisKey(ip, w)) <= burst)
          && (forall w | s.mem[ip].window < w :: Of(s.viaMem, RedisKey(ip, w)) == 0))
  }

  lemma MemBooksStep(s: State, burst: nat, e: Event, ip: Ip)
    requires 1 <= burst && MemBooks(s, burst, ip)
    requires e.Fallback? && e.ip == ip && ip in s.mem ==> s.mem[ip].window <= e.window
    ensures MemBooks(Next(s, burst, e), burst, ip)
  {
  }

  /** The stored window of an address is one it has been checked for. */
  lemma {:induction false} StoredWindow(burst: nat, es: seq<Event>, ip: Ip)
    requires ip in Run(burst, es).mem
    ensures exists i :: 0 <= i < |es| && es[i].Fallback? && es[i].ip == ip
                        && es[i].window == Run(burst, es).mem[ip].window
  {
    var n := |es| - 1;
    if !(es[n].Fallback? && es[n].ip == ip) {
      StoredWindow(burst, es[..n], ip);
      var i :| 0 <= i < n && es[..n][i].Fallback? && es[..n][i].ip == ip
               && es[..n][i].window == Run(burst, es[..n]).mem[ip].window;
      assert es[i] == es[..n][i];
    }
  }

  lemma {:induction false} FallbackBound(burst: nat, es: seq<Event>, ip: Ip)
    requires 1 <= burst && InWindowOrder(es)
    ensures MemBooks(Run(burst, es), burst, ip)
  {
    if es == [] {
    } else {
      var n := |es| - 1;
      FallbackBound(burst, es[..n], ip);
      if es[n].Fallback? && es[n].ip == ip && ip in Run(burst, es[..n]).mem {
        StoredWindow(burst, es[..n], ip);
        var i :| 0 <= i < n && es[..n][i].Fallback? && es[..n][i].ip == ip
                 && es[..n][i].window == Run(burst, es[..n]).mem[ip].window;
        assert es[i] == es[..n][i];
      }
      MemBooksStep(Run(burst, es[..n]), burst, es[n], ip);
    }
  }

  /** Rate bound: whatever mix of Redis successes, failures and lost answers, a
      window admits at most `burst` requests of an address per back end. */
  lemma RateBound(burst: nat, es: seq<Event>, k: RedisKey)
    requires 1 <= burst && InWindowOrder(es)
    requires InTimeOrder(es) && forall i | 0 <= i < |es| :: Timely(es[i])
    ensures Of(Run(burst, es).viaRedis, k) + Of(Run(burst, es).viaMem, k) <= 2 * burst
  {
    RedisCountsAll(burst, es, k);
    FallbackBound(burst, es, k.ip);
  }

  // ----- The fallback, window order or not -----

  /** The windows one address was checked for, in order. */
  function Checks(es: seq<Event>, ip: Ip): seq<int> {
    if es == [] then [] else
      var e := es[|es| - 1];
      Checks(es[..|es| - 1], ip) + (if e.Fallback? && e.ip == ip then [e.window] else [])
  }

  /** Checks for the same window, one right after the other. */
  datatype Group = Group(window: int, length: nat)

  function AddCheck(groups: seq<Group>, window: int): (r: seq<Group>)
    ensures r != []
  {
    var m := |groups| - 1;
    if groups != [] && groups[m].window == window then groups[..m] + [Group(window, groups[m].length + 1)]
    else groups + [Group(window, 1)]
  }

  function Groups(windows: seq<int>): seq<Group> {
    if windows == [] then [] else AddCheck(Groups(windows[..|windows| - 1]), windows[|windows| - 1])
  }

  function Repeat(window: int, n: nat): seq<int> {
    if n == 0 then [] else Repeat(window, n - 1) + [window]
  }

  function Spread(groups: seq<Group>): seq<int> {
    if groups == [] then [] else
      var g := groups[|groups| - 1];
      Spread(groups[..|groups| - 1]) + Repeat(g.window, g.length)
  }

  ghost predicate Maximal(groups: seq<Group>) {
    && (forall i | 0 <= i < |groups| :: 1 <= groups[i].length)
    && (forall i | 0 < i < |groups| :: groups[i - 1].window != groups[i].window)
  }

  /** The groups are the checks, cut exactly where the window changes. */
  lemma {:induction false} GroupsAreMaximal(windows: seq<int>)
    ensures Spread(Groups(windows)) == windows && Maximal(Groups(windows))
  {
    if windows == [] {
    } else {
      var n := |windows| - 1;
      FrontAndLast(windows);
      GroupsAreMaximal(windows[..n]);
      SpreadLonger(Groups(windows[..n]), windows[n]);
    }
  }

  lemma SpreadLonger(groups: seq<Group>, window: int)
    requires Maximal(groups)
    ensures Spread(AddCheck(groups, window)) == Spread(groups) + [window] && Maximal(AddCheck(groups, window))
  {
    var m := |groups| - 1;
    if groups != [] && groups[m].window == window {
      SpreadSnoc(groups[..m], Group(window, groups[m].length + 1));
      assert Spread(groups) == Spread(groups[..m]) + Repeat(window, groups[m].length);
    } else {
      SpreadSnoc(groups, Group(window, 1));
      assert Repeat(window, 1) == [window];
    }
  }

  lemma SpreadSnoc(groups: seq<Group>, g: Group)
    ensures Spread(groups + [g]) == Spread(groups) + Repeat(g.window, g.length)
  {
    assert (groups + [g])[..|groups|] == groups;
  }

  /** At most `most` of every group of a window, together. */
  function Capped(groups: seq<Group>, window: int, most: nat): nat {
    if groups == [] then 0 else
      var g := groups[|groups| - 1];
      Capped(groups[..|groups| - 1], window, most) + (if g.window == window then Min(g.length, most) else 0)
  }

  lemma CappedSnoc(groups: seq<Group>, g: Group, window: int, most: nat)
    ensures Capped(groups + [g], window, most)
            == Capped(groups, window, most) + (if g.window == window then Min(g.length, most) else 0)
  {
    assert (groups + [g])[..|groups|] == groups;
  }

  /** The store remembers the last group. */
  ghost predicate Remembers(s: State, burst: nat, ip: Ip, groups: seq<Group>) {
    && (ip in s.mem <==> groups != [])
    && (groups != [] ==>
          var g := groups[|groups| - 1]; s.mem[ip] == MemEntry(g.length, g.window) && 1 <= g.length)
    && forall w :: Of(s.viaMem, RedisKey(ip, w)) == Capped(groups, w, Max(1, burst))
  }

  /** Exactly how many requests the fallback admits for a window: of every group
      of checks that no other window of the address interrupts, the first
      `burst`, and at least one. It stays within a bound exactly when the sum
      over its groups does. */
  lemma {:induction false} FallbackCount(burst: nat, es: seq<Event>, ip: Ip)
    ensures Remembers(Run(burst, es), burst, ip, Groups(Checks(es, ip)))
  {
    if es == [] {
    } else {
      var n := |es| - 1;
      var e := es[n];
      FallbackCount(burst, es[..n], ip);
      if e.Fallback? && e.ip == ip {
        GroupsSnoc(Checks(es[..n], ip), e.window);
        OneMoreCheck(Run(burst, es[..n]), burst, ip, e.window, Groups(Checks(es[..n], ip)));
      } else {
        assert Checks(es, ip) == Checks(es[..n], ip);
      }
    }
  }

  lemma GroupsSnoc(windows: seq<int>, window: int)
    ensures Groups(windows + [window]) == AddCheck(Groups(windows), window)
  {
    assert (windows + [window])[..|windows|] == windows;
  }

  /** The current group of checks is for this window and used up. */
  predicate UsedUp(groups: seq<Group>, window: int, most: nat) {
    groups != [] && groups[|groups| - 1].window == window && most <= groups[|groups| - 1].length
  }

  lemma CappedAdd(groups: seq<Group>, window: int, w: int, most: nat)
    requires 1 <= most
    ensures Capped(AddCheck(groups, window), w, most)
            == Capped(groups, w, most) + (if w == window && !UsedUp(groups, window, most) then 1 else 0)
  {
    var m := |groups| - 1;
    if groups != [] && groups[m].window == window {
      CappedSnoc(groups[..m], Group(window, groups[m].length + 1), w, most);
    } else {
      CappedSnoc(groups, Group(window, 1), w, most);
    }
  }

  lemma OneMoreCheck(s: State, burst: nat, ip: Ip, window: int, groups: seq<Group>)
    requires Remembers(s, burst, ip, groups)
    ensures Remembers(Next(s, burst, Fallback(ip, window)), burst, ip, AddCheck(groups, window))
  {
    var s', most := Next(s, burst, Fallback(ip, window)), Max(1, burst);
    var admitted := MemAllows(s.mem, ip, window, burst);
    assert admitted == !UsedUp(groups, window, most);
    LastAfterCheck(groups, window);
    forall w ensures Of(s'.viaMem, RedisKey(ip, w)) == Capped(AddCheck(groups, window), w, most) {
      CappedAdd(groups, window, w, most);
      ViaMemAfter(s, burst, ip, window, w);
    }
  }

  lemma LastAfterCheck(groups: seq<Group>, window: int)
    ensures var last := AddCheck(groups, window)[|AddCheck(groups, window)| - 1];
            last == Group(window, if groups != [] && groups[|groups| - 1].window == window
                                  then groups[|groups| - 1].length + 1 else 1)
  {
  }

  lemma ViaMemAfter(s: State, burst: nat, ip: Ip, window: int, w: int)
    ensures Of(Next(s, burst, Fallback(ip, window)).viaMem, RedisKey(ip, w))
            == Of(s.viaMem, RedisKey(ip, w)) + (if w == window && MemAllows(s.mem, ip, window, burst) then 1 else 0)
  {
  }

  /** Whatever the order of the windows: one burst from Redis, and what the
      groups of checks allow. */
  lemma RateBoundAnyOrder(burst: nat, es: seq<Event>, k: RedisKey)
    requires InTimeOrder(es) && forall i | 0 <= i < |es| :: Timely(es[i])
    ensures var s := Run(burst, es);
            Of(s.viaRedis, k) + Of(s.viaMem, k) <= burst + Capped(Groups(Checks(es, k.ip)), k.window, Max(1, burst))
  {
    RedisCountsAll(burst, es, k);
    FallbackCount(burst, es, k.ip);
  }

  /** Two windows checked in turn. */
  function Alternating(ip: Ip, window: int, n: nat): seq<Event> {
    if n == 0 then [] else Alternating(ip, window, n - 1) + [Fallback(ip, window), Fallback(ip, window + 1)]
  }

  /** The window order matters: fallback checks that alternate between two
      windows are all admitted, any number of them. */
  lemma {:induction false} AlternatingWindowsUnbounded(burst: nat, ip: Ip, window: int, n: nat)
    ensures var s := Run(burst, Alternating(ip, window, n));
            && Of(s.viaMem, RedisKey(ip, window)) == n
            && (0 < n ==> ip in s.mem && s.mem[ip].window == window + 1)
            && (n == 0 ==> ip !in s.mem)
  {
    if n == 0 {
    } else {
      AlternatingWindowsUnbounded(burst, ip, window, n - 1);
      var before := Alternating(ip, window, n - 1);
      var es := Alternating(ip, window, n);
      var mid := es[..|es| - 1];
      assert mid == before + [Fallback(ip, window)];
      assert mid[..|mid| - 1] == before;
    }
  }
}
