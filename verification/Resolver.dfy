/** The resolver itself: a cache, a request budget and a record's room, all updated in place, each
    method proved to compute what the functions of `Expansion` and `Resolution` say. */
module Resolver {
  import opened Multiaddrs
  import opened CacheKeys
  import opened DnsCache
  import opened Expansion
  import opened Resolution
  import opened ResolutionProofs

  /** The outside: a script of observations, how many were made, and how many queries were asked for. */
  class World {
    const env: Env
    var tick: nat
    var queries: nat

    constructor (env: Env)
      ensures this.env == env && tick == 0 && queries == 0
    {
      this.env := env;
      tick, queries := 0, 0;
    }
  }

  class DnsAddrBudget {
    var lookups: nat

    constructor ()
      ensures lookups == 16
    {
      lookups := MAX_LOOKUPS_PER_REQUEST;
    }

    method Spend() returns (ok: bool)
      modifies this
      ensures ok <==> old(lookups) > 0
      ensures lookups == if ok then old(lookups) - 1 else old(lookups)
    {
      if lookups <= 0 { return false; }
      lookups := lookups - 1;
      return true;
    }
  }

  /** The counter `*room` points at. */
  class Room {
    var left: nat

    constructor (left: nat)
      ensures this.left == left
    {
      this.left := left;
    }
  }

  lemma ThenThen(a: seq<Multiaddr>, b: seq<Multiaddr>, r: Expanded)
    ensures Then(a, Then(b, r)) == Then(a + b, r)
  {
    assert a + (b + r.out) == (a + b) + r.out;
  }

  lemma ThenNothing(a: seq<Multiaddr>, complete: bool, s: State)
    ensures Then(a, Expanded([], complete, s)) == Expanded(a, complete, s)
  {
    assert a + [] == a;
  }

  /** What one entry adds to an expansion that still has room. */
  function OneEntry(env: Env, pid: PeerID, entry: Multiaddr, s: State, depth: nat): Expanded
    requires s.room > 0
  {
    var (id, rest) := SplitPeerID(env.decode, entry);
    if (id != "" && id != pid) || rest == [] then Expanded([], true, s)
    else if IsDNSAddr(rest) then Expand(env, pid, rest, s, depth)
    else Expanded([rest], true, s.(room := s.room - 1))
  }

  /** One iteration of the loop, on the rest of the results. */
  lemma NextEntry(env: Env, pid: PeerID, results: seq<Multiaddr>, i: nat, complete: bool, s: State, depth: nat)
    requires i < |results|
    ensures var e := ExpandResults(env, pid, results[i..], complete, s, depth);
      if s.room == 0 then e == Expanded([], false, s)
      else
        var n := OneEntry(env, pid, results[i], s, depth);
        e == Then(n.out, ExpandResults(env, pid, results[i + 1..], complete && n.complete, n.s, depth))
  {
    assert results[i..][0] == results[i] && results[i..][1..] == results[i + 1..];
    var r := ExpandResults(env, pid, results[i + 1..], complete, s, depth);
    assert [] + r.out == r.out;
  }

  method AppendUnique(out: seq<Multiaddr>, seen: set<string>, addr: Multiaddr)
    returns (out': seq<Multiaddr>, seen': set<string>, appended: bool)
    requires seen == Renderings(out)
    ensures out' == AppendAll(out, [addr])
    ensures seen' == Renderings(out')
    ensures appended <==> out' != out
  {
    out', seen', appended := out, seen, false;
    if |addr| == 0 { return; }
    var k := String(addr);
    if k in seen { return; }
    seen' := seen + {k};
    out' := out + [addr];
    appended := true;
  }

  method AppendUniques(out: seq<Multiaddr>, seen: set<string>, more: seq<Multiaddr>) returns (out': seq<Multiaddr>, seen': set<string>)
    requires seen == Renderings(out)
    ensures out' == AppendAll(out, more)
    ensures seen' == Renderings(out')
  {
    out', seen' := out, seen;
    for j := 0 to |more|
      invariant seen' == Renderings(out')
      invariant out' == AppendAll(out, more[..j])
    {
      assert more[..j + 1] == more[..j] + [more[j]];
      AppendAllConcat(out, more[..j], [more[j]]);
      var appended: bool;
      out', seen', appended := AppendUnique(out', seen', more[j]);
    }
    assert more[..|more|] == more;
  }

  /** What a request that asked for `key` is told, and what is in the cache then: nothing if it did not
      stay, else what DNS said, which is stored as it is told. */
  predicate Told(reply: Reply, key: string, before: Cache, after: Cache, addrs: seq<Multiaddr>, ok: bool) {
    match reply
    case RequestGone => addrs == [] && !ok && after == before
    case Delivered(outcome, at) =>
      && key in after && after == before[key := after[key]]
      && addrs == after[key].addrs && ok == after[key].ok
      && (ok <==> outcome.Answer?) && addrs == (if outcome.Answer? then outcome.addrs else [])
      && (!outcome.Canceled? ==> LeftBy(after[key], outcome, at))
  }

  class DnsAddrResolver {
    var cache: Cache

    constructor ()
      ensures cache == map[]
    {
      cache := map[];
    }

    function View(world: World, budget: DnsAddrBudget, room: nat): State
      reads this, world, budget
    {
      State(cache, budget.lookups, room, world.tick, world.queries)
    }

    /** Classifies and stores what DNS said. */
    method Resolve(key: string, outcome: Outcome, now: int) returns (entry: CacheEntry)
      modifies this
      ensures entry == EntryFor(outcome, now)
      ensures cache == old(cache)[key := entry]
      ensures !outcome.Canceled? ==> LeftBy(entry, outcome, now)
    {
      var ttl := CACHE_TTL;
      var addrs, ok := [], false;
      if outcome.Answer? {
        addrs, ok := outcome.addrs, true;
        if |addrs| == 0 { ttl := FAILURE_CACHE_TTL; }
      } else if !outcome.TimedOut? {
        ttl := FAILURE_CACHE_TTL;
      }
      entry := CacheEntry(addrs, ok, now + ttl);
      cache := cache[key := entry];
    }

    /** Answers from the cache if it can, for free. Otherwise a request that is over, or has no budget left,
        asks nothing, and any other asks once, for one unit of budget. `interfere` is what others did to
        the cache just before. */
    method LookupName(world: World, name: Multiaddr, budget: DnsAddrBudget, ghost room: nat) returns (addrs: seq<Multiaddr>, ok: bool)
      modifies this, world, budget
      ensures LookupResult(addrs, ok, View(world, budget, room)) ==
              Lookup(world.env, CacheKey(name), old(View(world, budget, room)))
      ensures var found, key, t := world.env.interfere(old(world.tick), old(cache)), CacheKey(name), old(world.tick) + 1;
        var unexpired := key in found && world.env.now(t) < found[key].expires;
        && world.tick == t
        && (unexpired ==> addrs == found[key].addrs && ok == found[key].ok)
        && (!unexpired && (!world.env.live(t) || old(budget.lookups) == 0) ==> addrs == [] && !ok)
        && (unexpired || !world.env.live(t) || old(budget.lookups) == 0 ==>
              cache == found && budget.lookups == old(budget.lookups) && world.queries == old(world.queries))
        && (!unexpired && world.env.live(t) && old(budget.lookups) > 0 ==>
              && budget.lookups == old(budget.lookups) - 1 && world.queries == old(world.queries) + 1
              && Told(world.env.reply(t, key), key, found, cache, addrs, ok))
    {
      var key := CacheKey(name);
      cache := world.env.interfere(world.tick, cache);
      world.tick := world.tick + 1;
      if key in cache && world.env.now(world.tick) < cache[key].expires {
        return cache[key].addrs, cache[key].ok;
      }
      if !world.env.live(world.tick) { return [], false; }
      var allowed := budget.Spend();
      if !allowed { return [], false; }
      world.queries := world.queries + 1;
      var reply := world.env.reply(world.tick, key);
      match reply
      case RequestGone => return [], false;
      case Delivered(outcome, at) =>
        var entry := Resolve(key, outcome, at);
        return entry.addrs, entry.ok;
    }

    method ExpandAddr(world: World, pid: PeerID, addr: Multiaddr, budget: DnsAddrBudget, room: Room, depth: nat)
      returns (out: seq<Multiaddr>, complete: bool)
      modifies this, world, budget, room
      ensures Expanded(out, complete, View(world, budget, room.left)) ==
              Expand(world.env, pid, addr, old(View(world, budget, room.left)), depth)
      decreases depth, 0
    {
      if depth <= 0 || room.left <= 0 { return [], false; }
      world.tick := world.tick + 1;
      if !world.env.live(world.tick) { return [], false; }
      var bare := SplitPeerID(world.env.decode, addr).1;
      if !ResolvableDNSAddr(bare) { return [], false; }
      ghost var entered := View(world, budget, room.left);
      assert entered == old(View(world, budget, room.left)).(tick := entered.tick);
      var results, ok := LookupName(world, bare, budget, room.left);
      out, complete := ExpandEach(world, pid, results, ok, budget, room, depth - 1);
      assert Expanded(out, complete, View(world, budget, room.left)) ==
             ExpandName(world.env, pid, CacheKey(bare), entered, depth - 1);
    }

    /** The loop of `expand` over what one lookup returned. */
    method ExpandEach(world: World, pid: PeerID, results: seq<Multiaddr>, ok: bool, budget: DnsAddrBudget, room: Room, depth: nat)
      returns (out: seq<Multiaddr>, complete: bool)
      modifies this, world, budget, room
      ensures Expanded(out, complete, View(world, budget, room.left)) ==
              ExpandResults(world.env, pid, results, ok, old(View(world, budget, room.left)), depth)
      decreases depth, 2
    {
      out, complete := [], ok;
      ghost var all := ExpandResults(world.env, pid, results, ok, View(world, budget, room.left), depth);
      ghost var s := View(world, budget, room.left);
      for i := 0 to |results|
        invariant s == View(world, budget, room.left)
        invariant all == Then(out, ExpandResults(world.env, pid, results[i..], complete, s, depth))
      {
        NextEntry(world.env, pid, results, i, complete, s, depth);
        ThenNothing(out, false, s);
        if room.left <= 0 { return out, false; }
        var found, whole := ExpandEntry(world, pid, results[i], budget, room, depth);
        s := View(world, budget, room.left);
        complete := complete && whole;
        ThenThen(out, found, ExpandResults(world.env, pid, results[i + 1..], complete, s, depth));
        out := out + found;
      }
      ThenNothing(out, complete, s);
    }

    /** The body of that loop. */
    method ExpandEntry(world: World, pid: PeerID, entry: Multiaddr, budget: DnsAddrBudget, room: Room, depth: nat)
      returns (found: seq<Multiaddr>, whole: bool)
      requires room.left > 0
      modifies this, world, budget, room
      ensures Expanded(found, whole, View(world, budget, room.left)) ==
              OneEntry(world.env, pid, entry, old(View(world, budget, room.left)), depth)
      decreases depth, 1
    {
      var (id, rest) := SplitPeerID(world.env.decode, entry);
      if id != "" && id != pid { return [], true; }
      if |rest| == 0 { return [], true; }
      if IsDNSAddr(rest) {
        found, whole := ExpandAddr(world, pid, rest, budget, room, depth);
        return;
      }
      room.left := room.left - 1;
      return [rest], true;
    }

    /** The body of that loop. `seen` holds the renderings already in `out`. */
    method ResolveOne(world: World, pid: PeerID, addr: Multiaddr, budget: DnsAddrBudget, room: Room, keepOriginal: bool,
                      out: seq<Multiaddr>, seen: set<string>)
      returns (out': seq<Multiaddr>, seen': set<string>)
      requires seen == Renderings(out)
      modifies this, world, budget, room
      ensures var s := old(View(world, budget, room.left));
        && out' == AppendAll(out, Offer(world.env, pid, addr, s, keepOriginal))
        && View(world, budget, room.left) == if Own(world.env, pid, addr) then ExpansionOf(world.env, pid, addr, s).s else s
      ensures seen' == Renderings(out')
    {
      if !IsDNSAddr(addr) {
        var appended: bool;
        out', seen', appended := AppendUnique(out, seen, addr);
        return;
      }
      var id := SplitPeerID(world.env.decode, addr).0;
      if id != "" && id != pid { return out, seen; }
      var resolved, complete := ExpandAddr(world, pid, addr, budget, room, RECURSION_LIMIT);
      out', seen' := AppendUniques(out, seen, resolved);
      if keepOriginal || !complete || |resolved| == 0 {
        AppendAllConcat(out, resolved, [addr]);
        var appended: bool;
        out', seen', appended := AppendUnique(out', seen', addr);
      } else {
        assert resolved + [] == resolved;
      }
    }

    /** Resolves every /dnsaddr of a record. */
    method ResolveAddrs(world: World, pid: PeerID, addrs: seq<Multiaddr>, budget: DnsAddrBudget, keepOriginal: bool)
      returns (out: seq<Multiaddr>)
      modifies this, world, budget
      ensures out == Resolved(world.env, pid, addrs, old(View(world, budget, 100)), keepOriginal)
      ensures View(world, budget, 100) ==
              AfterResolving(world.env, pid, addrs, old(View(world, budget, 100)))
      ensures |out| <= |addrs| + 100
      ensures world.queries - old(world.queries) == old(budget.lookups) - budget.lookups >= 0
    {
      ResolvedIsBounded(world.env, pid, addrs, View(world, budget, MAX_RESOLVED_PER_RECORD), keepOriginal);
      if !ContainsDNSAddr(addrs) { return addrs; }
      out := [];
      var seen: set<string> := {};
      var room := new Room(MAX_RESOLVED_PER_RECORD);
      ghost var start := View(world, budget, MAX_RESOLVED_PER_RECORD);
      for i := 0 to |addrs|
        invariant seen == Renderings(out)
        invariant View(world, budget, room.left) == StateAt(world.env, pid, addrs, start, i)
        invariant out == AppendAll([], Offered(world.env, pid, addrs, start, keepOriginal, i))
      {
        OneMoreOffer(world.env, pid, addrs, start, keepOriginal, i);
        AppendAllConcat([], Offered(world.env, pid, addrs, start, keepOriginal, i),
                        Offer(world.env, pid, addrs[i], View(world, budget, room.left), keepOriginal));
        out, seen := ResolveOne(world, pid, addrs[i], budget, room, keepOriginal, out, seen);
      }
    }
  }
}
