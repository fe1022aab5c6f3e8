/** The bounded expansion of a /dnsaddr as a function of an environment script, and the simple
    expansion without room, budget, cache or failures that it is measured against. */
module Expansion {
  import opened Multiaddrs
  import opened CacheKeys
  import opened DnsCache

  /** What a request that waits for a query sees: its result, or its own end. */
  datatype Reply = Delivered(outcome: Outcome, at: int) | RequestGone

  /** Everything the algorithm reads from outside, indexed by the number of observations made so far.
      `interfere` is what the other requests and the LRU did to the cache since the last one. */
  datatype Env = Env(
    decode: string -> Option<PeerID>,
    live: nat -> bool,
    now: nat -> int,
    interfere: (nat, Cache) -> Cache,
    reply: (nat, string) -> Reply)

  /** `lookups` is what the request may still spend, `room` what the record may still gain,
      `queries` counts the queries asked for. */
  datatype State = State(cache: Cache, lookups: nat, room: nat, tick: nat, queries: nat)

  datatype LookupResult = LookupResult(addrs: seq<Multiaddr>, ok: bool, s: State)

  datatype Expanded = Expanded(out: seq<Multiaddr>, complete: bool, s: State)

  function Lookup(env: Env, key: string, s: State): LookupResult {
    var s := s.(cache := env.interfere(s.tick, s.cache), tick := s.tick + 1);
    if key in s.cache && env.now(s.tick) < s.cache[key].expires then
      LookupResult(s.cache[key].addrs, s.cache[key].ok, s)
    else if !env.live(s.tick) || s.lookups == 0 then
      LookupResult([], false, s)
    else
      var s := s.(lookups := s.lookups - 1, queries := s.queries + 1);
      match env.reply(s.tick, key)
      case RequestGone => LookupResult([], false, s)
      case Delivered(outcome, at) =>
        var entry := EntryFor(outcome, at);
        LookupResult(entry.addrs, entry.ok, s.(cache := s.cache[key := entry]))
  }

  function Expand(env: Env, pid: PeerID, addr: Multiaddr, s: State, depth: nat): Expanded
    decreases depth, 1
  {
    if depth == 0 || s.room == 0 then Expanded([], false, s)
    else
      var s := s.(tick := s.tick + 1);
      var bare := SplitPeerID(env.decode, addr).1;
      if !env.live(s.tick) || !ResolvableDNSAddr(bare) then Expanded([], false, s)
      else
        ExpandName(env, pid, CacheKey(bare), s, depth - 1)
  }

  function ExpandName(env: Env, pid: PeerID, key: string, s: State, depth: nat): Expanded
    decreases depth + 1, 0
  {
    var l := Lookup(env, key, s);
    ExpandResults(env, pid, l.addrs, l.ok, l.s, depth)
  }

  /** What `n` found, followed by the rest of the loop. */
  function Then(n: seq<Multiaddr>, r: Expanded): Expanded {
    r.(out := n + r.out)
  }

  /** The loop over the results of one lookup; nested names get `depth`. */
  function ExpandResults(env: Env, pid: PeerID, results: seq<Multiaddr>, complete: bool, s: State, depth: nat): Expanded
    decreases depth, |results| + 2
  {
    if results == [] then Expanded([], complete, s)
    else if s.room == 0 then Expanded([], false, s)
    else
      var (id, rest) := SplitPeerID(env.decode, results[0]);
      if (id != "" && id != pid) || rest == [] then
        ExpandResults(env, pid, results[1..], complete, s, depth)
      else if IsDNSAddr(rest) then
        var n := Expand(env, pid, rest, s, depth);
        var r := ExpandResults(env, pid, results[1..], complete && n.complete, n.s, depth);
        Then(n.out, r)
      else
        var r := ExpandResults(env, pid, results[1..], complete, s.(room := s.room - 1), depth);
        Then([rest], r)
  }

  // ---- The reference ----

  /** `whole` is false when the recursion limit or an address that no TXT record can answer cut
      something off; `names` counts the lookups; `need` is the room to look at every entry, which is
      one more than the output when a discarded entry comes last. */
  datatype Reference = Reference(out: seq<Multiaddr>, whole: bool, names: nat, need: nat)

  function Max(a: nat, b: nat): nat {
    if a < b then b else a
  }

  /** What `addr` names for `pid` in a world where DNS always answers, following at most `depth` names. */
  function Refer(decode: string -> Option<PeerID>, zone: string -> seq<Multiaddr>, pid: PeerID, addr: Multiaddr, depth: nat): (r: Reference)
    ensures r.need >= 1
    decreases depth, 0
  {
    var bare := SplitPeerID(decode, addr).1;
    if depth == 0 || !ResolvableDNSAddr(bare) then Reference([], false, 0, 1)
    else
      var r := ReferResults(decode, zone, pid, zone(CacheKey(bare)), depth - 1);
      r.(names := r.names + 1, need := Max(1, r.need))
  }

  function ReferResults(decode: string -> Option<PeerID>, zone: string -> seq<Multiaddr>, pid: PeerID, results: seq<Multiaddr>, depth: nat): Reference
    decreases depth, |results| + 1
  {
    if results == [] then Reference([], true, 0, 0)
    else
      var h := ReferOne(decode, zone, pid, results[0], depth);
      var t := ReferResults(decode, zone, pid, results[1..], depth);
      Reference(h.out + t.out, h.whole && t.whole, h.names + t.names, Max(h.need, |h.out| + t.need))
  }

  /** What one entry of a TXT record contributes: nothing if it names another peer. */
  function ReferOne(decode: string -> Option<PeerID>, zone: string -> seq<Multiaddr>, pid: PeerID, entry: Multiaddr, depth: nat): (r: Reference)
    ensures r.need >= 1
    decreases depth, 1
  {
    var (id, rest) := SplitPeerID(decode, entry);
    if (id != "" && id != pid) || rest == [] then Reference([], true, 0, 1)
    else if IsDNSAddr(rest) then Refer(decode, zone, pid, rest, depth)
    else Reference([rest], true, 0, 1)
  }

  /** `out` is the unlimited expansion of `addr`: some finite depth follows every name to its end. */
  ghost predicate IsExpansion(decode: string -> Option<PeerID>, zone: string -> seq<Multiaddr>, pid: PeerID, addr: Multiaddr, out: seq<Multiaddr>) {
    exists depth: nat :: Refer(decode, zone, pid, addr, depth).whole && Refer(decode, zone, pid, addr, depth).out == out
  }

  /** DNS answers are stable and nobody puts anything else into the cache. Lookups may still fail,
      and the request may end, at any observation. */
  ghost predicate Honest(env: Env, zone: string -> seq<Multiaddr>) {
    && (forall t: nat, k :: env.reply(t, k).Delivered? && env.reply(t, k).outcome.Answer? ==>
          env.reply(t, k).outcome.addrs == zone(k))
    && (forall t: nat, c :: Consistent(zone, c) ==> Consistent(zone, env.interfere(t, c)))
  }

  ghost predicate NoFailures(cache: Cache) {
    forall k | k in cache :: cache[k].ok
  }

  /** The request stays, DNS answers everything, and no failure is cached. */
  ghost predicate Healthy(env: Env) {
    && (forall t: nat :: env.live(t))
    && (forall t: nat, k :: env.reply(t, k).Delivered? && env.reply(t, k).outcome.Answer?)
    && (forall t: nat, c :: NoFailures(c) ==> NoFailures(env.interfere(t, c)))
  }

  /** `a` is what stands in `b` at the places `at`, in their order. */
  ghost predicate Picks(a: seq<Multiaddr>, b: seq<Multiaddr>, at: seq<nat>) {
    && |at| == |a|
    && (forall i, j | 0 <= i < j < |at| :: at[i] < at[j])
    && (forall i | 0 <= i < |at| :: at[i] < |b| && b[at[i]] == a[i])
  }

  /** The order-keeping sub-list relation. */
  ghost predicate Subsequence(a: seq<Multiaddr>, b: seq<Multiaddr>) {
    exists at :: Picks(a, b, at)
  }
}
