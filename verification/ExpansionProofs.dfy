/** What the limits, the cache and failures can and cannot do to an expansion. */
module ExpansionProofs {
  import opened Multiaddrs
  import opened CacheKeys
  import opened DnsCache
  import opened Expansion

  // ---- Subsequences ----

  lemma SubsequenceEmpty(b: seq<Multiaddr>)
    ensures Subsequence([], b)
  {
    assert Picks([], b, []);
  }

  lemma SubsequenceConcat(a: seq<Multiaddr>, b: seq<Multiaddr>, c: seq<Multiaddr>, d: seq<Multiaddr>)
    requires Subsequence(a, b) && Subsequence(c, d)
    ensures Subsequence(a + c, b + d)
  {
    var f :| Picks(a, b, f);
    var g :| Picks(c, d, g);
    assert Picks(a + c, b + d, f + seq(|g|, i requires 0 <= i < |g| => |b| + g[i]));
  }

  lemma SubsequenceRefl(a: seq<Multiaddr>)
    ensures Subsequence(a, a)
  {
    assert Picks(a, a, seq(|a|, i => i));
  }

  // ---- Accounting ----

  lemma LookupAccounts(env: Env, key: string, s: State)
    ensures var l := Lookup(env, key, s);
      && l.s.room == s.room && l.s.tick > s.tick
      && l.s.queries - s.queries == s.lookups - l.s.lookups >= 0
  {
  }

  /** The room an expansion uses is what it returns, and it asks for exactly the queries it pays for. */
  lemma {:induction false} ExpandAccounts(env: Env, pid: PeerID, addr: Multiaddr, s: State, depth: nat)
    ensures var e := Expand(env, pid, addr, s, depth);
      && s.room - e.s.room == |e.out|
      && e.s.queries - s.queries == s.lookups - e.s.lookups >= 0
      && forall a | a in e.out :: a != [] && !IsDNSAddr(a)
    decreases depth, 1
  {
    var bare := SplitPeerID(env.decode, addr).1;
    var s1 := s.(tick := s.tick + 1);
    if depth > 0 && s.room > 0 && env.live(s1.tick) && ResolvableDNSAddr(bare) {
      ExpandNameAccounts(env, pid, CacheKey(bare), s1, depth - 1);
    }
  }

  lemma {:induction false} ExpandNameAccounts(env: Env, pid: PeerID, key: string, s: State, depth: nat)
    ensures var e := ExpandName(env, pid, key, s, depth);
      && s.room - e.s.room == |e.out|
      && e.s.queries - s.queries == s.lookups - e.s.lookups >= 0
      && forall a | a in e.out :: a != [] && !IsDNSAddr(a)
    decreases depth + 1, 0
  {
    LookupAccounts(env, key, s);
    var l := Lookup(env, key, s);
    ExpandResultsAccounts(env, pid, l.addrs, l.ok, l.s, depth);
  }

  lemma {:induction false} ExpandResultsAccounts(env: Env, pid: PeerID, results: seq<Multiaddr>, complete: bool, s: State, depth: nat)
    ensures var e := ExpandResults(env, pid, results, complete, s, depth);
      && s.room - e.s.room == |e.out|
      && e.s.queries - s.queries == s.lookups - e.s.lookups >= 0
      && forall a | a in e.out :: a != [] && !IsDNSAddr(a)
    decreases depth, |results| + 2
  {
    if results != [] && s.room > 0 {
      var (id, rest) := SplitPeerID(env.decode, results[0]);
      if (id != "" && id != pid) || rest == [] {
        ExpandResultsAccounts(env, pid, results[1..], complete, s, depth);
      } else if IsDNSAddr(rest) {
        ExpandAccounts(env, pid, rest, s, depth);
        var n := Expand(env, pid, rest, s, depth);
        ExpandResultsAccounts(env, pid, results[1..], complete && n.complete, n.s, depth);
      } else {
        ExpandResultsAccounts(env, pid, results[1..], complete, s.(room := s.room - 1), depth);
      }
    }
  }

  // ---- Soundness: limits only remove, and `complete` means nothing was removed ----

  lemma LookupSound(env: Env, zone: string -> seq<Multiaddr>, key: string, s: State)
    requires Honest(env, zone) && Consistent(zone, s.cache)
    ensures var l := Lookup(env, key, s);
      Consistent(zone, l.s.cache) && l.addrs == if l.ok then zone(key) else []
  {
    var c := env.interfere(s.tick, s.cache);
    assert Consistent(zone, c);
    var _ := env.reply(s.tick + 1, key);
  }

  /** `e`, run in `room`, is at most the reference `ref`, and all of it if it says so. */
  ghost predicate Sound(zone: string -> seq<Multiaddr>, e: Expanded, ref: Reference, room: nat) {
    && Consistent(zone, e.s.cache)
    && Subsequence(e.out, ref.out)
    && (e.complete ==> ref.whole && ref.need <= room && e.out == ref.out)
  }

  /** Whatever `complete` says, an expansion is a subsequence of the reference at the same depth; if
      it reports `complete` it is the whole reference and the recursion limit was never met. */
  lemma {:induction false} ExpandSound(env: Env, zone: string -> seq<Multiaddr>, pid: PeerID, addr: Multiaddr, s: State, depth: nat)
    requires Honest(env, zone) && Consistent(zone, s.cache)
    ensures var e := Expand(env, pid, addr, s, depth);
      var ref := Refer(env.decode, zone, pid, addr, depth);
      && Consistent(zone, e.s.cache)
      && Subsequence(e.out, ref.out)
      && (e.complete ==> ref.whole && ref.need <= s.room && e.out == ref.out)
    decreases depth, 1
  {
    var bare := SplitPeerID(env.decode, addr).1;
    var s1 := s.(tick := s.tick + 1);
    SubsequenceEmpty(Refer(env.decode, zone, pid, addr, depth).out);
    if depth > 0 && s.room > 0 && env.live(s1.tick) && ResolvableDNSAddr(bare) {
      ExpandNameSound(env, zone, pid, CacheKey(bare), s1, depth - 1);
    }
  }

  lemma {:induction false} ExpandNameSound(env: Env, zone: string -> seq<Multiaddr>, pid: PeerID, key: string, s: State, depth: nat)
    requires Honest(env, zone) && Consistent(zone, s.cache) && s.room > 0
    ensures Sound(zone, ExpandName(env, pid, key, s, depth), ReferResults(env.decode, zone, pid, zone(key), depth), s.room)
    decreases depth + 1, 0
  {
    LookupSound(env, zone, key, s);
    LookupAccounts(env, key, s);
    SubsequenceEmpty(ReferResults(env.decode, zone, pid, zone(key), depth).out);
    var l := Lookup(env, key, s);
    if l.ok {
      ExpandResultsSound(env, zone, pid, l.addrs, l.ok, l.s, depth);
    }
  }

  /** What one entry found against its reference, then the rest of the loop against its own. */
  lemma SoundThen(zone: string -> seq<Multiaddr>, n: Expanded, h: Reference, r: Expanded, t: Reference, room: nat)
    requires Sound(zone, n, h, room) && Sound(zone, r, t, n.s.room) && room - n.s.room == |n.out|
    requires r.complete ==> n.complete
    ensures Sound(zone, Then(n.out, r), Reference(h.out + t.out, h.whole && t.whole, h.names + t.names, Max(h.need, |h.out| + t.need)), room)
  {
    SubsequenceConcat(n.out, h.out, r.out, t.out);
  }

  /** An entry that found `n`, given that the rest of the loop is sound. */
  lemma FoundSound(env: Env, zone: string -> seq<Multiaddr>, pid: PeerID, results: seq<Multiaddr>, complete: bool, s: State, depth: nat, n: Expanded)
    requires results != [] && s.room > 0
    requires var (id, rest) := SplitPeerID(env.decode, results[0]);
      && (id == "" || id == pid) && rest != []
      && n == if IsDNSAddr(rest) then Expand(env, pid, rest, s, depth) else Expanded([rest], true, s.(room := s.room - 1))
    requires Sound(zone, n, ReferOne(env.decode, zone, pid, results[0], depth), s.room) && s.room - n.s.room == |n.out|
    requires var r := ExpandResults(env, pid, results[1..], complete && n.complete, n.s, depth);
      && Sound(zone, r, ReferResults(env.decode, zone, pid, results[1..], depth), n.s.room)
      && (r.complete ==> complete && n.complete)
    ensures var e := ExpandResults(env, pid, results, complete, s, depth);
      && Sound(zone, e, ReferResults(env.decode, zone, pid, results, depth), s.room)
      && (e.complete ==> complete)
  {
    SoundThen(zone, n, ReferOne(env.decode, zone, pid, results[0], depth),
              ExpandResults(env, pid, results[1..], complete && n.complete, n.s, depth),
              ReferResults(env.decode, zone, pid, results[1..], depth), s.room);
  }

  lemma {:induction false} ExpandResultsSound(env: Env, zone: string -> seq<Multiaddr>, pid: PeerID, results: seq<Multiaddr>, complete: bool, s: State, depth: nat)
    requires Honest(env, zone) && Consistent(zone, s.cache)
    ensures var e := ExpandResults(env, pid, results, complete, s, depth);
      && Sound(zone, e, ReferResults(env.decode, zone, pid, results, depth), s.room)
      && (e.complete ==> complete)
    decreases depth, |results| + 2
  {
    SubsequenceEmpty(ReferResults(env.decode, zone, pid, results, depth).out);
    if results != [] && s.room > 0 {
      var (id, rest) := SplitPeerID(env.decode, results[0]);
      if (id != "" && id != pid) || rest == [] {
        ExpandResultsSound(env, zone, pid, results[1..], complete, s, depth);
        assert [] + ReferResults(env.decode, zone, pid, results[1..], depth).out == ReferResults(env.decode, zone, pid, results[1..], depth).out;
      } else if IsDNSAddr(rest) {
        var n := Expand(env, pid, rest, s, depth);
        ExpandSound(env, zone, pid, rest, s, depth);
        ExpandAccounts(env, pid, rest, s, depth);
        ExpandResultsSound(env, zone, pid, results[1..], complete && n.complete, n.s, depth);
        FoundSound(env, zone, pid, results, complete, s, depth, n);
      } else {
        var n := Expanded([rest], true, s.(room := s.room - 1));
        SubsequenceRefl([rest]);
        ExpandResultsSound(env, zone, pid, results[1..], complete, n.s, depth);
        FoundSound(env, zone, pid, results, complete, s, depth, n);
      }
    }
  }

  /** Once the recursion limit cuts nothing off, a larger one changes nothing. */
  lemma {:induction false} ReferStable(decode: string -> Option<PeerID>, zone: string -> seq<Multiaddr>, pid: PeerID, addr: Multiaddr, depth: nat, more: nat)
    requires depth <= more && Refer(decode, zone, pid, addr, depth).whole
    ensures Refer(decode, zone, pid, addr, more) == Refer(decode, zone, pid, addr, depth)
    decreases depth, 0
  {
    var bare := SplitPeerID(decode, addr).1;
    if depth > 0 {
      ReferResultsStable(decode, zone, pid, zone(CacheKey(bare)), depth - 1, more - 1);
    }
  }

  lemma {:induction false} ReferResultsStable(decode: string -> Option<PeerID>, zone: string -> seq<Multiaddr>, pid: PeerID, results: seq<Multiaddr>, depth: nat, more: nat)
    requires depth <= more && ReferResults(decode, zone, pid, results, depth).whole
    ensures ReferResults(decode, zone, pid, results, more) == ReferResults(decode, zone, pid, results, depth)
    decreases depth, |results| + 1
  {
    if results != [] {
      var (id, rest) := SplitPeerID(decode, results[0]);
      if !((id != "" && id != pid) || rest == []) && IsDNSAddr(rest) {
        ReferStable(decode, zone, pid, rest, depth, more);
      }
      ReferResultsStable(decode, zone, pid, results[1..], depth, more);
    }
  }

  lemma ExpansionUnique(decode: string -> Option<PeerID>, zone: string -> seq<Multiaddr>, pid: PeerID, addr: Multiaddr, a: seq<Multiaddr>, b: seq<Multiaddr>)
    requires IsExpansion(decode, zone, pid, addr, a) && IsExpansion(decode, zone, pid, addr, b)
    ensures a == b
  {
    var d: nat :| Refer(decode, zone, pid, addr, d).whole && Refer(decode, zone, pid, addr, d).out == a;
    var e: nat :| Refer(decode, zone, pid, addr, e).whole && Refer(decode, zone, pid, addr, e).out == b;
    if d <= e { ReferStable(decode, zone, pid, addr, d, e); } else { ReferStable(decode, zone, pid, addr, e, d); }
  }

  /** `complete` is sound: the output is the one unlimited expansion of the name, so any other complete
      run of the same name, under any honest environment and any limits, has the same output. */
  lemma CompleteIsTheExpansion(env: Env, zone: string -> seq<Multiaddr>, pid: PeerID, addr: Multiaddr, s: State, depth: nat)
    requires Honest(env, zone) && Consistent(zone, s.cache)
    requires Expand(env, pid, addr, s, depth).complete
    ensures var out := Expand(env, pid, addr, s, depth).out;
      && IsExpansion(env.decode, zone, pid, addr, out)
      && forall other | IsExpansion(env.decode, zone, pid, addr, other) :: other == out
  {
    ExpandSound(env, zone, pid, addr, s, depth);
    var out := Expand(env, pid, addr, s, depth).out;
    forall other | IsExpansion(env.decode, zone, pid, addr, other) ensures other == out {
      ExpansionUnique(env.decode, zone, pid, addr, other, out);
    }
  }

  // ---- When an expansion is complete ----

  lemma LookupHealthy(env: Env, zone: string -> seq<Multiaddr>, key: string, s: State)
    requires Honest(env, zone) && Healthy(env) && Consistent(zone, s.cache) && NoFailures(s.cache) && s.lookups > 0
    ensures var l := Lookup(env, key, s);
      && l.ok && l.addrs == zone(key) && NoFailures(l.s.cache) && Consistent(zone, l.s.cache)
      && s.lookups - l.s.lookups <= 1
  {
    LookupSound(env, zone, key, s);
    assert NoFailures(env.interfere(s.tick, s.cache));
    assert env.live(s.tick + 1) && env.reply(s.tick + 1, key).outcome.Answer?;
  }

  /** With DNS answering and a lookup for every name, an expansion is complete exactly when the
      recursion limit cuts nothing off and the room lasts to the end. */
  lemma {:induction false} CompleteExactlyWhen(env: Env, zone: string -> seq<Multiaddr>, pid: PeerID, addr: Multiaddr, s: State, depth: nat)
    requires Honest(env, zone) && Healthy(env) && Consistent(zone, s.cache) && NoFailures(s.cache)
    requires Refer(env.decode, zone, pid, addr, depth).names <= s.lookups
    ensures var e := Expand(env, pid, addr, s, depth);
      var ref := Refer(env.decode, zone, pid, addr, depth);
      && (e.complete <==> ref.whole && ref.need <= s.room)
      && (e.complete ==> NoFailures(e.s.cache) && s.lookups - e.s.lookups <= ref.names)
    decreases depth, 1
  {
    var bare := SplitPeerID(env.decode, addr).1;
    var s1 := s.(tick := s.tick + 1);
    assert env.live(s1.tick);
    if depth > 0 && s.room > 0 && ResolvableDNSAddr(bare) {
      NameCompleteWhen(env, zone, pid, CacheKey(bare), s1, depth - 1);
    }
  }

  lemma {:induction false} NameCompleteWhen(env: Env, zone: string -> seq<Multiaddr>, pid: PeerID, key: string, s: State, depth: nat)
    requires Honest(env, zone) && Healthy(env) && Consistent(zone, s.cache) && NoFailures(s.cache) && s.room > 0
    requires ReferResults(env.decode, zone, pid, zone(key), depth).names < s.lookups
    ensures var e := ExpandName(env, pid, key, s, depth);
      var ref := ReferResults(env.decode, zone, pid, zone(key), depth);
      && (e.complete <==> ref.whole && ref.need <= s.room)
      && (e.complete ==> NoFailures(e.s.cache) && s.lookups - e.s.lookups <= ref.names + 1)
    decreases depth + 1, 0
  {
    LookupHealthy(env, zone, key, s);
    LookupAccounts(env, key, s);
    ExpandNameSound(env, zone, pid, key, s, depth);
    var l := Lookup(env, key, s);
    ResultsCompleteWhen(env, zone, pid, l.addrs, l.s, depth);
  }

  lemma {:induction false} ExpandResultsCompleteIn(env: Env, pid: PeerID, results: seq<Multiaddr>, complete: bool, s: State, depth: nat)
    requires ExpandResults(env, pid, results, complete, s, depth).complete
    ensures complete
    decreases |results|
  {
    if results != [] {
      var (id, rest) := SplitPeerID(env.decode, results[0]);
      if (id != "" && id != pid) || rest == [] {
        ExpandResultsCompleteIn(env, pid, results[1..], complete, s, depth);
      } else if IsDNSAddr(rest) {
        var n := Expand(env, pid, rest, s, depth);
        ExpandResultsCompleteIn(env, pid, results[1..], complete && n.complete, n.s, depth);
      } else {
        ExpandResultsCompleteIn(env, pid, results[1..], complete, s.(room := s.room - 1), depth);
      }
    }
  }

  lemma {:induction false} ResultsCompleteWhen(env: Env, zone: string -> seq<Multiaddr>, pid: PeerID, results: seq<Multiaddr>, s: State, depth: nat)
    requires Honest(env, zone) && Healthy(env) && Consistent(zone, s.cache) && NoFailures(s.cache)
    requires ReferResults(env.decode, zone, pid, results, depth).names <= s.lookups
    ensures var e := ExpandResults(env, pid, results, true, s, depth);
      var ref := ReferResults(env.decode, zone, pid, results, depth);
      && (ref.whole && ref.need <= s.room ==> e.complete)
      && (e.complete ==> NoFailures(e.s.cache) && s.lookups - e.s.lookups <= ref.names)
    decreases depth, |results| + 2
  {
    if results != [] && s.room > 0 {
      var (id, rest) := SplitPeerID(env.decode, results[0]);
      if (id != "" && id != pid) || rest == [] {
        ResultsCompleteWhen(env, zone, pid, results[1..], s, depth);
      } else if IsDNSAddr(rest) {
        var n := Expand(env, pid, rest, s, depth);
        ExpandSound(env, zone, pid, rest, s, depth);
        ExpandAccounts(env, pid, rest, s, depth);
        CompleteExactlyWhen(env, zone, pid, rest, s, depth);
        if n.complete {
          ResultsCompleteWhen(env, zone, pid, results[1..], n.s, depth);
        } else if ExpandResults(env, pid, results[1..], false, n.s, depth).complete {
          ExpandResultsCompleteIn(env, pid, results[1..], false, n.s, depth);
        }
      } else {
        ResultsCompleteWhen(env, zone, pid, results[1..], s.(room := s.room - 1), depth);
      }
    }
  }

  // ---- Failures cost only their own part ----

  /** The cache holds a failure for the dead names and the answers of `zone` for the others. */
  ghost predicate Agrees(zone: string -> seq<Multiaddr>, dead: string -> bool, cache: Cache) {
    forall k | k in cache :: cache[k].ok == !dead(k) && cache[k].addrs == if dead(k) then [] else zone(k)
  }

  /** The request stays, and DNS answers for every name but the dead ones, for which it always fails. */
  ghost predicate FailsExactlyFor(env: Env, zone: string -> seq<Multiaddr>, dead: string -> bool) {
    && (forall t: nat :: env.live(t))
    && (forall t: nat, k :: env.reply(t, k).Delivered? &&
          if dead(k) then !env.reply(t, k).outcome.Answer? else env.reply(t, k).outcome == Answer(zone(k)))
    && (forall t: nat, c :: Agrees(zone, dead, c) ==> Agrees(zone, dead, env.interfere(t, c)))
  }

  /** `part` is the zone as if the dead names were empty. */
  ghost predicate Without(part: string -> seq<Multiaddr>, zone: string -> seq<Multiaddr>, dead: string -> bool) {
    forall k :: part(k) == if dead(k) then [] else zone(k)
  }

  /** A world in which some names fail, and the part of the zone that is left. */
  ghost predicate Partial(env: Env, zone: string -> seq<Multiaddr>, dead: string -> bool, part: string -> seq<Multiaddr>) {
    FailsExactlyFor(env, zone, dead) && Without(part, zone, dead)
  }

  lemma LookupFails(env: Env, zone: string -> seq<Multiaddr>, dead: string -> bool, part: string -> seq<Multiaddr>, key: string, s: State)
    requires Partial(env, zone, dead, part) && Agrees(zone, dead, s.cache) && s.lookups > 0
    ensures var l := Lookup(env, key, s);
      && l.addrs == part(key) && Agrees(zone, dead, l.s.cache) && l.s.room == s.room
      && s.lookups - l.s.lookups <= 1
  {
    assert Agrees(zone, dead, env.interfere(s.tick, s.cache));
    assert env.live(s.tick + 1) && env.reply(s.tick + 1, key).Delivered?;
  }

  /** The expansion is the reference over what is left, and costs no more lookups than it has names. */
  ghost predicate IsPart(zone: string -> seq<Multiaddr>, dead: string -> bool, e: Expanded, out: seq<Multiaddr>, lookups: int) {
    e.out == out && Agrees(zone, dead, e.s.cache) && e.s.lookups >= lookups
  }

  /** With room and budget enough, an expansion in which some names fail is, place by place, the reference
      without what those names stand for: the rest of the record is followed all the same. */
  lemma {:induction false} FailuresCostOnlyTheirPart(env: Env, zone: string -> seq<Multiaddr>, dead: string -> bool, part: string -> seq<Multiaddr>,
                                                     pid: PeerID, addr: Multiaddr, s: State, depth: nat)
    requires Partial(env, zone, dead, part) && Agrees(zone, dead, s.cache)
    requires var ref := Refer(env.decode, part, pid, addr, depth); ref.names <= s.lookups && ref.need <= s.room
    ensures var ref := Refer(env.decode, part, pid, addr, depth);
      IsPart(zone, dead, Expand(env, pid, addr, s, depth), ref.out, s.lookups - ref.names)
    decreases depth, 1
  {
    var bare := SplitPeerID(env.decode, addr).1;
    var s1 := s.(tick := s.tick + 1);
    assert env.live(s1.tick);
    if depth > 0 && ResolvableDNSAddr(bare) { NameCostsOnlyItsPart(env, zone, dead, part, pid, CacheKey(bare), s1, depth - 1); }
  }

  lemma {:induction false} NameCostsOnlyItsPart(env: Env, zone: string -> seq<Multiaddr>, dead: string -> bool, part: string -> seq<Multiaddr>,
                                                pid: PeerID, key: string, s: State, depth: nat)
    requires Partial(env, zone, dead, part) && Agrees(zone, dead, s.cache) && s.room > 0
    requires var ref := ReferResults(env.decode, part, pid, part(key), depth); ref.names < s.lookups && ref.need <= s.room
    ensures var ref := ReferResults(env.decode, part, pid, part(key), depth);
      IsPart(zone, dead, ExpandName(env, pid, key, s, depth), ref.out, s.lookups - ref.names - 1)
    decreases depth + 1, 0
  {
    LookupFails(env, zone, dead, part, key, s);
    var l := Lookup(env, key, s);
    ResultsCostOnlyTheirPart(env, zone, dead, part, pid, l.addrs, l.ok, l.s, depth);
  }

  lemma {:induction false} ResultsCostOnlyTheirPart(env: Env, zone: string -> seq<Multiaddr>, dead: string -> bool, part: string -> seq<Multiaddr>,
                                                    pid: PeerID, results: seq<Multiaddr>, complete: bool, s: State, depth: nat)
    requires Partial(env, zone, dead, part) && Agrees(zone, dead, s.cache)
    requires var ref := ReferResults(env.decode, part, pid, results, depth); ref.names <= s.lookups && ref.need <= s.room
    ensures var ref := ReferResults(env.decode, part, pid, results, depth);
      IsPart(zone, dead, ExpandResults(env, pid, results, complete, s, depth), ref.out, s.lookups - ref.names)
    decreases depth, |results| + 2
  {
    if results != [] {
      var (id, rest) := SplitPeerID(env.decode, results[0]);
      if (id != "" && id != pid) || rest == [] {
        ResultsCostOnlyTheirPart(env, zone, dead, part, pid, results[1..], complete, s, depth);
      } else if IsDNSAddr(rest) {
        FailuresCostOnlyTheirPart(env, zone, dead, part, pid, rest, s, depth);
        ExpandAccounts(env, pid, rest, s, depth);
        var n := Expand(env, pid, rest, s, depth);
        ResultsCostOnlyTheirPart(env, zone, dead, part, pid, results[1..], complete && n.complete, n.s, depth);
      } else {
        ResultsCostOnlyTheirPart(env, zone, dead, part, pid, results[1..], complete, s.(room := s.room - 1), depth);
      }
    }
  }

  // ---- Room: a smaller one runs a prefix of the same computation ----

  /** `a` is what is left of `b` when only `room` addresses fit: the same computation until the room
      is gone, nothing after. `extra` is the room the longer run had on top. */
  ghost predicate CutShort(a: Expanded, b: Expanded, room: nat, extra: nat) {
    && a.s.queries <= b.s.queries
    && a.out == b.out[..if room <= |b.out| then room else |b.out|]
    && (a.s.room > 0 ==> a == b.(s := b.s.(room := a.s.room)) && b.s.room == a.s.room + extra)
  }

  lemma CutThen(n: Expanded, m: Expanded, r: Expanded, q: Expanded, room: nat, extra: nat)
    requires CutShort(n, m, room, extra) && room - n.s.room == |n.out|
    requires n.s.room > 0 ==> CutShort(r, q, n.s.room, extra)
    requires n.s.room == 0 ==> r.out == [] && r.s == n.s && q.s.queries >= m.s.queries
    ensures CutShort(Then(n.out, r), Then(m.out, q), room, extra)
  {
    var a, b := Then(n.out, r), Then(m.out, q);
    if n.s.room > 0 {
      assert n.out == m.out;
      assert b.out[|n.out|..] == q.out;
    } else {
      assert a.out == n.out == m.out[..room] == b.out[..room];
    }
  }

  lemma LookupIgnoresRoom(env: Env, key: string, s: State, room: nat)
    ensures var l := Lookup(env, key, s);
      Lookup(env, key, s.(room := room)) == l.(s := l.s.(room := room))
  {
  }

  /** From the same state but for the room, the smaller room gives the first min(room, all) addresses
      of the larger one's, for no more queries: under every environment, failures and the end of
      the request included. */
  lemma {:induction false} RoomCutsAPrefix(env: Env, pid: PeerID, addr: Multiaddr, s: State, depth: nat, extra: nat)
    ensures CutShort(Expand(env, pid, addr, s, depth), Expand(env, pid, addr, s.(room := s.room + extra), depth), s.room, extra)
    decreases depth, 1, 0
  {
    var bare := SplitPeerID(env.decode, addr).1;
    var s1 := s.(tick := s.tick + 1);
    if s.room == 0 { ExpandAccounts(env, pid, addr, s.(room := extra), depth); }
    if depth > 0 && s.room > 0 && env.live(s1.tick) && ResolvableDNSAddr(bare) {
      RoomCutsName(env, pid, CacheKey(bare), s1, depth - 1, extra);
    }
  }

  lemma {:induction false} RoomCutsName(env: Env, pid: PeerID, key: string, s: State, depth: nat, extra: nat)
    ensures CutShort(ExpandName(env, pid, key, s, depth), ExpandName(env, pid, key, s.(room := s.room + extra), depth), s.room, extra)
    decreases depth + 1, 0, 0
  {
    LookupIgnoresRoom(env, key, s, s.room + extra);
    LookupAccounts(env, key, s);
    var l := Lookup(env, key, s);
    RoomCutsResultsAPrefix(env, pid, l.addrs, l.ok, l.s, depth, extra);
  }

  lemma {:induction false} RoomCutsResultsAPrefix(env: Env, pid: PeerID, results: seq<Multiaddr>, complete: bool, s: State, depth: nat, extra: nat)
    ensures CutShort(ExpandResults(env, pid, results, complete, s, depth),
                     ExpandResults(env, pid, results, complete, s.(room := s.room + extra), depth), s.room, extra)
    decreases depth, |results| + 2, 0
  {
    var big := s.(room := s.room + extra);
    if results == [] {
    } else if s.room == 0 {
      ExpandResultsAccounts(env, pid, results, complete, big, depth);
    } else {
      var (id, rest) := SplitPeerID(env.decode, results[0]);
      if (id != "" && id != pid) || rest == [] {
        RoomCutsResultsAPrefix(env, pid, results[1..], complete, s, depth, extra);
      } else if IsDNSAddr(rest) {
        RoomCutsAPrefix(env, pid, rest, s, depth, extra);
        ExpandAccounts(env, pid, rest, s, depth);
        RoomCutsThen(env, pid, Expand(env, pid, rest, s, depth), Expand(env, pid, rest, big, depth),
                     results[1..], complete, s.room, depth, extra);
      } else {
        RoomCutsThen(env, pid, Expanded([rest], true, s.(room := s.room - 1)), Expanded([rest], true, big.(room := big.room - 1)),
                     results[1..], complete, s.room, depth, extra);
      }
    }
  }

  /** One step of the loop that found `n` (`m` with more room), then the rest of the loop. */
  lemma {:induction false} RoomCutsThen(env: Env, pid: PeerID, n: Expanded, m: Expanded, results: seq<Multiaddr>, complete: bool, room: nat, depth: nat, extra: nat)
    requires CutShort(n, m, room, extra) && room - n.s.room == |n.out|
    ensures CutShort(Then(n.out, ExpandResults(env, pid, results, complete && n.complete, n.s, depth)),
                     Then(m.out, ExpandResults(env, pid, results, complete && m.complete, m.s, depth)), room, extra)
    decreases depth, |results| + 2, 1
  {
    if n.s.room > 0 {
      assert m.s == n.s.(room := n.s.room + extra) && m.complete == n.complete;
      RoomCutsResultsAPrefix(env, pid, results, complete && n.complete, n.s, depth, extra);
    } else {
      ExpandResultsAccounts(env, pid, results, complete && m.complete, m.s, depth);
    }
    CutThen(n, m, ExpandResults(env, pid, results, complete && n.complete, n.s, depth),
            ExpandResults(env, pid, results, complete && m.complete, m.s, depth), room, extra);
  }

  // ---- Complete runs do not depend on the limits ----

  function Grow(s: State, room: nat, lookups: nat): State {
    s.(room := s.room + room, lookups := s.lookups + lookups)
  }

  lemma LookupIgnoresLimits(env: Env, key: string, s: State, room: nat, lookups: nat)
    requires Lookup(env, key, s).ok
    ensures var l := Lookup(env, key, s);
      Lookup(env, key, Grow(s, room, lookups)) == l.(s := Grow(l.s, room, lookups))
  {
  }

  /** A complete run stays the same run, observation by observation, under every larger depth, room
      and budget. */
  lemma {:induction false} CompleteIgnoresLimits(env: Env, pid: PeerID, addr: Multiaddr, s: State, depth: nat, deeper: nat, room: nat, lookups: nat)
    requires Expand(env, pid, addr, s, depth).complete && depth <= deeper
    ensures var e := Expand(env, pid, addr, s, depth);
      Expand(env, pid, addr, Grow(s, room, lookups), deeper) == e.(s := Grow(e.s, room, lookups))
    decreases depth, 1
  {
    var bare := SplitPeerID(env.decode, addr).1;
    var s1 := s.(tick := s.tick + 1);
    assert Grow(s, room, lookups).(tick := s.tick + 1) == Grow(s1, room, lookups);
    NameIgnoresLimits(env, pid, CacheKey(bare), s1, depth - 1, deeper - 1, room, lookups);
  }

  lemma {:induction false} NameIgnoresLimits(env: Env, pid: PeerID, key: string, s: State, depth: nat, deeper: nat, room: nat, lookups: nat)
    requires ExpandName(env, pid, key, s, depth).complete && depth <= deeper
    ensures var e := ExpandName(env, pid, key, s, depth);
      ExpandName(env, pid, key, Grow(s, room, lookups), deeper) == e.(s := Grow(e.s, room, lookups))
    decreases depth + 1, 0
  {
    var l := Lookup(env, key, s);
    ExpandResultsCompleteIn(env, pid, l.addrs, l.ok, l.s, depth);
    LookupIgnoresLimits(env, key, s, room, lookups);
    ResultsIgnoreLimits(env, pid, l.addrs, l.ok, l.s, depth, deeper, room, lookups);
  }

  /** One entry that found `n`, and `m` under larger limits, before rests that agree. */
  lemma FoundIgnoresLimits(env: Env, pid: PeerID, results: seq<Multiaddr>, complete: bool, s: State, depth: nat, deeper: nat, room: nat, lookups: nat,
                           n: Expanded, m: Expanded)
    requires results != [] && s.room > 0
    requires var (id, rest) := SplitPeerID(env.decode, results[0]);
      && (id == "" || id == pid) && rest != []
      && n == (if IsDNSAddr(rest) then Expand(env, pid, rest, s, depth) else Expanded([rest], true, s.(room := s.room - 1)))
      && m == (if IsDNSAddr(rest) then Expand(env, pid, rest, Grow(s, room, lookups), deeper)
               else Expanded([rest], true, Grow(s, room, lookups).(room := s.room + room - 1)))
    requires m == n.(s := Grow(n.s, room, lookups))
    requires var r := ExpandResults(env, pid, results[1..], complete && n.complete, n.s, depth);
      ExpandResults(env, pid, results[1..], complete && m.complete, m.s, deeper) == r.(s := Grow(r.s, room, lookups))
    ensures var e := ExpandResults(env, pid, results, complete, s, depth);
      ExpandResults(env, pid, results, complete, Grow(s, room, lookups), deeper) == e.(s := Grow(e.s, room, lookups))
  {
  }

  lemma {:induction false} ResultsIgnoreLimits(env: Env, pid: PeerID, results: seq<Multiaddr>, complete: bool, s: State, depth: nat, deeper: nat, room: nat, lookups: nat)
    requires ExpandResults(env, pid, results, complete, s, depth).complete && depth <= deeper
    ensures var e := ExpandResults(env, pid, results, complete, s, depth);
      ExpandResults(env, pid, results, complete, Grow(s, room, lookups), deeper) == e.(s := Grow(e.s, room, lookups))
    decreases depth, |results| + 2
  {
    if results != [] {
      var (id, rest) := SplitPeerID(env.decode, results[0]);
      if (id != "" && id != pid) || rest == [] {
        ResultsIgnoreLimits(env, pid, results[1..], complete, s, depth, deeper, room, lookups);
      } else if IsDNSAddr(rest) {
        var n := Expand(env, pid, rest, s, depth);
        ExpandResultsCompleteIn(env, pid, results[1..], complete && n.complete, n.s, depth);
        CompleteIgnoresLimits(env, pid, rest, s, depth, deeper, room, lookups);
        ResultsIgnoreLimits(env, pid, results[1..], complete && n.complete, n.s, depth, deeper, room, lookups);
        FoundIgnoresLimits(env, pid, results, complete, s, depth, deeper, room, lookups, n, Expand(env, pid, rest, Grow(s, room, lookups), deeper));
      } else {
        var s1 := s.(room := s.room - 1);
        ResultsIgnoreLimits(env, pid, results[1..], complete, s1, depth, deeper, room, lookups);
        var n := Expanded([rest], true, s1);
        FoundIgnoresLimits(env, pid, results, complete, s, depth, deeper, room, lookups, n, n.(s := Grow(s1, room, lookups)));
      }
    }
  }
}
