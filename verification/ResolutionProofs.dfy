/** What resolving a record keeps, adds and drops. */
module ResolutionProofs {
  import opened Multiaddrs
  import opened Attribution
  import opened DnsCache
  import opened CacheKeys
  import opened Expansion
  import opened ExpansionProofs
  import opened Resolution

  ghost predicate Distinct(addrs: seq<Multiaddr>) {
    forall i, j | 0 <= i < j < |addrs| :: String(addrs[i]) != String(addrs[j])
  }

  /** Something rendered like `a` is there. */
  ghost predicate Has(addrs: seq<Multiaddr>, a: Multiaddr) {
    String(a) in Renderings(addrs)
  }

  // ---- Appending without repeats ----

  function AppendOne(out: seq<Multiaddr>, a: Multiaddr): seq<Multiaddr> {
    if a == [] || String(a) in Renderings(out) then out else out + [a]
  }

  lemma AppendOneHas(out: seq<Multiaddr>, a: Multiaddr)
    requires a != []
    ensures Has(AppendOne(out, a), a)
  {
    if String(a) !in Renderings(out) { assert a in out + [a]; }
  }

  lemma RenderingsGrow(a: seq<Multiaddr>, b: seq<Multiaddr>)
    requires a <= b
    ensures Renderings(a) <= Renderings(b)
  {
    forall x | x in a ensures x in b { var i :| 0 <= i < |a| && a[i] == x; assert b[i] == x; }
  }

  lemma {:induction false} AppendAllBasics(out: seq<Multiaddr>, more: seq<Multiaddr>)
    ensures var r := AppendAll(out, more);
      && out <= r && |r| <= |out| + |more|
      && (forall a | a in r :: a in out || a in more)
      && (forall a | a in more && a != [] :: Has(r, a))
    decreases |more|
  {
    if more != [] {
      var next := AppendOne(out, more[0]);
      AppendAllBasics(next, more[1..]);
      RenderingsGrow(next, AppendAll(next, more[1..]));
      if more[0] != [] { AppendOneHas(out, more[0]); }
      assert forall a | a in more :: a == more[0] || a in more[1..];
    }
  }

  lemma {:induction false} AppendAllDistinct(out: seq<Multiaddr>, more: seq<Multiaddr>)
    requires Distinct(out)
    ensures Distinct(AppendAll(out, more))
    decreases |more|
  {
    if more != [] {
      var next := AppendOne(out, more[0]);
      forall i, j | 0 <= i < j < |next| ensures String(next[i]) != String(next[j]) {
        if j == |out| { assert next[i] in out; }
      }
      AppendAllDistinct(next, more[1..]);
    }
  }

  // ---- The offers ----

  lemma {:induction false} StateAtFacts(env: Env, zone: string -> seq<Multiaddr>, pid: PeerID, addrs: seq<Multiaddr>, s: State, i: nat)
    requires Honest(env, zone) && Consistent(zone, s.cache) && i <= |addrs|
    ensures Consistent(zone, StateAt(env, pid, addrs, s, i).cache)
  {
    if i > 0 {
      StateAtFacts(env, zone, pid, addrs, s, i - 1);
      ExpandSound(env, zone, pid, addrs[i - 1], StateAt(env, pid, addrs, s, i - 1), RECURSION_LIMIT);
    }
  }

  lemma OfferAccounts(env: Env, pid: PeerID, addr: Multiaddr, s: State, keep: bool)
    ensures var t := if Own(env, pid, addr) then ExpansionOf(env, pid, addr, s).s else s;
      && |Offer(env, pid, addr, s, keep)| + t.room <= 1 + s.room
      && t.queries - s.queries == s.lookups - t.lookups >= 0
  {
    ExpandAccounts(env, pid, addr, s, RECURSION_LIMIT);
  }

  lemma {:induction false} OffersAccount(env: Env, pid: PeerID, addrs: seq<Multiaddr>, s: State, keep: bool, n: nat)
    requires n <= |addrs|
    ensures var t := StateAt(env, pid, addrs, s, n);
      && |Offered(env, pid, addrs, s, keep, n)| + t.room <= n + s.room
      && t.queries - s.queries == s.lookups - t.lookups >= 0
  {
    if n > 0 {
      OffersAccount(env, pid, addrs, s, keep, n - 1);
      OneMoreOffer(env, pid, addrs, s, keep, n - 1);
      OfferAccounts(env, pid, addrs[n - 1], StateAt(env, pid, addrs, s, n - 1), keep);
    }
  }

  lemma {:induction false} ConcatIn(parts: seq<seq<Multiaddr>>, i: nat, a: Multiaddr)
    requires i < |parts| && a in parts[i]
    ensures a in Concat(parts)
  {
    if i < |parts| - 1 { ConcatIn(parts[..|parts| - 1], i, a); }
  }

  lemma {:induction false} ConcatFrom(parts: seq<seq<Multiaddr>>, a: Multiaddr) returns (i: nat)
    requires a in Concat(parts)
    ensures i < |parts| && a in parts[i]
  {
    var init := parts[..|parts| - 1];
    if a in Concat(init) {
      i := ConcatFrom(init, a);
    } else {
      i := |parts| - 1;
    }
  }

  lemma {:induction false} ConcatGrows(x: seq<seq<Multiaddr>>, y: seq<seq<Multiaddr>>)
    requires x <= y
    ensures Concat(x) <= Concat(y)
    decreases |y|
  {
    if x != y { ConcatGrows(x, y[..|y| - 1]); }
  }

  lemma OfferIn(env: Env, pid: PeerID, addrs: seq<Multiaddr>, s: State, keep: bool, i: nat, n: nat, a: Multiaddr)
    requires i < n <= |addrs| && a in OfferAt(env, pid, addrs, s, keep, i)
    ensures a in Offered(env, pid, addrs, s, keep, n)
  {
    ConcatIn(Offers(env, pid, addrs, s, keep, n), i, a);
  }

  lemma OfferFrom(env: Env, pid: PeerID, addrs: seq<Multiaddr>, s: State, keep: bool, n: nat, a: Multiaddr) returns (i: nat)
    requires n <= |addrs| && a in Offered(env, pid, addrs, s, keep, n)
    ensures i < n && a in OfferAt(env, pid, addrs, s, keep, i)
  {
    i := ConcatFrom(Offers(env, pid, addrs, s, keep, n), a);
  }

  lemma OfferReachesResponse(env: Env, pid: PeerID, addrs: seq<Multiaddr>, s: State, keep: bool, i: nat, a: Multiaddr)
    requires ContainsDNSAddr(addrs) && i < |addrs| && a != [] && a in OfferAt(env, pid, addrs, s, keep, i)
    ensures Has(Resolved(env, pid, addrs, s, keep), a)
  {
    OfferIn(env, pid, addrs, s, keep, i, |addrs|, a);
    AppendAllBasics([], Offered(env, pid, addrs, s, keep, |addrs|));
  }

  // ---- Main results ----

  /** A record gains at most the room it was given, and spends exactly the budget it queries for. Its
      addresses come out without repeats exactly when a /dnsaddr made the resolver rebuild the list or
      there were none to begin with. */
  lemma ResolvedIsBounded(env: Env, pid: PeerID, addrs: seq<Multiaddr>, s: State, keep: bool)
    ensures var out := Resolved(env, pid, addrs, s, keep);
      && |out| <= |addrs| + s.room
      && (Distinct(out) <==> ContainsDNSAddr(addrs) || Distinct(addrs))
    ensures var t := AfterResolving(env, pid, addrs, s);
      t.queries - s.queries == s.lookups - t.lookups >= 0
  {
    OffersAccount(env, pid, addrs, s, keep, |addrs|);
    var offered := Offered(env, pid, addrs, s, keep, |addrs|);
    AppendAllBasics([], offered);
    AppendAllDistinct([], offered);
  }

  lemma OwnNamesThis(env: Env, pid: PeerID, a: Multiaddr)
    ensures Own(env, pid, a) <==> NamesThis(env.decode, pid, a)
  {
    SplitPublishes(env.decode, pid, a, SplitPeerID(env.decode, a).1);
  }

  lemma ExpansionHoldsAllItLeadsTo(decode: string -> Option<PeerID>, zone: string -> seq<Multiaddr>, pid: PeerID, addr: Multiaddr, all: seq<Multiaddr>, o: Multiaddr, depth: nat)
    requires IsExpansion(decode, zone, pid, addr, all) && LeadsTo(decode, zone, pid, addr, o, depth)
    ensures o in all
  {
    var d: nat :| Refer(decode, zone, pid, addr, d).whole && Refer(decode, zone, pid, addr, d).out == all;
    var more := if d <= depth then depth else d;
    LeadsFurther(decode, zone, pid, addr, o, depth, more);
    ReferIsWhatItLeadsTo(decode, zone, pid, addr, more, o);
    ReferStable(decode, zone, pid, addr, d, more);
  }

  /** No provider is lost: what is not a /dnsaddr survives, and a /dnsaddr that names no other peer
      survives, or it leads somewhere and everything it leads to, by any number of names, is in the
      response. */
  lemma NoProviderLost(env: Env, zone: string -> seq<Multiaddr>, pid: PeerID, addrs: seq<Multiaddr>, s: State, keep: bool, i: nat)
    requires Honest(env, zone) && Consistent(zone, s.cache) && i < |addrs| && addrs[i] != []
    ensures var out := Resolved(env, pid, addrs, s, keep);
      && (!IsDNSAddr(addrs[i]) ==> Has(out, addrs[i]))
      && (NamesThis(env.decode, pid, addrs[i]) ==>
            || Has(out, addrs[i])
            || (exists all :: && IsExpansion(env.decode, zone, pid, addrs[i], all) && all != []
                              && (forall o, d: nat | LeadsTo(env.decode, zone, pid, addrs[i], o, d) :: o in all)
                              && forall a | a in all :: Has(out, a)))
  {
    var out := Resolved(env, pid, addrs, s, keep);
    OwnNamesThis(env, pid, addrs[i]);
    if !ContainsDNSAddr(addrs) {
      assert addrs[i] in addrs;
    } else if !IsDNSAddr(addrs[i]) {
      OfferReachesResponse(env, pid, addrs, s, keep, i, addrs[i]);
    } else if Own(env, pid, addrs[i]) {
      var before := StateAt(env, pid, addrs, s, i);
      var e := ExpansionOf(env, pid, addrs[i], before);
      if KeepsOriginal(e, keep) {
        OfferReachesResponse(env, pid, addrs, s, keep, i, addrs[i]);
      } else {
        StateAtFacts(env, zone, pid, addrs, s, i);
        CompleteIsTheExpansion(env, zone, pid, addrs[i], before, RECURSION_LIMIT);
        ExpandAccounts(env, pid, addrs[i], before, RECURSION_LIMIT);
        forall a | a in e.out ensures Has(out, a) {
          OfferReachesResponse(env, pid, addrs, s, keep, i, a);
        }
        forall o, d: nat | LeadsTo(env.decode, zone, pid, addrs[i], o, d) ensures o in e.out {
          ExpansionHoldsAllItLeadsTo(env.decode, zone, pid, addrs[i], e.out, o, d);
        }
      }
    }
  }

  /** A /dnsaddr survives only next to a reason to keep it: append mode, or an expansion that was cut
      short or came back empty; and it names no other peer. */
  lemma SurvivorHasReason(env: Env, pid: PeerID, addrs: seq<Multiaddr>, s: State, keep: bool, a: Multiaddr)
    requires IsDNSAddr(a) && a in Resolved(env, pid, addrs, s, keep)
    ensures NamesThis(env.decode, pid, a)
    ensures exists i: nat | i < |addrs| ::
      && addrs[i] == a
      && var e := Expand(env, pid, a, StateAt(env, pid, addrs, s, i), 4);
         keep || !e.complete || e.out == []
  {
    assert ContainsDNSAddr(addrs);
    AppendAllBasics([], Offered(env, pid, addrs, s, keep, |addrs|));
    var i := OfferFrom(env, pid, addrs, s, keep, |addrs|, a);
    ExpandAccounts(env, pid, addrs[i], StateAt(env, pid, addrs, s, i), RECURSION_LIMIT);
    OwnNamesThis(env, pid, a);
  }

  /** And the reason is enough: in append mode every /dnsaddr that names no other peer stays, next to what
      it was expanded to, and in any mode one whose expansion was cut short or came back empty does. */
  lemma ReasonKeeps(env: Env, pid: PeerID, addrs: seq<Multiaddr>, s: State, keep: bool, i: nat)
    requires i < |addrs| && NamesThis(env.decode, pid, addrs[i])
    ensures var e := Expand(env, pid, addrs[i], StateAt(env, pid, addrs, s, i), 4);
      var out := Resolved(env, pid, addrs, s, keep);
      && (keep || !e.complete || e.out == [] ==> Has(out, addrs[i]))
      && forall a | a in e.out :: Has(out, a)
  {
    var e := ExpansionOf(env, pid, addrs[i], StateAt(env, pid, addrs, s, i));
    OwnNamesThis(env, pid, addrs[i]);
    ExpandAccounts(env, pid, addrs[i], StateAt(env, pid, addrs, s, i), RECURSION_LIMIT);
    forall a | a in e.out ensures Has(Resolved(env, pid, addrs, s, keep), a) {
      OfferReachesResponse(env, pid, addrs, s, keep, i, a);
    }
    if keep || !e.complete || e.out == [] { OfferReachesResponse(env, pid, addrs, s, keep, i, addrs[i]); }
  }

  lemma SubsequenceMember(a: seq<Multiaddr>, b: seq<Multiaddr>, x: Multiaddr)
    requires Subsequence(a, b) && x in a
    ensures x in b
  {
    var at :| Picks(a, b, at);
    var i :| 0 <= i < |a| && a[i] == x;
    assert b[at[i]] == x;
  }

  lemma ResolvedIsNamed(env: Env, zone: string -> seq<Multiaddr>, pid: PeerID, addr: Multiaddr, s: State, keep: bool, o: Multiaddr)
    requires Honest(env, zone) && Consistent(zone, s.cache)
    requires o in Offer(env, pid, addr, s, keep) && o != addr
    ensures NamesThis(env.decode, pid, addr) && LeadsTo(env.decode, zone, pid, addr, o, RECURSION_LIMIT)
  {
    OwnNamesThis(env, pid, addr);
    ExpandSound(env, zone, pid, addr, s, RECURSION_LIMIT);
    SubsequenceMember(ExpansionOf(env, pid, addr, s).out, Refer(env.decode, zone, pid, addr, RECURSION_LIMIT).out, o);
    ReferIsWhatItLeadsTo(env.decode, zone, pid, addr, RECURSION_LIMIT, o);
  }

  /** Nothing foreign gets in: an address of the response was in the record and is not a /dnsaddr of
      another peer, or a /dnsaddr of the record that names no other peer leads to it by at most four
      names, and some TXT record publishes it, not for another peer. */
  lemma NothingForeign(env: Env, zone: string -> seq<Multiaddr>, pid: PeerID, addrs: seq<Multiaddr>, s: State, keep: bool, o: Multiaddr)
    requires Honest(env, zone) && Consistent(zone, s.cache)
    requires o in Resolved(env, pid, addrs, s, keep)
    ensures (o in addrs && (!IsDNSAddr(o) || !NamesAnother(env.decode, pid, o)))
         || (&& (exists i: nat | i < |addrs| ::
                   NamesThis(env.decode, pid, addrs[i]) && LeadsTo(env.decode, zone, pid, addrs[i], o, 4))
             && exists key, k: nat | k < |zone(key)| :: Publishes(env.decode, pid, zone(key)[k], o))
  {
    if ContainsDNSAddr(addrs) {
      AppendAllBasics([], Offered(env, pid, addrs, s, keep, |addrs|));
      var i := OfferFrom(env, pid, addrs, s, keep, |addrs|, o);
      OwnNamesThis(env, pid, addrs[i]);
      if o != addrs[i] {
        StateAtFacts(env, zone, pid, addrs, s, i);
        ResolvedIsNamed(env, zone, pid, addrs[i], StateAt(env, pid, addrs, s, i), keep, o);
        LeadsToPublished(env.decode, zone, pid, addrs[i], o, RECURSION_LIMIT);
      }
    }
  }

  lemma AppendAllGrows(x: seq<Multiaddr>, y: seq<Multiaddr>)
    requires x <= y
    ensures AppendAll([], x) <= AppendAll([], y)
  {
    assert y == x + y[|x|..];
    AppendAllConcat([], x, y[|x|..]);
    AppendAllBasics(AppendAll([], x), y[|x|..]);
  }

  lemma OfferedPrefix(env: Env, pid: PeerID, addrs: seq<Multiaddr>, s: State, keep: bool, i: nat, n: nat)
    requires i <= n <= |addrs|
    ensures AppendAll([], Offered(env, pid, addrs, s, keep, i)) <= AppendAll([], Offered(env, pid, addrs, s, keep, n))
  {
    ConcatGrows(Offers(env, pid, addrs, s, keep, i), Offers(env, pid, addrs, s, keep, n));
    AppendAllGrows(Offered(env, pid, addrs, s, keep, i), Offered(env, pid, addrs, s, keep, n));
  }

  lemma AppendLast(x: seq<Multiaddr>, a: Multiaddr)
    ensures AppendAll([], x + [a]) == AppendOne(AppendAll([], x), a)
  {
    AppendAllConcat([], x, [a]);
  }

  lemma PlainComesNext(env: Env, pid: PeerID, addrs: seq<Multiaddr>, s: State, keep: bool, i: nat)
    requires i < |addrs| && !IsDNSAddr(addrs[i])
    ensures AppendAll([], Offered(env, pid, addrs, s, keep, i + 1)) == AppendOne(AppendAll([], Offered(env, pid, addrs, s, keep, i)), addrs[i])
  {
    OneMoreOffer(env, pid, addrs, s, keep, i);
    AppendLast(Offered(env, pid, addrs, s, keep, i), addrs[i]);
  }

  /** Order: what was offered before address `i` is a prefix of the response, and an input that is not
      a /dnsaddr comes right after that prefix unless it is already in it. */
  lemma FirstOccurrenceOrder(env: Env, pid: PeerID, addrs: seq<Multiaddr>, s: State, keep: bool, i: nat)
    requires ContainsDNSAddr(addrs) && i < |addrs|
    ensures var out := Resolved(env, pid, addrs, s, keep);
      var before := AppendAll([], Offered(env, pid, addrs, s, keep, i));
      && before <= out
      && (!IsDNSAddr(addrs[i]) && addrs[i] != [] && !Has(before, addrs[i]) ==> before + [addrs[i]] <= out)
  {
    OfferedPrefix(env, pid, addrs, s, keep, i, |addrs|);
    OfferedPrefix(env, pid, addrs, s, keep, i + 1, |addrs|);
    if !IsDNSAddr(addrs[i]) { PlainComesNext(env, pid, addrs, s, keep, i); }
  }
}
