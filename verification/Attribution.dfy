/** Whom an address is published for, and what a name leads to, said of the components of the addresses
    and the entries of the zone alone. The reference expansion is proved to be exactly that. */
module Attribution {
  import opened Multiaddrs
  import opened CacheKeys
  import opened Expansion

  predicate EndsInPeer(a: Multiaddr) {
    a != [] && a[|a| - 1].proto.code == P_P2P
  }

  /** Its last component is the readable ID of another peer. */
  predicate NamesAnother(decode: string -> Option<PeerID>, pid: PeerID, a: Multiaddr) {
    EndsInPeer(a) && match decode(a[|a| - 1].value) { case Some(id) => id != "" && id != pid case None => false }
  }

  /** A /dnsaddr of this peer, or of nobody in particular. */
  predicate NamesThis(decode: string -> Option<PeerID>, pid: PeerID, a: Multiaddr) {
    HasProtocol(a, P_DNSADDR) && !NamesAnother(decode, pid, a)
  }

  /** `entry` publishes `o`, with a peer ID behind it or without, and not for another peer. */
  predicate Publishes(decode: string -> Option<PeerID>, pid: PeerID, entry: Multiaddr, o: Multiaddr) {
    && !NamesAnother(decode, pid, entry)
    && if EndsInPeer(entry) then o == entry[..|entry| - 1] else o == entry
  }

  lemma SplitPublishes(decode: string -> Option<PeerID>, pid: PeerID, entry: Multiaddr, o: Multiaddr)
    ensures var (id, rest) := SplitPeerID(decode, entry);
      rest == o && (id == "" || id == pid) <==> Publishes(decode, pid, entry, o)
  {
  }

  /** /dnsaddr/<host>, with a peer ID behind it or without. */
  predicate NamesHost(a: Multiaddr) {
    && 1 <= |a| <= 2 && a[0].proto.code == P_DNSADDR
    && (|a| == 2 ==> a[1].proto.code == P_P2P)
  }

  /** `addr` leads to `o` for `pid` by a chain of at most `depth` names: an entry of the TXT record of its
      host publishes `o`, or a /dnsaddr that leads to it. */
  ghost predicate LeadsTo(decode: string -> Option<PeerID>, zone: string -> seq<Multiaddr>, pid: PeerID, addr: Multiaddr, o: Multiaddr, depth: nat)
    decreases depth, 1
  {
    && depth > 0 && NamesHost(addr)
    && var entries := zone(CacheKey([addr[0]]));
      exists k: nat | k < |entries| :: EntryLeadsTo(decode, zone, pid, entries[k], o, depth - 1)
  }

  ghost predicate EntryLeadsTo(decode: string -> Option<PeerID>, zone: string -> seq<Multiaddr>, pid: PeerID, entry: Multiaddr, o: Multiaddr, depth: nat)
    decreases depth, 2
  {
    exists a :: Publishes(decode, pid, entry, a) && a != [] && if HasProtocol(a, P_DNSADDR) then LeadsTo(decode, zone, pid, a, o, depth) else o == a
  }

  lemma HostsAreResolvable(decode: string -> Option<PeerID>, addr: Multiaddr)
    ensures ResolvableDNSAddr(SplitPeerID(decode, addr).1) <==> NamesHost(addr)
    ensures NamesHost(addr) ==> SplitPeerID(decode, addr).1 == [addr[0]]
  {
  }

  lemma {:induction false} ReferIsWhatItLeadsTo(decode: string -> Option<PeerID>, zone: string -> seq<Multiaddr>, pid: PeerID, addr: Multiaddr, depth: nat, o: Multiaddr)
    ensures o in Refer(decode, zone, pid, addr, depth).out <==> LeadsTo(decode, zone, pid, addr, o, depth)
    decreases depth, 0
  {
    var bare := SplitPeerID(decode, addr).1;
    HostsAreResolvable(decode, addr);
    if depth > 0 && NamesHost(addr) {
      ReferResultsLeadTo(decode, zone, pid, zone(CacheKey(bare)), depth - 1, o);
    }
  }

  /** An expansion comes to nothing, asks nothing and costs nothing where there is no depth or room left,
      where the request is over, and for anything but /dnsaddr/<host>. */
  lemma DeadEndsCostNothing(env: Env, pid: PeerID, addr: Multiaddr, s: State, depth: nat)
    requires depth == 0 || s.room == 0 || !env.live(s.tick + 1) || !NamesHost(addr)
    ensures var e := Expand(env, pid, addr, s, depth);
      e.out == [] && !e.complete && e.s.(tick := s.tick) == s
  {
    HostsAreResolvable(env.decode, addr);
  }

  lemma {:induction false} ReferResultsLeadTo(decode: string -> Option<PeerID>, zone: string -> seq<Multiaddr>, pid: PeerID, results: seq<Multiaddr>, depth: nat, o: Multiaddr)
    ensures o in ReferResults(decode, zone, pid, results, depth).out <==>
            exists k: nat | k < |results| :: EntryLeadsTo(decode, zone, pid, results[k], o, depth)
    decreases depth, |results| + 2
  {
    if results != [] {
      ReferOneLeadsTo(decode, zone, pid, results[0], depth, o);
      ReferResultsLeadTo(decode, zone, pid, results[1..], depth, o);
      if k: nat :| k < |results| && EntryLeadsTo(decode, zone, pid, results[k], o, depth) {
        assert k > 0 ==> results[k] == results[1..][k - 1];
      }
      if k: nat :| k < |results[1..]| && EntryLeadsTo(decode, zone, pid, results[1..][k], o, depth) {
        assert results[1..][k] == results[k + 1];
      }
    }
  }

  lemma {:induction false} ReferOneLeadsTo(decode: string -> Option<PeerID>, zone: string -> seq<Multiaddr>, pid: PeerID, entry: Multiaddr, depth: nat, o: Multiaddr)
    ensures o in ReferOne(decode, zone, pid, entry, depth).out <==> EntryLeadsTo(decode, zone, pid, entry, o, depth)
    decreases depth, 1
  {
    var (id, rest) := SplitPeerID(decode, entry);
    forall a ensures rest == a && (id == "" || id == pid) <==> Publishes(decode, pid, entry, a) {
      SplitPublishes(decode, pid, entry, a);
    }
    if (id == "" || id == pid) && rest != [] && IsDNSAddr(rest) { ReferIsWhatItLeadsTo(decode, zone, pid, rest, depth, o); }
  }

  /** Whatever a name leads to stands in some TXT record, published not for another peer. */
  lemma {:induction false} LeadsToPublished(decode: string -> Option<PeerID>, zone: string -> seq<Multiaddr>, pid: PeerID, addr: Multiaddr, o: Multiaddr, depth: nat)
    requires LeadsTo(decode, zone, pid, addr, o, depth)
    ensures exists key, k: nat | k < |zone(key)| :: Publishes(decode, pid, zone(key)[k], o)
    decreases depth
  {
    var entries := zone(CacheKey([addr[0]]));
    var k: nat :| k < |entries| && EntryLeadsTo(decode, zone, pid, entries[k], o, depth - 1);
    var a :| Publishes(decode, pid, entries[k], a) && a != [] && if HasProtocol(a, P_DNSADDR) then LeadsTo(decode, zone, pid, a, o, depth - 1) else o == a;
    if HasProtocol(a, P_DNSADDR) { LeadsToPublished(decode, zone, pid, a, o, depth - 1); }
  }

  lemma {:induction false} LeadsFurther(decode: string -> Option<PeerID>, zone: string -> seq<Multiaddr>, pid: PeerID, addr: Multiaddr, o: Multiaddr, depth: nat, more: nat)
    requires LeadsTo(decode, zone, pid, addr, o, depth) && depth <= more
    ensures LeadsTo(decode, zone, pid, addr, o, more)
    decreases depth, 0
  {
    var entries := zone(CacheKey([addr[0]]));
    var k: nat :| k < |entries| && EntryLeadsTo(decode, zone, pid, entries[k], o, depth - 1);
    EntryLeadsFurther(decode, zone, pid, entries[k], o, depth - 1, more - 1);
  }

  lemma {:induction false} EntryLeadsFurther(decode: string -> Option<PeerID>, zone: string -> seq<Multiaddr>, pid: PeerID, entry: Multiaddr, o: Multiaddr, depth: nat, more: nat)
    requires EntryLeadsTo(decode, zone, pid, entry, o, depth) && depth <= more
    ensures EntryLeadsTo(decode, zone, pid, entry, o, more)
    decreases depth, 1
  {
    var a :| Publishes(decode, pid, entry, a) && a != [] && if HasProtocol(a, P_DNSADDR) then LeadsTo(decode, zone, pid, a, o, depth) else o == a;
    if HasProtocol(a, P_DNSADDR) { LeadsFurther(decode, zone, pid, a, o, depth, more); }
  }
}
