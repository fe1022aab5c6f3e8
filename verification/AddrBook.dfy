/** The cached address book: its event handlers, updated in place, each stated by the TTL every single
    address ends up with. */
module AddrBook {
  import opened Multiaddrs
  import opened AddrTables
  import opened Backoff

  datatype Connectedness = NotConnected | Connected | CanConnect | CannotConnect | Limited

  predicate HasValidConnectedness(c: Connectedness) {
    c == Connected || c == Limited
  }

  datatype Direction = Unknown | Inbound | Outbound

  datatype Conn = Conn(direction: Direction, remote: Multiaddr)

  function Only(addrs: seq<Multiaddr>, relay: bool): seq<Multiaddr> {
    if addrs == [] then []
    else
      var n := |addrs| - 1;
      Only(addrs[..n], relay) + if IsRelayAddr(addrs[n]) == relay then [addrs[n]] else []
  }

  lemma {:induction false} OnlyKeeps(addrs: seq<Multiaddr>, relay: bool, a: Multiaddr)
    ensures a in Only(addrs, relay) <==> a in addrs && IsRelayAddr(a) == relay
  {
    if addrs != [] {
      OnlyKeeps(addrs[..|addrs| - 1], relay, a);
      assert addrs == addrs[..|addrs| - 1] + [addrs[|addrs| - 1]];
    }
  }

  method SplitRelayAddrs(addrs: seq<Multiaddr>) returns (direct: seq<Multiaddr>, relay: seq<Multiaddr>)
    ensures direct == Only(addrs, false) && relay == Only(addrs, true)
    ensures forall a :: a in direct <==> a in addrs && !IsRelayAddr(a)
    ensures forall a :: a in relay <==> a in addrs && IsRelayAddr(a)
  {
    direct, relay := [], [];
    for i := 0 to |addrs|
      invariant direct == Only(addrs[..i], false) && relay == Only(addrs[..i], true)
    {
      assert addrs[..i + 1][..i] == addrs[..i];
      if IsRelayAddr(addrs[i]) { relay := relay + [addrs[i]]; } else { direct := direct + [addrs[i]]; }
    }
    assert addrs[..|addrs|] == addrs;
    forall a
      ensures a in direct <==> a in addrs && !IsRelayAddr(a)
      ensures a in relay <==> a in addrs && IsRelayAddr(a)
    {
      OnlyKeeps(addrs, false, a);
      OnlyKeeps(addrs, true, a);
    }
  }

  /** The remote addresses worth keeping: those of connections the peer did not open. */
  function Dialed(conns: seq<Conn>): seq<Multiaddr> {
    if conns == [] then []
    else
      var n := |conns| - 1;
      Dialed(conns[..n]) + if conns[n].direction != Inbound then [conns[n].remote] else []
  }

  /** Some open connection that the peer did not open leads to `a`. */
  ghost predicate DialedTo(conns: seq<Conn>, a: Multiaddr) {
    exists c | c in conns :: c.remote == a && (c.direction == Outbound || c.direction == Unknown)
  }

  lemma {:induction false} DialedIsDialedTo(conns: seq<Conn>, a: Multiaddr)
    ensures a in Dialed(conns) <==> DialedTo(conns, a)
  {
    if conns != [] {
      var n := |conns| - 1;
      DialedIsDialedTo(conns[..n], a);
      assert conns == conns[..n] + [conns[n]];
    }
  }

  method DialedAddrs(conns: seq<Conn>) returns (addrs: seq<Multiaddr>)
    ensures addrs == Dialed(conns)
    ensures forall a :: a in addrs <==> DialedTo(conns, a)
  {
    addrs := [];
    for i := 0 to |conns|
      invariant addrs == Dialed(conns[..i])
    {
      assert conns[..i + 1][..i] == conns[..i];
      if conns[i].direction != Inbound { addrs := addrs + [conns[i].remote]; }
    }
    assert conns[..|conns|] == conns;
    forall a ensures a in addrs <==> DialedTo(conns, a) { DialedIsDialedTo(conns, a); }
  }

  /** The TTL an address has after an identify has replaced the peer's set; None if it is gone. */
  function ReplacedTtl(cfg: Config, ad: Advert, conns: set<Multiaddr>, ttl: int, a: Multiaddr): Option<int> {
    if a in conns then Some(cfg.connected)
    else if a !in Advertised(ad) then None
    else if IsRelayAddr(a) then Some(cfg.relay)
    else Some(ttl)
  }

  /** `a` is what the identify says the peer can be reached at: the signed record if it was accepted, else
      the listen addresses. */
  predicate SaidToListen(ad: Advert, a: Multiaddr) {
    match ad.signed
    case Some(signed) => if signed.accepted then a in signed.addrs else a in ad.listen
    case None => a in ad.listen
  }

  /** The identify has anything to say, or a dialed connection is open: then it replaces the set. */
  ghost predicate Replaces(ad: Advert, conns: seq<Conn>) {
    ad.signed.Some? || ad.listen != [] || exists a :: DialedTo(conns, a)
  }

  /** The TTL of an address after an identify, from the identify and the connections alone. */
  ghost function IdentifiedTtl(cfg: Config, ad: Advert, conns: seq<Conn>, ttl: int, a: Multiaddr): Option<int> {
    if DialedTo(conns, a) then Some(cfg.connected)
    else if !SaidToListen(ad, a) then None
    else if HasProtocol(a, P_CIRCUIT) then Some(cfg.relay)
    else Some(ttl)
  }

  lemma DialedDecide(ad: Advert, conns: seq<Conn>)
    ensures Authoritative(ad, Dialed(conns)) <==> Replaces(ad, conns)
  {
    if Dialed(conns) != [] { DialedIsDialedTo(conns, Dialed(conns)[0]); }
    if a :| DialedTo(conns, a) { DialedIsDialedTo(conns, a); }
  }

  /** An identify that replaces the set by nothing: it has a signed record and no dialed connection is
      open, and the record is rejected next to no listen address, or accepted although it has none. */
  predicate Empties(ad: Advert, conns: seq<Multiaddr>) {
    && conns == [] && ad.signed.Some?
    && if ad.signed.value.accepted then ad.signed.value.addrs == [] else ad.listen == []
  }

  function TtlOf(t: Table, a: Multiaddr): Option<int> {
    if a in t then Some(t[a]) else None
  }

  lemma EmptyHasNoTtl(t: Table)
    ensures t == map[] <==> forall a :: TtlOf(t, a) == None
  {
    if forall a :: TtlOf(t, a) == None {
      forall a ensures a !in t { assert TtlOf(t, a) == None; }
    }
  }

  lemma ReplacedByNothing(cfg: Config, ad: Advert, conns: seq<Multiaddr>, ttl: int)
    requires Authoritative(ad, conns)
    ensures (forall a :: ReplacedTtl(cfg, ad, ToSet(conns), ttl, a) == None) <==> Empties(ad, conns)
  {
    if conns != [] {
      assert ReplacedTtl(cfg, ad, ToSet(conns), ttl, conns[0]) != None;
    } else if Advertised(ad) != [] {
      assert ReplacedTtl(cfg, ad, ToSet(conns), ttl, Advertised(ad)[0]) != None;
    }
  }

  /** An identify leaves a peer without addresses exactly when it replaces the set by nothing, or leaves
      alone a set that was empty before; `t` is the set before and `u` after it. */
  lemma IdentifyEmptiesExactlyWhen(cfg: Config, ad: Advert, conns: seq<Multiaddr>, ttl: int, t: Table, u: Table)
    requires if Authoritative(ad, conns) then forall a :: TtlOf(u, a) == ReplacedTtl(cfg, ad, ToSet(conns), ttl, a) else u == t
    ensures u == map[] <==> Empties(ad, conns) || (!Authoritative(ad, conns) && t == map[])
  {
    if Authoritative(ad, conns) {
      EmptyHasNoTtl(u);
      ReplacedByNothing(cfg, ad, conns, ttl);
    }
  }

  /** Both causes exist: a rejected record of any content, and an accepted one without addresses next to
      any listen addresses. */
  lemma EmptyingIdentifiesExist(addrs: seq<Multiaddr>, listen: seq<Multiaddr>)
    ensures var rejected, hollow := Advert(Some(Signed(addrs, false)), []), Advert(Some(Signed([], true)), listen);
      && Authoritative(rejected, []) && Empties(rejected, [])
      && Authoritative(hollow, []) && Empties(hollow, [])
  {
  }

  /** The TTL an address has after a disconnect: off the connected one, and no relay on a longer one. */
  function DisconnectedTtl(cfg: Config, t: Table, a: Multiaddr): Option<int> {
    if a !in t then None
    else Some(if IsRelayAddr(a) then cfg.relay else if t[a] == cfg.connected then cfg.recent else t[a])
  }

  /** The TTL after an address was seen, or not, in a provider record. */
  function CachedTtl(cfg: Config, before: Option<int>, a: Multiaddr, seen: bool): Option<int> {
    var ttl := if IsRelayAddr(a) then cfg.relay else cfg.recent;
    if !seen then before
    else if before.Some? then Some(Max(before.value, ttl))
    else Some(ttl)
  }

  datatype PeerRecord = PeerRecord(id: PeerID, addrs: set<Multiaddr>)

  /** A failure other than "not found" is handed on as it is. */
  datatype RouterReply = Found(records: seq<PeerRecord>) | NotFound | Failed(error: string)

  class CachedAddrBook {
    const cfg: Config
    const public: Multiaddr -> bool
    var book: map<PeerID, Table>
    var peerCache: map<PeerID, PeerState>

    constructor (cfg: Config, public: Multiaddr -> bool)
      ensures this.cfg == cfg && this.public == public && book == map[] && peerCache == map[]
    {
      this.cfg, this.public := cfg, public;
      book, peerCache := map[], map[];
    }

    function Addrs(p: PeerID): Table
      reads this
    {
      if p in book then book[p] else map[]
    }

    function Peer(p: PeerID): Option<PeerState>
      reads this
    {
      if p in peerCache then Some(peerCache[p]) else None
    }

    /** Nothing but the addresses of `p` changed. */
    twostate predicate OnlyBookOf(p: PeerID)
      reads this
    {
      peerCache == old(peerCache) && forall q | q != p :: Addrs(q) == old(Addrs(q))
    }

    method Put(p: PeerID, t: Table)
      modifies this
      ensures Addrs(p) == t && OnlyBookOf(p)
    {
      book := book[p := t];
    }

    method CapRelayAddrTtl(p: PeerID)
      modifies this
      ensures Addrs(p) == CapRelays(cfg, old(Addrs(p))) && OnlyBookOf(p)
      ensures forall a | a in Addrs(p) && IsRelayAddr(a) :: Addrs(p)[a] == cfg.relay
      ensures forall a | !IsRelayAddr(a) :: TtlOf(Addrs(p), a) == TtlOf(old(Addrs(p)), a)
    {
      var relays := RelaysOf(Addrs(p));
      if |relays| > 0 {
        Put(p, SetAddrs(Addrs(p), relays, cfg.relay));
      } else {
        assert Addrs(p) == CapRelays(cfg, Addrs(p));
      }
    }

    method AddAdvertised(p: PeerID, ad: Advert, ttl: int)
      requires Addrs(p) == map[]
      modifies this
      ensures OnlyBookOf(p)
      ensures forall a :: TtlOf(Addrs(p), a) == if a in Advertised(ad) then Some(ttl) else None
    {
      var accepted := false;
      if ad.signed.Some? {
        accepted := ad.signed.value.accepted;
        if accepted { Put(p, AddAddrs(Addrs(p), ToSet(ad.signed.value.addrs), ttl)); }
      }
      if !accepted { Put(p, AddAddrs(Addrs(p), ToSet(ad.listen), ttl)); }
    }

    /** Replaces the stored set by the current one. An address of a live connection carries the
        connected TTL, relay or not; any other relay the relay TTL; nothing stale survives. An
        identify that carries nothing leaves the set alone. */
    method ReplacePeerAddrs(p: PeerID, ad: Advert, conns: seq<Multiaddr>, ttl: int)
      requires ValidConfig(cfg) && 0 < ttl <= cfg.connected
      modifies this
      ensures OnlyBookOf(p)
      ensures !Authoritative(ad, conns) ==> Addrs(p) == old(Addrs(p))
      ensures Authoritative(ad, conns) ==>
        forall a :: TtlOf(Addrs(p), a) == ReplacedTtl(cfg, ad, ToSet(conns), ttl, a)
      ensures Addrs(p) == map[] <==> Empties(ad, conns) || (!Authoritative(ad, conns) && old(Addrs(p)) == map[])
    {
      if ad.signed.None? && |ad.listen| == 0 && |conns| == 0 { return; }
      Put(p, map[]);
      AddAdvertised(p, ad, ttl);
      CapRelayAddrTtl(p);
      if |conns| > 0 { Put(p, AddAddrs(Addrs(p), ToSet(conns), cfg.connected)); }
      IdentifyEmptiesExactlyWhen(cfg, ad, conns, ttl, old(Addrs(p)), Addrs(p));
    }

    /** A completed identify: the peer counts as never failed, and what is stored about it is what the
        identify and the dialed connections say. The remote address of an inbound connection is not
        kept unless the peer says it listens there. */
    method HandleIdentify(p: PeerID, now: int, connectedness: Connectedness, conns: seq<Conn>, ad: Advert)
      requires ValidConfig(cfg)
      modifies this
      ensures Peer(p) == RecordIdentify(old(Peer(p)), now)
      ensures forall q | q != p :: Addrs(q) == old(Addrs(q)) && Peer(q) == old(Peer(q))
      ensures var ttl := if HasValidConnectedness(connectedness) then cfg.connected else cfg.recent;
        if Authoritative(ad, Dialed(conns)) then
          forall a :: TtlOf(Addrs(p), a) == ReplacedTtl(cfg, ad, ToSet(Dialed(conns)), ttl, a)
        else Addrs(p) == old(Addrs(p))
      ensures Addrs(p) == map[] <==>
        Empties(ad, Dialed(conns)) || (!Authoritative(ad, Dialed(conns)) && old(Addrs(p)) == map[])
      ensures Peer(p) == Some(PeerState(Some(now), None, 0))
      ensures Replaces(ad, conns) ==>
        forall a :: TtlOf(Addrs(p), a) ==
          IdentifiedTtl(cfg, ad, conns, if connectedness == Connected || connectedness == Limited then cfg.connected else cfg.recent, a)
      ensures !Replaces(ad, conns) ==> Addrs(p) == old(Addrs(p))
    {
      var pState := if p in peerCache then peerCache[p] else PeerState(None, None, 0);
      pState := pState.(lastConn := Some(now));
      pState := pState.(lastFailed := None);
      pState := pState.(failures := 0);
      peerCache := peerCache[p := pState];
      var ttl := if HasValidConnectedness(connectedness) then cfg.connected else cfg.recent;
      var connAddrs := DialedAddrs(conns);
      ReplacePeerAddrs(p, ad, connAddrs, ttl);
      DialedDecide(ad, conns);
      forall a | Authoritative(ad, connAddrs)
        ensures ReplacedTtl(cfg, ad, ToSet(connAddrs), ttl, a) == IdentifiedTtl(cfg, ad, conns, ttl, a)
      {
        DialedIsDialedTo(conns, a);
      }
    }

    /** A disconnect takes every address off the connected TTL and leaves no relay on a longer one. */
    method HandleConnectednessChanged(p: PeerID, connectedness: Connectedness)
      requires ValidConfig(cfg)
      modifies this
      ensures OnlyBookOf(p) && Addrs(p).Keys == old(Addrs(p)).Keys
      ensures HasValidConnectedness(connectedness) ==> Addrs(p) == old(Addrs(p))
      ensures !HasValidConnectedness(connectedness) ==>
        forall a :: TtlOf(Addrs(p), a) == DisconnectedTtl(cfg, old(Addrs(p)), a)
      ensures connectedness == Connected || connectedness == Limited ==> Addrs(p) == old(Addrs(p))
      ensures connectedness != Connected && connectedness != Limited ==>
        forall a | a in Addrs(p) ::
          && (HasProtocol(a, P_CIRCUIT) ==> Addrs(p)[a] == cfg.relay)
          && (!HasProtocol(a, P_CIRCUIT) && old(Addrs(p))[a] == cfg.connected ==> Addrs(p)[a] == cfg.recent)
          && (!HasProtocol(a, P_CIRCUIT) && old(Addrs(p))[a] != cfg.connected ==> Addrs(p)[a] == old(Addrs(p))[a])
    {
      if !HasValidConnectedness(connectedness) {
        Put(p, UpdateAddrs(Addrs(p), cfg.connected, cfg.recent));
        CapRelayAddrTtl(p);
      }
    }

    /** Remembers addresses seen in a provider record: an address is only ever kept longer, a private
        one is dropped unless allowed, and a relay is never given more than the relay TTL. */
    method CacheAddrs(p: PeerID, addrs: seq<Multiaddr>, allowPrivate: bool)
      requires ValidConfig(cfg)
      modifies this
      ensures OnlyBookOf(p)
      ensures forall a :: TtlOf(Addrs(p), a) ==
                          CachedTtl(cfg, TtlOf(old(Addrs(p)), a), a, a in addrs && (allowPrivate || public(a)))
      ensures forall a | a in addrs && (allowPrivate || public(a)) ::
        && a in Addrs(p)
        && (HasProtocol(a, P_CIRCUIT) ==>
              Addrs(p)[a] == if a in old(Addrs(p)) && old(Addrs(p))[a] > cfg.relay then old(Addrs(p))[a] else cfg.relay)
        && (!HasProtocol(a, P_CIRCUIT) ==>
              Addrs(p)[a] == if a in old(Addrs(p)) && old(Addrs(p))[a] > cfg.recent then old(Addrs(p))[a] else cfg.recent)
      ensures forall a | a !in addrs || !(allowPrivate || public(a)) :: TtlOf(Addrs(p), a) == TtlOf(old(Addrs(p)), a)
    {
      if |addrs| == 0 { return; }
      var maddrs: seq<Multiaddr> := [];
      for i := 0 to |addrs|
        invariant forall a :: a in maddrs <==> a in addrs[..i] && (allowPrivate || public(a))
      {
        if !allowPrivate && !public(addrs[i]) { continue; }
        maddrs := maddrs + [addrs[i]];
      }
      assert addrs[..|addrs|] == addrs;
      if |maddrs| == 0 {
        forall a | a in addrs ensures !(allowPrivate || public(a)) { assert a !in maddrs; }
        return;
      }
      var direct, relays := SplitRelayAddrs(maddrs);
      Put(p, AddAddrs(Addrs(p), ToSet(direct), cfg.recent));
      Put(p, AddAddrs(Addrs(p), ToSet(relays), cfg.relay));
    }

    /** Counts a failure, or gives the peer up: then its addresses go too, so it is not probed again. */
    method RecordFailedConnection(p: PeerID, now: int)
      modifies this
      ensures Peer(p) == RecordFailure(old(Peer(p)), now)
      ensures Addrs(p) == if Evicts(old(Peer(p)), now) then map[] else old(Addrs(p))
      ensures old(Peer(p)) == None ==> Peer(p) == Some(PeerState(None, Some(now), 1)) && Addrs(p) == old(Addrs(p))
      ensures old(Peer(p)).Some? ==>
        var st := old(Peer(p)).value;
        var longAgo := st.lastFailed == None || now - st.lastFailed.value > 48 * 3_600_000_000_000;
        if st.failures >= 2 && longAgo then Peer(p) == None && Addrs(p) == map[]
        else Peer(p) == Some(PeerState(st.lastConn, Some(now), st.failures + 1)) && Addrs(p) == old(Addrs(p))
      ensures forall q | q != p :: Addrs(q) == old(Addrs(q)) && Peer(q) == old(Peer(q))
    {
      var exists' := p in peerCache;
      var pState := if exists' then peerCache[p] else PeerState(None, None, 0);
      if exists' && pState.failures > 1 && Elapsed(pState.lastFailed, now, MAX_BACKOFF_DURATION) {
        peerCache := peerCache - {p};
        book := book - {p};
        return;
      }
      pState := pState.(lastFailed := Some(now));
      pState := pState.(failures := pState.failures + 1);
      peerCache := peerCache[p := pState];
    }

    /** Whether the backoff of a peer is over. An unknown peer, and one that never failed, may be probed;
        after `n` failures, up to 22, the wait is 2^(n-1) hours and at most 48. */
    method ShouldProbePeer(p: PeerID, now: int) returns (ok: bool)
      ensures ok == ShouldProbe(Peer(p), now)
      ensures Peer(p) == None || Peer(p).value.lastFailed == None ==> ok
      ensures Peer(p).Some? && Peer(p).value.lastFailed.Some? ==>
        var n, since := Peer(p).value.failures, now - Peer(p).value.lastFailed.value;
        && (n == 0 ==> (ok <==> since > PEER_PROBE_THRESHOLD))
        && (1 <= n <= 22 ==> (ok <==> since > Backoff.Min(PEER_PROBE_THRESHOLD * Pow2(n - 1), MAX_BACKOFF_DURATION)))
    {
      if p !in peerCache { return true; }
      var pState := peerCache[p];
      var backoff := PEER_PROBE_THRESHOLD;
      if pState.failures > 0 {
        if pState.failures <= 22 { ExactUpTo22(pState.failures); }
        backoff := Wrap64(PEER_PROBE_THRESHOLD * ShiftOne(pState.failures - 1));
        backoff := Backoff.Min(backoff, MAX_BACKOFF_DURATION);
      }
      return Elapsed(pState.lastFailed, now, backoff);
    }

    /** The book's addresses, else what the DHT left in the host peerstore a moment ago. */
    function GetCachedAddrs(p: PeerID, host: set<Multiaddr>): (addrs: set<Multiaddr>)
      reads this
      ensures forall a :: a in Addrs(p) ==> a in addrs
      ensures Addrs(p) != map[] ==> forall a | a in addrs :: a in Addrs(p)
      ensures Addrs(p) == map[] ==> addrs == host
    {
      if Addrs(p) != map[] then Addrs(p).Keys else host
    }

    /** A peer lookup: the cache answers first; only a miss reaches the router, only a "not found" counts
        as a failure, without asking the backoff gate; a record without addresses is completed. */
    method FindPeers(p: PeerID, host: PeerID -> set<Multiaddr>, reply: RouterReply, now: int)
      returns (r: RouterReply)
      modifies this
      ensures var cached := old(GetCachedAddrs(p, host(p)));
        if cached != {} then r == Found([PeerRecord(p, cached)]) && unchanged(this)
        else match reply {
          case NotFound =>
            && r == NotFound && Peer(p) == RecordFailure(old(Peer(p)), now)
            && Addrs(p) == (if Evicts(old(Peer(p)), now) then map[] else old(Addrs(p)))
            && forall q | q != p :: Addrs(q) == old(Addrs(q)) && Peer(q) == old(Peer(q))
          case Failed(_) => r == reply && unchanged(this)
          case Found(records) =>
            && unchanged(this) && r.Found? && |r.records| == |records|
            && forall i | 0 <= i < |records| ::
                 && r.records[i].id == records[i].id
                 && r.records[i].addrs ==
                    if records[i].addrs != {} then records[i].addrs else GetCachedAddrs(records[i].id, host(records[i].id))
        }
    {
      var cached := GetCachedAddrs(p, host(p));
      if cached != {} { return Found([PeerRecord(p, cached)]); }
      match reply
      case NotFound =>
        RecordFailedConnection(p, now);
        return NotFound;
      case Failed(_) => return reply;
      case Found(records) =>
        var out: seq<PeerRecord> := [];
        for i := 0 to |records|
          invariant |out| == i
          invariant forall k | 0 <= k < i ::
            out[k] == records[k].(addrs := if records[k].addrs != {} then records[k].addrs else GetCachedAddrs(records[k].id, host(records[k].id)))
        {
          var rec := records[i];
          if rec.addrs == {} { rec := rec.(addrs := GetCachedAddrs(rec.id, host(rec.id))); }
          out := out + [rec];
        }
        return Found(out);
    }
  }
}
