/** The event loop of the address book, interleaved with everything else that touches the book: one
    step per read of the network and per operation on the peerstore. */
module AddrBookEvents {
  import opened Multiaddrs
  import opened AddrTables
  import AddrBook

  datatype Event = Identified(p: PeerID, ad: Advert) | Changed(p: PeerID, connected: bool)

  /** Why relays are being capped: an identify that will re-add its connections, or a disconnect. */
  datatype Then = AddConns(conns: set<Multiaddr>) | Settle

  /** Where the loop is. `ttl` and `conns` are what it has read of the network so far. */
  datatype Pc =
    | Idle
    | ReadConnectedness(ad: Advert)
    | ReadConns(ad: Advert, ttl: int)
    | Clear(ad: Advert, ttl: int, conns: set<Multiaddr>)
    | AddAdvertised(ad: Advert, ttl: int, conns: set<Multiaddr>)
    | Retag
    | ReadRelays(andThen: Then)
    | SetRelays(relays: set<Multiaddr>, andThen: Then)
    | KeepConns(conns: set<Multiaddr>)

  /** `peer` is the peer of the event being handled. A disconnect that is under way is already in the
      queue. */
  datatype State = State(
    connected: set<PeerID>,
    queue: seq<Event>,
    book: map<PeerID, Table>,
    pc: Pc,
    peer: PeerID)

  datatype Step =
    | Connect(p: PeerID)
    | Disconnect(p: PeerID)
    | IdentifyDone(p: PeerID, ad: Advert)
    | CacheDirect(p: PeerID, addrs: set<Multiaddr>)
    | CacheRelays(p: PeerID, addrs: set<Multiaddr>)
    | ClearPeer(p: PeerID)
    | Expire(p: PeerID, a: Multiaddr)
    | Dequeue
    | Handle(conns: set<Multiaddr>)

  function Addrs(s: State, p: PeerID): Table {
    if p in s.book then s.book[p] else map[]
  }

  function Put(s: State, p: PeerID, t: Table): State {
    s.(book := s.book[p := t])
  }

  /** `conns` matters where the connections of a peer are read: only a connected one has any. */
  predicate Enabled(s: State, step: Step) {
    match step
    case CacheDirect(_, addrs) => forall a | a in addrs :: !IsRelayAddr(a)
    case CacheRelays(_, addrs) => forall a | a in addrs :: IsRelayAddr(a)
    case Dequeue => s.pc.Idle? && s.queue != []
    case Handle(conns) => !s.pc.Idle? && (s.pc.ReadConns? && conns != {} ==> s.peer in s.connected)
    case _ => true
  }

  /** The next operation of the handler. */
  function HandlerStep(cfg: Config, s: State, conns: set<Multiaddr>): State
    requires !s.pc.Idle?
  {
    var p := s.peer;
    var t := Addrs(s, p);
    match s.pc
    case ReadConnectedness(ad) => s.(pc := ReadConns(ad, if p in s.connected then cfg.connected else cfg.recent))
    case ReadConns(ad, ttl) =>
      s.(pc := if ad.signed.None? && |ad.listen| == 0 && conns == {} then Idle else Clear(ad, ttl, conns))
    case Clear(ad, ttl, cs) => Put(s, p, map[]).(pc := AddAdvertised(ad, ttl, cs))
    case AddAdvertised(ad, ttl, cs) =>
      Put(s, p, AddAddrs(t, ToSet(Advertised(ad)), ttl)).(pc := ReadRelays(AddConns(cs)))
    case Retag => Put(s, p, UpdateAddrs(t, cfg.connected, cfg.recent)).(pc := ReadRelays(Settle))
    case ReadRelays(andThen) => s.(pc := SetRelays(RelaysOf(t), andThen))
    case SetRelays(relays, andThen) =>
      Put(s, p, if relays == {} then t else SetAddrs(t, relays, cfg.relay)).(
        pc := if andThen.AddConns? && andThen.conns != {} then KeepConns(andThen.conns) else Idle)
    case KeepConns(cs) => Put(s, p, AddAddrs(t, cs, cfg.connected)).(pc := Idle)
  }

  function Apply(cfg: Config, s: State, step: Step): State
    requires Enabled(s, step)
  {
    match step
    case Connect(p) => s.(connected := s.connected + {p}, queue := s.queue + [Changed(p, true)])
    case Disconnect(p) => s.(connected := s.connected - {p}, queue := s.queue + [Changed(p, false)])
    case IdentifyDone(p, ad) => s.(queue := s.queue + [Identified(p, ad)])
    case CacheDirect(p, addrs) => Put(s, p, AddAddrs(Addrs(s, p), addrs, cfg.recent))
    case CacheRelays(p, addrs) => Put(s, p, AddAddrs(Addrs(s, p), addrs, cfg.relay))
    case ClearPeer(p) => Put(s, p, map[])
    case Expire(p, a) => Put(s, p, Addrs(s, p) - {a})
    case Dequeue =>
      var e := s.queue[0];
      s.(queue := s.queue[1..], peer := e.p, pc :=
        match e
        case Identified(_, ad) => ReadConnectedness(ad)
        case Changed(_, connected) => if connected then Idle else Retag)
    case Handle(conns) => HandlerStep(cfg, s, conns)
  }

  ghost predicate Reaches(cfg: Config, s: State, steps: seq<Step>, t: State)
    decreases |steps|
  {
    if steps == [] then s == t
    else Enabled(s, steps[0]) && Reaches(cfg, Apply(cfg, s, steps[0]), steps[1..], t)
  }

  const INITIAL_STATE: State := State({}, [], map[], Idle, "")

  // ---- Session safety ----

  /** A live session, or a disconnect the loop has not come to yet. */
  predicate MayBeConnected(s: State, p: PeerID) {
    p in s.connected || Changed(p, false) in s.queue
  }

  ghost predicate SessionSafe(cfg: Config, s: State) {
    forall p, a | a in Addrs(s, p) && Addrs(s, p)[a] == cfg.connected ::
      MayBeConnected(s, p) || (s.peer == p && s.pc.Retag?)
  }

  /** What the loop is about to write at the connected TTL it may write. */
  predicate LoopSafe(cfg: Config, s: State) {
    match s.pc
    case ReadConns(_, ttl) => ttl == cfg.connected ==> MayBeConnected(s, s.peer)
    case Clear(_, ttl, cs) => ttl == cfg.connected || cs != {} ==> MayBeConnected(s, s.peer)
    case AddAdvertised(_, ttl, cs) => ttl == cfg.connected || cs != {} ==> MayBeConnected(s, s.peer)
    case ReadRelays(andThen) => andThen.AddConns? && andThen.conns != {} ==> MayBeConnected(s, s.peer)
    case SetRelays(_, andThen) => andThen.AddConns? && andThen.conns != {} ==> MayBeConnected(s, s.peer)
    case KeepConns(_) => MayBeConnected(s, s.peer)
    case _ => true
  }

  // ---- Relays ----

  predicate GoodRelay(cfg: Config, t: Table, a: Multiaddr)
    requires a in t
  {
    t[a] == cfg.relay || t[a] == cfg.connected
  }

  /** The relay addresses the loop has just made too durable, and is about to cap. */
  predicate BeingCapped(s: State, p: PeerID, a: Multiaddr) {
    s.peer == p && (s.pc.ReadRelays? || (s.pc.SetRelays? && a in s.pc.relays))
  }

  ghost predicate RelaysPerish(cfg: Config, s: State) {
    forall p, a | a in Addrs(s, p) && IsRelayAddr(a) :: GoodRelay(cfg, Addrs(s, p), a) || BeingCapped(s, p, a)
  }

  /** While a disconnect settles, nothing of the peer is on the connected TTL any more, and once the
      relays are read the others already have the relay TTL. */
  predicate Settling(cfg: Config, s: State) {
    var t := Addrs(s, s.peer);
    && (s.pc.ReadRelays? && s.pc.andThen.Settle? ==> forall a | a in t :: t[a] != cfg.connected)
    && (s.pc.SetRelays? && s.pc.andThen.Settle? ==>
          forall a | a in t :: t[a] != cfg.connected && (IsRelayAddr(a) ==> a in s.pc.relays || t[a] == cfg.relay))
  }

  ghost predicate Inv(cfg: Config, s: State) {
    SessionSafe(cfg, s) && LoopSafe(cfg, s) && RelaysPerish(cfg, s) && Settling(cfg, s)
  }

  /** Everything about one peer's table that the steps of others keep: no address is new on the
      connected TTL, and a new or longer-lived relay address is on the relay TTL. */
  predicate Mild(cfg: Config, t: Table, u: Table) {
    forall a | a in u ::
      || (a in t && u[a] == t[a])
      || (u[a] != cfg.connected && (IsRelayAddr(a) ==> u[a] == cfg.relay))
  }

  lemma MildKeepsSessions(cfg: Config, s: State, p: PeerID, u: Table)
    requires SessionSafe(cfg, s) && Mild(cfg, Addrs(s, p), u)
    ensures SessionSafe(cfg, Put(s, p, u))
  {
    var t := Put(s, p, u);
    forall q, a | a in Addrs(t, q) && Addrs(t, q)[a] == cfg.connected
      ensures MayBeConnected(t, q) || (t.peer == q && t.pc.Retag?)
    {
      assert a in Addrs(s, q) && Addrs(s, q)[a] == cfg.connected;
    }
  }

  lemma MildKeepsRelays(cfg: Config, s: State, p: PeerID, u: Table)
    requires RelaysPerish(cfg, s) && Mild(cfg, Addrs(s, p), u)
    ensures RelaysPerish(cfg, Put(s, p, u))
  {
    var t := Put(s, p, u);
    forall q, a | a in Addrs(t, q) && IsRelayAddr(a)
      ensures GoodRelay(cfg, Addrs(t, q), a) || BeingCapped(t, q, a)
    {
      if a in Addrs(s, q) && Addrs(s, q)[a] == Addrs(t, q)[a] {
        assert GoodRelay(cfg, Addrs(s, q), a) || BeingCapped(s, q, a);
      }
    }
  }

  lemma MildKeepsSettling(cfg: Config, s: State, p: PeerID, u: Table)
    requires ValidConfig(cfg) && Settling(cfg, s) && Mild(cfg, Addrs(s, p), u)
    ensures Settling(cfg, Put(s, p, u))
  {
    var t := Put(s, p, u);
    forall a | a in Addrs(t, s.peer)
      ensures s.pc.ReadRelays? && s.pc.andThen.Settle? ==> Addrs(t, s.peer)[a] != cfg.connected
      ensures s.pc.SetRelays? && s.pc.andThen.Settle? ==>
                Addrs(t, s.peer)[a] != cfg.connected && (IsRelayAddr(a) ==> a in s.pc.relays || Addrs(t, s.peer)[a] == cfg.relay)
    {
      var before, after := Addrs(s, s.peer), Addrs(t, s.peer);
      if a in before && after[a] == before[a] {
        assert s.pc.ReadRelays? && s.pc.andThen.Settle? ==> before[a] != cfg.connected;
      } else {
        assert s.peer == p && a in u;
      }
    }
  }

  lemma MildKeepsInv(cfg: Config, s: State, p: PeerID, u: Table)
    requires ValidConfig(cfg) && Inv(cfg, s) && Mild(cfg, Addrs(s, p), u)
    ensures Inv(cfg, Put(s, p, u))
  {
    MildKeepsSessions(cfg, s, p, u);
    MildKeepsRelays(cfg, s, p, u);
    MildKeepsSettling(cfg, s, p, u);
  }

  /** A peer that may be connected still may after the network has moved: it is, or its disconnect is
      in the queue. */
  lemma QueueGrows(cfg: Config, s: State, t: State, e: Event)
    requires Inv(cfg, s) && t == s.(connected := t.connected, queue := s.queue + [e])
    requires forall p | p in s.connected && p !in t.connected :: e == Changed(p, false)
    ensures Inv(cfg, t)
  {
    forall p | MayBeConnected(s, p) ensures MayBeConnected(t, p) {
      assert Changed(p, false) in s.queue ==> Changed(p, false) in t.queue;
      assert e in t.queue;
    }
    assert t.book == s.book;
    assert forall p :: Addrs(t, p) == Addrs(s, p);
    forall p, a | a in Addrs(t, p) && IsRelayAddr(a)
      ensures GoodRelay(cfg, Addrs(t, p), a) || BeingCapped(t, p, a)
    {
      assert GoodRelay(cfg, Addrs(s, p), a) || BeingCapped(s, p, a);
    }
  }

  /** Provider records, evictions, expiry and the network. */
  lemma OthersKeepInv(cfg: Config, s: State, step: Step)
    requires ValidConfig(cfg) && Inv(cfg, s) && Enabled(s, step) && !step.Dequeue? && !step.Handle?
    ensures Inv(cfg, Apply(cfg, s, step))
  {
    match step
    case Connect(p) => QueueGrows(cfg, s, Apply(cfg, s, step), Changed(p, true));
    case Disconnect(p) => QueueGrows(cfg, s, Apply(cfg, s, step), Changed(p, false));
    case IdentifyDone(p, ad) => QueueGrows(cfg, s, Apply(cfg, s, step), Identified(p, ad));
    case CacheDirect(p, addrs) => MildKeepsInv(cfg, s, p, AddAddrs(Addrs(s, p), addrs, cfg.recent));
    case CacheRelays(p, addrs) => MildKeepsInv(cfg, s, p, AddAddrs(Addrs(s, p), addrs, cfg.relay));
    case ClearPeer(p) => MildKeepsInv(cfg, s, p, map[]);
    case Expire(p, a) => MildKeepsInv(cfg, s, p, Addrs(s, p) - {a});
  }

  lemma DequeueKeepsInv(cfg: Config, s: State)
    requires Inv(cfg, s) && Enabled(s, Dequeue)
    ensures Inv(cfg, Apply(cfg, s, Dequeue))
  {
    var t := Apply(cfg, s, Dequeue);
    assert s.queue == [s.queue[0]] + s.queue[1..];
    assert forall p :: Addrs(t, p) == Addrs(s, p);
    forall p | MayBeConnected(s, p) ensures MayBeConnected(t, p) || (t.peer == p && t.pc.Retag?) {
    }
    forall p, a | a in Addrs(t, p) && IsRelayAddr(a)
      ensures GoodRelay(cfg, Addrs(t, p), a) || BeingCapped(t, p, a)
    {
      assert GoodRelay(cfg, Addrs(s, p), a) || BeingCapped(s, p, a);
    }
  }

  // ---- The handler's own operations ----

  lemma HandleKeepsSessions(cfg: Config, s: State, conns: set<Multiaddr>)
    requires ValidConfig(cfg) && Inv(cfg, s) && Enabled(s, Handle(conns))
    ensures SessionSafe(cfg, Apply(cfg, s, Handle(conns)))
  {
    var t := Apply(cfg, s, Handle(conns));
    assert t.queue == s.queue && t.connected == s.connected && t.peer == s.peer;
    forall p, a | a in Addrs(t, p) && Addrs(t, p)[a] == cfg.connected
      ensures MayBeConnected(t, p) || (t.peer == p && t.pc.Retag?)
    {
      if a in Addrs(s, p) && Addrs(s, p)[a] == cfg.connected {
        assert MayBeConnected(s, p) || (s.peer == p && s.pc.Retag?);
      }
    }
  }

  lemma HandleKeepsRelays(cfg: Config, s: State, conns: set<Multiaddr>)
    requires ValidConfig(cfg) && Inv(cfg, s) && Enabled(s, Handle(conns))
    ensures RelaysPerish(cfg, Apply(cfg, s, Handle(conns)))
  {
    var t := Apply(cfg, s, Handle(conns));
    forall p, a | a in Addrs(t, p) && IsRelayAddr(a)
      ensures GoodRelay(cfg, Addrs(t, p), a) || BeingCapped(t, p, a)
    {
      if a in Addrs(s, p) { assert GoodRelay(cfg, Addrs(s, p), a) || BeingCapped(s, p, a); }
    }
  }

  lemma HandleKeepsLoop(cfg: Config, s: State, conns: set<Multiaddr>)
    requires ValidConfig(cfg) && Inv(cfg, s) && Enabled(s, Handle(conns))
    ensures LoopSafe(cfg, Apply(cfg, s, Handle(conns))) && Settling(cfg, Apply(cfg, s, Handle(conns)))
  {
  }

  lemma StepKeepsInv(cfg: Config, s: State, step: Step)
    requires ValidConfig(cfg) && Inv(cfg, s) && Enabled(s, step)
    ensures Inv(cfg, Apply(cfg, s, step))
  {
    if step.Dequeue? {
      DequeueKeepsInv(cfg, s);
    } else if step.Handle? {
      HandleKeepsSessions(cfg, s, step.conns);
      HandleKeepsRelays(cfg, s, step.conns);
      HandleKeepsLoop(cfg, s, step.conns);
    } else {
      OthersKeepInv(cfg, s, step);
    }
  }

  lemma {:induction false} RunKeepsInv(cfg: Config, s: State, steps: seq<Step>, t: State)
    requires ValidConfig(cfg) && Inv(cfg, s) && Reaches(cfg, s, steps, t)
    ensures Inv(cfg, t)
    decreases |steps|
  {
    if steps != [] {
      StepKeepsInv(cfg, s, steps[0]);
      RunKeepsInv(cfg, Apply(cfg, s, steps[0]), steps[1..], t);
    }
  }

  // ---- Main results, over every interleaving ----

  /** An address on the connected TTL belongs to a peer that is connected, or whose disconnect is still
      in the queue or just being taken from it. */
  lemma ConnectedTtlMeansSession(cfg: Config, steps: seq<Step>, t: State, p: PeerID, a: Multiaddr)
    requires ValidConfig(cfg) && Reaches(cfg, INITIAL_STATE, steps, t)
    requires a in Addrs(t, p) && Addrs(t, p)[a] == cfg.connected
    ensures MayBeConnected(t, p) || (t.peer == p && t.pc.Retag?)
  {
    RunKeepsInv(cfg, INITIAL_STATE, steps, t);
  }

  /** Between two events every stored relay address is on the relay TTL or on the one of a session. */
  lemma RelaysArePerishable(cfg: Config, steps: seq<Step>, t: State, p: PeerID, a: Multiaddr)
    requires ValidConfig(cfg) && Reaches(cfg, INITIAL_STATE, steps, t) && (t.pc.Idle? || t.peer != p)
    requires a in Addrs(t, p) && IsRelayAddr(a)
    ensures Addrs(t, p)[a] == cfg.relay || Addrs(t, p)[a] == cfg.connected
  {
    RunKeepsInv(cfg, INITIAL_STATE, steps, t);
    assert GoodRelay(cfg, Addrs(t, p), a) || BeingCapped(t, p, a);
  }

  /** When a disconnect has been handled, the peer has nothing on the connected TTL and every relay
      address has exactly the relay TTL, whatever provider records and evictions did meanwhile. */
  lemma DisconnectSettles(cfg: Config, steps: seq<Step>, s: State, conns: set<Multiaddr>)
    requires ValidConfig(cfg) && Reaches(cfg, INITIAL_STATE, steps, s)
    requires s.pc.SetRelays? && s.pc.andThen.Settle?
    ensures var t := Apply(cfg, s, Handle(conns));
      && t.pc.Idle?
      && forall a | a in Addrs(t, s.peer) ::
           Addrs(t, s.peer)[a] != cfg.connected && (IsRelayAddr(a) ==> Addrs(t, s.peer)[a] == cfg.relay)
  {
    RunKeepsInv(cfg, INITIAL_STATE, steps, s);
  }

  // ---- Left alone, the steps are the handler ----

  function Left(pc: Pc): nat {
    match pc
    case Idle => 0
    case KeepConns(_) => 1
    case SetRelays(_, _) => 2
    case ReadRelays(_) => 3
    case Retag => 4
    case AddAdvertised(_, _, _) => 4
    case Clear(_, _, _) => 5
    case ReadConns(_, _) => 6
    case ReadConnectedness(_) => 7
  }

  /** The rest of the handler with nobody in between; `conns` is what it finds open where it looks. */
  function Uninterrupted(cfg: Config, s: State, conns: set<Multiaddr>): State
    decreases Left(s.pc)
  {
    if s.pc.Idle? then s else Uninterrupted(cfg, HandlerStep(cfg, s, conns), conns)
  }

  /** The table the steps after `Clear` build up. */
  function Rebuilt(cfg: Config, ad: Advert, conns: set<Multiaddr>, ttl: int): Table {
    var t := AddAddrs(map[], ToSet(Advertised(ad)), ttl);
    var capped := if RelaysOf(t) == {} then t else SetAddrs(t, RelaysOf(t), cfg.relay);
    if conns == {} then capped else AddAddrs(capped, conns, cfg.connected)
  }

  lemma RebuiltTtl(cfg: Config, ad: Advert, conns: set<Multiaddr>, ttl: int, a: Multiaddr)
    requires ValidConfig(cfg) && 0 < ttl <= cfg.connected
    ensures AddrBook.TtlOf(Rebuilt(cfg, ad, conns, ttl), a) == AddrBook.ReplacedTtl(cfg, ad, conns, ttl, a)
  {
    var t := AddAddrs(map[], ToSet(Advertised(ad)), ttl);
    var adv := a in Advertised(ad);
    assert AddrBook.TtlOf(t, a) == if adv then Some(ttl) else None;
    assert adv && IsRelayAddr(a) <==> a in RelaysOf(t);
  }

  lemma StepsRebuild(cfg: Config, s: State, conns: set<Multiaddr>)
    requires s.pc.Clear?
    ensures Addrs(Uninterrupted(cfg, s, conns), s.peer) == Rebuilt(cfg, s.pc.ad, s.pc.conns, s.pc.ttl)
  {
    var s1 := HandlerStep(cfg, s, conns);
    var s2 := HandlerStep(cfg, s1, conns);
    var s3 := HandlerStep(cfg, s2, conns);
    var s4 := HandlerStep(cfg, s3, conns);
    assert Uninterrupted(cfg, s, conns) == Uninterrupted(cfg, s1, conns) == Uninterrupted(cfg, s2, conns);
    assert Uninterrupted(cfg, s2, conns) == Uninterrupted(cfg, s3, conns) == Uninterrupted(cfg, s4, conns);
    if s4.pc.KeepConns? { assert Uninterrupted(cfg, s4, conns) == HandlerStep(cfg, s4, conns); }
  }

  /** The loop reads what it needs of the network, then replaces the set or leaves it alone. */
  lemma StepsReadThenRebuild(cfg: Config, s: State, conns: set<Multiaddr>)
    requires s.pc.ReadConnectedness?
    ensures var ttl := if s.peer in s.connected then cfg.connected else cfg.recent;
      Addrs(Uninterrupted(cfg, s, conns), s.peer) ==
      if s.pc.ad.signed.None? && |s.pc.ad.listen| == 0 && conns == {} then Addrs(s, s.peer)
      else Rebuilt(cfg, s.pc.ad, conns, ttl)
  {
    var s1 := HandlerStep(cfg, s, conns);
    var s2 := HandlerStep(cfg, s1, conns);
    assert Uninterrupted(cfg, s, conns) == Uninterrupted(cfg, s1, conns) == Uninterrupted(cfg, s2, conns);
    if s2.pc.Clear? { StepsRebuild(cfg, s2, conns); }
  }

  /** Without interleaving, the steps of an identify leave every address on the TTL the sequential
      handler is proved to leave it on. */
  lemma AloneItIsTheHandler(cfg: Config, s: State, conns: seq<Multiaddr>, a: Multiaddr)
    requires ValidConfig(cfg) && s.pc.ReadConnectedness?
    ensures var t := Uninterrupted(cfg, s, ToSet(conns));
      var ttl := if s.peer in s.connected then cfg.connected else cfg.recent;
      AddrBook.TtlOf(Addrs(t, s.peer), a) ==
      if Authoritative(s.pc.ad, conns) then AddrBook.ReplacedTtl(cfg, s.pc.ad, ToSet(conns), ttl, a)
      else AddrBook.TtlOf(Addrs(s, s.peer), a)
  {
    StepsReadThenRebuild(cfg, s, ToSet(conns));
    RebuiltTtl(cfg, s.pc.ad, ToSet(conns), if s.peer in s.connected then cfg.connected else cfg.recent, a);
    if conns != [] { assert conns[0] in ToSet(conns); }
  }

  /** And the steps of a disconnect: the same addresses, each on the TTL the sequential handler leaves. */
  lemma AloneItIsTheDisconnectHandler(cfg: Config, s: State, conns: set<Multiaddr>, a: Multiaddr)
    requires s.pc.Retag?
    ensures AddrBook.TtlOf(Addrs(Uninterrupted(cfg, s, conns), s.peer), a) == AddrBook.DisconnectedTtl(cfg, Addrs(s, s.peer), a)
  {
    var s1 := HandlerStep(cfg, s, conns);
    var s2 := HandlerStep(cfg, s1, conns);
    var s3 := HandlerStep(cfg, s2, conns);
    assert Uninterrupted(cfg, s, conns) == Uninterrupted(cfg, s1, conns) == Uninterrupted(cfg, s2, conns);
    assert Uninterrupted(cfg, s2, conns) == s3;
    assert a in Addrs(s1, s.peer) && IsRelayAddr(a) <==> a in RelaysOf(Addrs(s1, s.peer));
  }
}
