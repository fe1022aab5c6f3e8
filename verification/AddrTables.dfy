/** The address book of one peer: a TTL per address, under the operations of the peerstore. */
module AddrTables {
  import opened Multiaddrs

  type Table = map<Multiaddr, int>

  /** The two configured TTLs and the one of a live session, which is longer than both. */
  datatype Config = Config(recent: int, relay: int, connected: int)

  predicate ValidConfig(c: Config) {
    0 < c.recent < c.connected && 0 < c.relay < c.connected
  }

  function Max(a: int, b: int): int {
    if a < b then b else a
  }

  /** Only ever extends a TTL. */
  function AddAddrs(t: Table, addrs: set<Multiaddr>, ttl: int): Table {
    map a | a in t.Keys + addrs :: if a !in addrs then t[a] else if a in t then Max(t[a], ttl) else ttl
  }

  /** Sets an exact TTL. */
  function SetAddrs(t: Table, addrs: set<Multiaddr>, ttl: int): Table {
    map a | a in t.Keys + addrs :: if a in addrs then ttl else t[a]
  }

  /** Retags the addresses that carry `old`. */
  function UpdateAddrs(t: Table, old': int, ttl: int): Table {
    map a | a in t :: if t[a] == old' then ttl else t[a]
  }

  function RelaysOf(t: Table): set<Multiaddr> {
    set a | a in t && IsRelayAddr(a)
  }

  function CapRelays(c: Config, t: Table): Table {
    SetAddrs(t, RelaysOf(t), c.relay)
  }

  function ToSet(addrs: seq<Multiaddr>): set<Multiaddr> {
    set a | a in addrs
  }

  /** A signed peer record, and whether the book accepts it. */
  datatype Signed = Signed(addrs: seq<Multiaddr>, accepted: bool)

  /** What an identify says the peer listens on. */
  datatype Advert = Advert(signed: Option<Signed>, listen: seq<Multiaddr>)

  /** The addresses an identify puts forward: the accepted signed record, else the listen addresses. */
  function Advertised(ad: Advert): seq<Multiaddr> {
    if ad.signed.Some? && ad.signed.value.accepted then ad.signed.value.addrs else ad.listen
  }

  predicate Authoritative(ad: Advert, conns: seq<Multiaddr>) {
    ad.signed.Some? || |ad.listen| > 0 || |conns| > 0
  }
}
