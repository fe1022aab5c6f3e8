/** Multiaddrs as sequences of protocol components, and the few tests someguy makes on them.
    A Go string is a `string` here, one `char` a byte. */
module Multiaddrs {

  datatype Option<+T> = None | Some(value: T)

  datatype Code =
    | P_IP4 | P_IP6 | P_DNS | P_DNS4 | P_DNS6
    | P_DNSADDR | P_P2P | P_CIRCUIT | P_OTHER(number: nat)

  /** `sized` says whether the protocol carries a value. */
  datatype Protocol = Protocol(code: Code, name: string, sized: bool)

  datatype Component = Component(proto: Protocol, value: string)

  type Multiaddr = seq<Component>

  /** The empty string stands for "no peer". */
  type PeerID = string

  predicate HasProtocol(addr: Multiaddr, code: Code) {
    exists c | c in addr :: c.proto.code == code
  }

  predicate IsDNSAddr(addr: Multiaddr) {
    HasProtocol(addr, P_DNSADDR)
  }

  predicate IsRelayAddr(addr: Multiaddr) {
    HasProtocol(addr, P_CIRCUIT)
  }

  predicate ContainsDNSAddr(addrs: seq<Multiaddr>) {
    exists a | a in addrs :: IsDNSAddr(a)
  }

  /** A bare /dnsaddr/<host>. */
  predicate ResolvableDNSAddr(addr: Multiaddr) {
    |addr| == 1 && addr[0].proto.code == P_DNSADDR
  }

  /** Splits a trailing /p2p off; `decode` is the peer ID parser. */
  function SplitPeerID(decode: string -> Option<PeerID>, addr: Multiaddr): (PeerID, Multiaddr) {
    if |addr| == 0 || addr[|addr| - 1].proto.code != P_P2P then ("", addr)
    else
      var rest := addr[..|addr| - 1];
      match decode(addr[|addr| - 1].value)
      case None => ("", rest)
      case Some(id) => (id, rest)
  }

  /** Splitting by concatenation: a last /p2p component goes, with its peer ID if that can be read; any
      other address is left alone. */
  lemma SplitByConcatenation(decode: string -> Option<PeerID>, a: Multiaddr, c: Component)
    ensures c.proto.code == P_P2P && decode(c.value) == None ==> SplitPeerID(decode, a + [c]) == ("", a)
    ensures forall id :: c.proto.code == P_P2P && decode(c.value) == Some(id) ==> SplitPeerID(decode, a + [c]) == (id, a)
    ensures c.proto.code != P_P2P ==> SplitPeerID(decode, a + [c]) == ("", a + [c])
    ensures SplitPeerID(decode, []) == ("", [])
  {
    assert (a + [c])[..|a|] == a;
  }

  /** The tests for a /dnsaddr and for a relay, component by component. */
  lemma ProtocolTests(a: Multiaddr, c: Component)
    ensures IsDNSAddr(a + [c]) <==> IsDNSAddr(a) || c.proto.code == P_DNSADDR
    ensures IsRelayAddr(a + [c]) <==> IsRelayAddr(a) || c.proto.code == P_CIRCUIT
    ensures !IsDNSAddr([]) && !IsRelayAddr([]) && !ResolvableDNSAddr([])
    ensures ResolvableDNSAddr([c]) <==> c.proto.code == P_DNSADDR
    ensures a != [] ==> !ResolvableDNSAddr(a + [c])
  {
    assert c in a + [c];
    assert forall d :: d in a + [c] <==> d in a || d == c;
  }

  /** The /name[/value] rendering of one component. */
  function ComponentString(c: Component): string {
    "/" + (c.proto.name + (if c.proto.sized then "/" + c.value else ""))
  }

  function String(addr: Multiaddr): string {
    if addr == [] then "" else ComponentString(addr[0]) + String(addr[1..])
  }
}
