/** Resolving the addresses of one record: what each address offers, in which state, and which of the
    offers end up in the response. */
module Resolution {
  import opened Multiaddrs
  import opened Expansion

  const RECURSION_LIMIT: nat := 4
  const MAX_LOOKUPS_PER_REQUEST: nat := 16
  const MAX_RESOLVED_PER_RECORD: nat := 100

  function Renderings(addrs: seq<Multiaddr>): set<string> {
    set a | a in addrs :: String(a)
  }

  /** Appends each of `more` that is not empty and not rendered like one already there. */
  function AppendAll(out: seq<Multiaddr>, more: seq<Multiaddr>): seq<Multiaddr>
    decreases |more|
  {
    if more == [] then out
    else
      AppendAll(if more[0] == [] || String(more[0]) in Renderings(out) then out else out + [more[0]], more[1..])
  }

  /** A /dnsaddr that does not name another peer. */
  predicate Own(env: Env, pid: PeerID, addr: Multiaddr) {
    var id := SplitPeerID(env.decode, addr).0;
    IsDNSAddr(addr) && (id == "" || id == pid)
  }

  function ExpansionOf(env: Env, pid: PeerID, addr: Multiaddr, s: State): Expanded {
    Expand(env, pid, addr, s, RECURSION_LIMIT)
  }

  /** The state before the `i`-th address. */
  function StateAt(env: Env, pid: PeerID, addrs: seq<Multiaddr>, s: State, i: nat): State
    requires i <= |addrs|
  {
    if i == 0 then s
    else
      var before := StateAt(env, pid, addrs, s, i - 1);
      if Own(env, pid, addrs[i - 1]) then ExpansionOf(env, pid, addrs[i - 1], before).s else before
  }

  predicate KeepsOriginal(e: Expanded, keepOriginal: bool) {
    keepOriginal || !e.complete || e.out == []
  }

  /** What one address offers, found in state `s`. */
  function Offer(env: Env, pid: PeerID, addr: Multiaddr, s: State, keepOriginal: bool): seq<Multiaddr> {
    if !IsDNSAddr(addr) then [addr]
    else if !Own(env, pid, addr) then []
    else
      var e := ExpansionOf(env, pid, addr, s);
      e.out + (if KeepsOriginal(e, keepOriginal) then [addr] else [])
  }

  /** What address `i` offers. */
  function OfferAt(env: Env, pid: PeerID, addrs: seq<Multiaddr>, s: State, keepOriginal: bool, i: nat): seq<Multiaddr>
    requires i < |addrs|
  {
    Offer(env, pid, addrs[i], StateAt(env, pid, addrs, s, i), keepOriginal)
  }

  function Offers(env: Env, pid: PeerID, addrs: seq<Multiaddr>, s: State, keepOriginal: bool, n: nat): seq<seq<Multiaddr>>
    requires n <= |addrs|
  {
    seq(n, i requires 0 <= i < n => OfferAt(env, pid, addrs, s, keepOriginal, i))
  }

  function Concat(parts: seq<seq<Multiaddr>>): seq<Multiaddr> {
    if parts == [] then [] else Concat(parts[..|parts| - 1]) + parts[|parts| - 1]
  }

  /** The offers of the first `n` addresses, in order. */
  function Offered(env: Env, pid: PeerID, addrs: seq<Multiaddr>, s: State, keepOriginal: bool, n: nat): seq<Multiaddr>
    requires n <= |addrs|
  {
    Concat(Offers(env, pid, addrs, s, keepOriginal, n))
  }

  lemma OneMoreOffer(env: Env, pid: PeerID, addrs: seq<Multiaddr>, s: State, keepOriginal: bool, n: nat)
    requires n < |addrs|
    ensures Offered(env, pid, addrs, s, keepOriginal, n + 1)
         == Offered(env, pid, addrs, s, keepOriginal, n) + OfferAt(env, pid, addrs, s, keepOriginal, n)
  {
    var parts := Offers(env, pid, addrs, s, keepOriginal, n + 1);
    assert parts[..n] == Offers(env, pid, addrs, s, keepOriginal, n);
  }

  /** The record's new addresses; a record without a /dnsaddr is left as it is, repeats included. */
  function Resolved(env: Env, pid: PeerID, addrs: seq<Multiaddr>, s: State, keepOriginal: bool): seq<Multiaddr> {
    if !ContainsDNSAddr(addrs) then addrs
    else AppendAll([], Offered(env, pid, addrs, s, keepOriginal, |addrs|))
  }

  /** The state after a record, its room given back. */
  function AfterResolving(env: Env, pid: PeerID, addrs: seq<Multiaddr>, s: State): State {
    if !ContainsDNSAddr(addrs) then s
    else StateAt(env, pid, addrs, s, |addrs|).(room := s.room)
  }

  lemma {:induction false} AppendAllConcat(out: seq<Multiaddr>, x: seq<Multiaddr>, y: seq<Multiaddr>)
    ensures AppendAll(out, x + y) == AppendAll(AppendAll(out, x), y)
    decreases |x|
  {
    if x == [] {
      assert x + y == y;
    } else {
      assert (x + y)[0] == x[0] && (x + y)[1..] == x[1..] + y;
      AppendAllConcat(if x[0] == [] || String(x[0]) in Renderings(out) then out else out + [x[0]], x[1..], y);
    }
  }
}
