/** The order of the addresses of a record, and why it is one canonical form. */
module AddrOrder {
  import opened Multiaddrs

  /** What the network library contributes: the byte encoding of an address and its private-range test. */
  datatype Net = Net(bytes: Multiaddr -> string, private: Multiaddr -> bool)

  ghost predicate Encodes(net: Net) {
    forall x, y :: net.bytes(x) == net.bytes(y) ==> x == y
  }

  function Rank(addr: Multiaddr): nat {
    if IsRelayAddr(addr) then 4
    else if addr == [] then 3
    else
      match addr[0].proto.code
      case P_IP4 => 0
      case P_IP6 => 0
      case P_DNS => 1
      case P_DNS4 => 1
      case P_DNS6 => 1
      case P_DNSADDR => 2
      case _ => 3
  }

  function CompareBytes(a: string, b: string): int {
    if a == [] && b == [] then 0
    else if a == [] then -1
    else if b == [] then 1
    else if a[0] < b[0] then -1
    else if a[0] > b[0] then 1
    else CompareBytes(a[1..], b[1..])
  }

  function CompareAddrs(net: Net, x: Multiaddr, y: Multiaddr): int {
    var d := Rank(x) - Rank(y);
    if d != 0 then d else CompareBytes(net.bytes(x), net.bytes(y))
  }

  ghost predicate Sorted(net: Net, s: seq<Multiaddr>) {
    forall i, j | 0 <= i < j < |s| :: CompareAddrs(net, s[i], s[j]) <= 0
  }

  // ---- compareAddrs is a total order ----

  lemma {:induction false} BytesOrder(a: string, b: string)
    ensures CompareBytes(a, b) == 0 <==> a == b
    ensures CompareBytes(a, b) == -CompareBytes(b, a)
  {
    if a != [] && b != [] {
      BytesOrder(a[1..], b[1..]);
      assert a == [a[0]] + a[1..] && b == [b[0]] + b[1..];
    }
  }

  lemma {:induction false} BytesTransitive(a: string, b: string, c: string)
    requires CompareBytes(a, b) <= 0 && CompareBytes(b, c) <= 0
    ensures CompareBytes(a, c) <= 0
  {
    if a != [] && b != [] && c != [] && a[0] == b[0] == c[0] {
      BytesTransitive(a[1..], b[1..], c[1..]);
    }
  }

  /** `CompareAddrs` is total, transitive, and ties only equal addresses. */
  lemma CompareIsTotalOrder(net: Net, x: Multiaddr, y: Multiaddr, z: Multiaddr)
    requires Encodes(net)
    ensures CompareAddrs(net, x, y) == 0 <==> x == y
    ensures CompareAddrs(net, x, y) < 0 <==> CompareAddrs(net, y, x) > 0
    ensures CompareAddrs(net, x, y) <= 0 && CompareAddrs(net, y, z) <= 0 ==> CompareAddrs(net, x, z) <= 0
  {
    BytesOrder(net.bytes(x), net.bytes(y));
    if CompareBytes(net.bytes(x), net.bytes(y)) <= 0 && CompareBytes(net.bytes(y), net.bytes(z)) <= 0 {
      BytesTransitive(net.bytes(x), net.bytes(y), net.bytes(z));
    }
  }

  /** The byte order, place by place: the first difference decides, and a prefix comes first. */
  ghost predicate BytesBefore(a: string, b: string) {
    || a < b
    || exists k | 0 <= k < |a| && k < |b| :: a[..k] == b[..k] && a[k] < b[k]
  }

  lemma CommonHead(a: string, b: string, k: nat)
    requires 0 < k <= |a| && k <= |b| && a[..k] == b[..k]
    ensures a[0] == b[0]
  {
    assert a[..k][0] == b[..k][0];
  }

  lemma {:induction false} CompareBytesIsTheOrder(a: string, b: string)
    ensures CompareBytes(a, b) < 0 <==> BytesBefore(a, b)
  {
    if a == [] || b == [] {
    } else if a[0] != b[0] {
      if a[0] < b[0] { assert a[..0] == b[..0]; }
      if k :| 0 <= k < |a| && k < |b| && a[..k] == b[..k] && a[k] < b[k] {
        if k > 0 {
          CommonHead(a, b, k);
          assert false;
        }
      }
    } else {
      CompareBytesIsTheOrder(a[1..], b[1..]);
      if BytesBefore(a, b) && !(a < b) {
        var k :| 0 <= k < |a| && k < |b| && a[..k] == b[..k] && a[k] < b[k];
        assert a[1..][..k - 1] == a[..k][1..] == b[..k][1..] == b[1..][..k - 1];
        assert a[1..][k - 1] < b[1..][k - 1];
      }
      if a < b { assert a[1..] < b[1..]; }
      if BytesBefore(a[1..], b[1..]) && !(a[1..] < b[1..]) {
        var k :| 0 <= k < |a[1..]| && k < |b[1..]| && a[1..][..k] == b[1..][..k] && a[1..][k] < b[1..][k];
        assert a[..k + 1] == [a[0]] + a[1..][..k] && b[..k + 1] == [b[0]] + b[1..][..k];
        assert a[..k + 1] == b[..k + 1] && a[k + 1] < b[k + 1];
      }
      if a[1..] < b[1..] { assert a == [a[0]] + a[1..] && b == [b[0]] + b[1..]; assert a < b; }
    }
  }

  // ---- Sorting ----

  function Insert(net: Net, s: seq<Multiaddr>, x: Multiaddr): seq<Multiaddr> {
    if s == [] || CompareAddrs(net, x, s[0]) <= 0 then [x] + s else [s[0]] + Insert(net, s[1..], x)
  }

  /** The result of a comparison sort; `SortedUnique` shows that the algorithm does not matter. */
  function SortFunc(net: Net, s: seq<Multiaddr>): seq<Multiaddr> {
    if s == [] then [] else Insert(net, SortFunc(net, s[1..]), s[0])
  }

  lemma {:induction false} InsertPermutes(net: Net, s: seq<Multiaddr>, x: Multiaddr)
    ensures multiset(Insert(net, s, x)) == multiset(s) + multiset{x}
  {
    if s != [] && CompareAddrs(net, x, s[0]) > 0 {
      InsertPermutes(net, s[1..], x);
      assert s == [s[0]] + s[1..];
    }
  }

  lemma LeastFirst(net: Net, a: seq<Multiaddr>, x: Multiaddr)
    requires Encodes(net) && Sorted(net, a) && x in a
    ensures CompareAddrs(net, a[0], x) <= 0
  {
    CompareIsTotalOrder(net, a[0], x, x);
  }

  lemma {:induction false} InsertSorted(net: Net, s: seq<Multiaddr>, x: Multiaddr)
    requires Encodes(net) && Sorted(net, s)
    ensures Sorted(net, Insert(net, s, x))
  {
    if s == [] {
    } else if CompareAddrs(net, x, s[0]) <= 0 {
      forall k | 0 <= k < |s| ensures CompareAddrs(net, x, s[k]) <= 0 {
        CompareIsTotalOrder(net, x, s[0], s[k]);
      }
    } else {
      var r := Insert(net, s[1..], x);
      InsertSorted(net, s[1..], x);
      InsertPermutes(net, s[1..], x);
      forall k | 0 <= k < |r| ensures CompareAddrs(net, s[0], r[k]) <= 0 {
        assert r[k] in multiset(r);
        CompareIsTotalOrder(net, s[0], x, x);
        LeastFirst(net, s, if r[k] in s[1..] then r[k] else s[0]);
      }
    }
  }

  lemma {:induction false} SortSorts(net: Net, s: seq<Multiaddr>)
    requires Encodes(net)
    ensures Sorted(net, SortFunc(net, s)) && multiset(SortFunc(net, s)) == multiset(s)
  {
    if s != [] {
      SortSorts(net, s[1..]);
      InsertSorted(net, SortFunc(net, s[1..]), s[0]);
      InsertPermutes(net, SortFunc(net, s[1..]), s[0]);
      assert s == [s[0]] + s[1..];
    }
  }

  lemma SameSize(a: seq<Multiaddr>, b: seq<Multiaddr>)
    requires multiset(a) == multiset(b)
    ensures |a| == |b|
  {
    assert |multiset(a)| == |a|;
  }

  lemma TailMultiset(a: seq<Multiaddr>)
    requires a != []
    ensures multiset(a[1..]) == multiset(a) - multiset{a[0]}
    ensures a == [a[0]] + a[1..]
  {
    assert a == [a[0]] + a[1..];
  }

  lemma SameLeast(net: Net, a: seq<Multiaddr>, b: seq<Multiaddr>)
    requires Encodes(net) && Sorted(net, a) && Sorted(net, b) && multiset(a) == multiset(b) && a != [] && b != []
    ensures a[0] == b[0]
  {
    assert a[0] in multiset(b) && b[0] in multiset(a);
    LeastFirst(net, a, b[0]);
    LeastFirst(net, b, a[0]);
    CompareIsTotalOrder(net, a[0], b[0], a[0]);
  }

  /** Two sorted lists of the same addresses are the same list. */
  lemma {:induction false} SortedUnique(net: Net, a: seq<Multiaddr>, b: seq<Multiaddr>)
    requires Encodes(net) && Sorted(net, a) && Sorted(net, b) && multiset(a) == multiset(b)
    ensures a == b
  {
    SameSize(a, b);
    if a != [] {
      SameLeast(net, a, b);
      TailMultiset(a);
      TailMultiset(b);
      SortedUnique(net, a[1..], b[1..]);
    }
  }

  // ---- filterPrivateMultiaddr ----

  function Public(net: Net, a: seq<Multiaddr>): seq<Multiaddr> {
    if a == [] then []
    else Public(net, a[..|a| - 1]) + if net.private(a[|a| - 1]) then [] else [a[|a| - 1]]
  }

  lemma {:induction false} PublicCounts(net: Net, a: seq<Multiaddr>, x: Multiaddr)
    ensures multiset(Public(net, a))[x] == if net.private(x) then 0 else multiset(a)[x]
  {
    if a != [] {
      var init := a[..|a| - 1];
      PublicCounts(net, init, x);
      assert a == init + [a[|a| - 1]];
    }
  }

  /** Nothing easier to dial follows: in particular only relays follow a relay. */
  ghost predicate RanksAscend(s: seq<Multiaddr>) {
    && (forall i, j | 0 <= i < j < |s| :: Rank(s[i]) <= Rank(s[j]))
    && (forall i, j | 0 <= i < j < |s| :: IsRelayAddr(s[i]) ==> IsRelayAddr(s[j]))
  }

  predicate StartsWith(a: Multiaddr, codes: set<Code>) {
    a != [] && a[0].proto.code in codes
  }

  /** How easy an address is to dial, by what it is made of: an IP address needs nothing, a host name one
      DNS query, a /dnsaddr several; anything else comes after these, and relays last of all. */
  ghost predicate NoHarderThan(x: Multiaddr, y: Multiaddr) {
    && (HasProtocol(x, P_CIRCUIT) ==> HasProtocol(y, P_CIRCUIT))
    && (!HasProtocol(y, P_CIRCUIT) ==>
          && (StartsWith(y, {P_IP4, P_IP6}) ==> StartsWith(x, {P_IP4, P_IP6}))
          && (StartsWith(y, {P_DNS, P_DNS4, P_DNS6}) ==> StartsWith(x, {P_IP4, P_IP6, P_DNS, P_DNS4, P_DNS6}))
          && (StartsWith(y, {P_DNSADDR}) ==> StartsWith(x, {P_IP4, P_IP6, P_DNS, P_DNS4, P_DNS6, P_DNSADDR})))
  }

  /** Easier ones first, and among equally easy ones the smaller encoding first. */
  ghost predicate EasiestFirst(net: Net, s: seq<Multiaddr>) {
    forall i, j | 0 <= i < j < |s| ::
      && NoHarderThan(s[i], s[j])
      && (NoHarderThan(s[j], s[i]) && s[i] != s[j] ==> BytesBefore(net.bytes(s[i]), net.bytes(s[j])))
  }

  lemma RankIsHardness(x: Multiaddr, y: Multiaddr)
    ensures Rank(x) <= Rank(y) <==> NoHarderThan(x, y)
  {
  }

  lemma SortedIsEasiestFirst(net: Net, s: seq<Multiaddr>)
    requires Encodes(net) && Sorted(net, s)
    ensures EasiestFirst(net, s)
  {
    forall i, j | 0 <= i < j < |s|
      ensures NoHarderThan(s[i], s[j])
      ensures NoHarderThan(s[j], s[i]) && s[i] != s[j] ==> BytesBefore(net.bytes(s[i]), net.bytes(s[j]))
    {
      var x, y := s[i], s[j];
      assert CompareAddrs(net, x, y) <= 0;
      RankIsHardness(x, y);
      RankIsHardness(y, x);
      BytesOrder(net.bytes(x), net.bytes(y));
      CompareBytesIsTheOrder(net.bytes(x), net.bytes(y));
    }
  }

  lemma SortedRanks(net: Net, s: seq<Multiaddr>)
    requires Sorted(net, s)
    ensures RanksAscend(s)
  {
    forall i, j | 0 <= i < j < |s| ensures Rank(s[i]) <= Rank(s[j]) && (IsRelayAddr(s[i]) ==> IsRelayAddr(s[j])) {
      assert CompareAddrs(net, s[i], s[j]) <= 0;
    }
  }

  /** The canonical form: every arrival order of the same addresses is served as the same list, which
      holds exactly the public ones, cheapest to dial first and relays last. */
  lemma CanonicalForm(net: Net, a: seq<Multiaddr>, b: seq<Multiaddr>)
    requires Encodes(net) && multiset(a) == multiset(b)
    ensures SortFunc(net, Public(net, a)) == SortFunc(net, Public(net, b))
    ensures forall x :: multiset(SortFunc(net, Public(net, a)))[x] == if net.private(x) then 0 else multiset(a)[x]
    ensures RanksAscend(SortFunc(net, Public(net, a))) && EasiestFirst(net, SortFunc(net, Public(net, a)))
  {
    var p, q := Public(net, a), Public(net, b);
    forall x ensures multiset(p)[x] == multiset(q)[x] == if net.private(x) then 0 else multiset(a)[x] {
      PublicCounts(net, a, x);
      PublicCounts(net, b, x);
    }
    SortSorts(net, p);
    SortSorts(net, q);
    SortedUnique(net, SortFunc(net, p), SortFunc(net, q));
    SortedRanks(net, SortFunc(net, p));
    SortedIsEasiestFirst(net, SortFunc(net, p));
  }

  method FilterPrivateMultiaddr(net: Net, a: seq<Multiaddr>) returns (b: seq<Multiaddr>)
    ensures b == SortFunc(net, Public(net, a))
    ensures Encodes(net) ==> EasiestFirst(net, b) && forall x :: multiset(b)[x] == if net.private(x) then 0 else multiset(a)[x]
  {
    b := [];
    for i := 0 to |a|
      invariant b == Public(net, a[..i])
    {
      assert a[..i + 1][..i] == a[..i];
      if net.private(a[i]) { continue; }
      b := b + [a[i]];
    }
    assert a[..|a|] == a;
    b := SortFunc(net, b);
    if Encodes(net) { CanonicalForm(net, a, a); }
  }
}
