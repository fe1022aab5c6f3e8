/** The cache and single-flight key of a /dnsaddr: which names share an entry. */
module CacheKeys {
  import opened Multiaddrs

  function LowerChar(c: char): char {
    if 'A' <= c <= 'Z' then (c as int + 32) as char else c
  }

  function AsciiLower(s: string): (r: string)
    ensures |r| == |s|
    ensures forall i | 0 <= i < |s| :: r[i] == LowerChar(s[i])
  {
    seq(|s|, i requires 0 <= i < |s| => LowerChar(s[i]))
  }

  /** The buffer is only allocated once an upper-case letter is met. */
  method AsciiLowerBuffer(s: string) returns (r: string)
    ensures |r| == |s|
    ensures forall i | 0 <= i < |s| && 'A' <= s[i] <= 'Z' :: r[i] as int - 'a' as int == s[i] as int - 'A' as int
    ensures forall i | 0 <= i < |s| && !('A' <= s[i] <= 'Z') :: r[i] == s[i]
    ensures r == AsciiLower(s)
  {
    var b: array?<char> := null;
    for i := 0 to |s|
      invariant b == null ==> AsciiLower(s[..i]) == s[..i]
      invariant b != null ==> fresh(b) && b.Length == |s|
      invariant b != null ==> forall k | 0 <= k < i :: b[k] == LowerChar(s[k])
      invariant b != null ==> forall k | i <= k < |s| :: b[k] == s[k]
    {
      if 'A' <= s[i] <= 'Z' {
        if b == null {
          b := new char[|s|](k requires 0 <= k < |s| => s[k]);
          forall k | 0 <= k < i ensures b[k] == LowerChar(s[k]) {
            assert AsciiLower(s[..i])[k] == s[..i][k];
          }
        }
        b[i] := (s[i] as int + 32) as char;
      } else if b == null {
        forall k | 0 <= k <= i ensures LowerChar(s[k]) == s[k] {
          if k < i { assert AsciiLower(s[..i])[k] == s[..i][k]; }
        }
      }
    }
    if b == null {
      assert s[..|s|] == s;
      return s;
    }
    return b[..];
  }

  function TrimDot(s: string): string {
    if |s| > 0 && s[|s| - 1] == '.' then s[..|s| - 1] else s
  }

  function CacheKey(addr: Multiaddr): string {
    if |addr| == 0 || addr[0].proto.code != P_DNSADDR then String(addr)
    else
      var key := "/dnsaddr/" + TrimDot(AsciiLower(addr[0].value));
      if |addr| > 1 then key + String(addr[1..]) else key
  }

  // ---- What the key separates ----

  predicate SlashFree(s: string) {
    '/' !in s
  }

  /** Equal up to the case of an ASCII letter. */
  predicate SameLetter(c: char, d: char) {
    || c == d
    || ('A' <= c <= 'Z' && d as int == c as int + 32)
    || ('A' <= d <= 'Z' && c as int == d as int + 32)
  }

  predicate SameLetters(t: string, u: string) {
    |t| == |u| && forall i | 0 <= i < |t| :: SameLetter(t[i], u[i])
  }

  /** `t` is the host name without the dot that may close it. */
  predicate Undotted(t: string, host: string) {
    || host == t + "."
    || (host == t && (t == "" || t[|t| - 1] != '.'))
  }

  /** Two host names that DNS reads as one: ASCII case and one trailing dot do not matter. */
  ghost predicate SameName(h: string, k: string) {
    exists t, u :: Undotted(t, h) && Undotted(u, k) && SameLetters(t, u)
  }

  lemma TrimUndots(t: string, host: string)
    ensures Undotted(t, host) <==> t == TrimDot(host)
  {
    if t == TrimDot(host) && t != host {
      assert host == t + ".";
    }
  }

  /** Every component uses a protocol of the registry, under its own name, and its value holds no slash. */
  predicate Registered(registry: map<string, Protocol>, addr: Multiaddr) {
    forall c | c in addr ::
      && c.proto.name in registry && registry[c.proto.name] == c.proto
      && SlashFree(c.proto.name) && SlashFree(c.value) && (!c.proto.sized ==> c.value == "")
  }

  lemma SlashSplit(x: string, u: string, y: string, v: string)
    requires SlashFree(x) && SlashFree(y)
    requires u == "" || u[0] == '/'
    requires v == "" || v[0] == '/'
    requires x + u == y + v
    ensures x == y && u == v
  {
    var w := x + u;
    assert forall i | 0 <= i < |x| :: w[i] == x[i] && x[i] in x;
    assert forall i | 0 <= i < |y| :: w[i] == y[i] && y[i] in y;
    assert u != "" ==> w[|x|] == '/';
    assert v != "" ==> w[|y|] == '/';
    assert x == w[..|x|] && u == w[|x|..];
    assert y == w[..|y|] && v == w[|y|..];
  }

  /** What follows the name of the first protocol. */
  function AfterName(a: Multiaddr): string
    requires a != []
  {
    (if a[0].proto.sized then "/" + a[0].value else "") + String(a[1..])
  }

  lemma Regroup(x: string, y: string, z: string)
    ensures (x + y) + z == x + (y + z)
  {
  }

  lemma StringShape(a: Multiaddr)
    requires a != []
    ensures String(a) == "/" + (a[0].proto.name + AfterName(a))
    ensures String(a)[1..] == a[0].proto.name + AfterName(a)
  {
    var c, rest := a[0], String(a[1..]);
    var value := if c.proto.sized then "/" + c.value else "";
    Regroup("/", c.proto.name + value, rest);
    Regroup(c.proto.name, value, rest);
  }

  lemma AfterNameShape(a: Multiaddr)
    requires a != []
    ensures String(a[1..]) == "" || String(a[1..])[0] == '/'
    ensures AfterName(a) == "" || AfterName(a)[0] == '/'
    ensures !a[0].proto.sized ==> AfterName(a) == String(a[1..])
    ensures a[0].proto.sized ==> AfterName(a) != "" && AfterName(a)[1..] == a[0].value + String(a[1..])
  {
    if a[1..] != [] { StringShape(a[1..]); }
    if a[0].proto.sized { Regroup("/", a[0].value, String(a[1..])); }
  }

  lemma FirstComponents(registry: map<string, Protocol>, a: Multiaddr, b: Multiaddr)
    requires a != [] && b != [] && Registered(registry, a) && Registered(registry, b)
    requires a[0].proto.name == b[0].proto.name && AfterName(a) == AfterName(b)
    ensures a[0] == b[0] && String(a[1..]) == String(b[1..])
  {
    AfterNameShape(a);
    AfterNameShape(b);
    if a[0].proto.sized {
      SlashSplit(a[0].value, String(a[1..]), b[0].value, String(b[1..]));
    }
  }

  lemma {:induction false} StringInjective(registry: map<string, Protocol>, a: Multiaddr, b: Multiaddr)
    requires Registered(registry, a) && Registered(registry, b)
    requires String(a) == String(b)
    ensures a == b
  {
    if a == [] {
      if b != [] { StringShape(b); }
    } else {
      StringShape(a);
      if b != [] {
        StringShape(b);
        AfterNameShape(a);
        AfterNameShape(b);
        SlashSplit(a[0].proto.name, AfterName(a), b[0].proto.name, AfterName(b));
        FirstComponents(registry, a, b);
        StringInjective(registry, a[1..], b[1..]);
        assert a == [a[0]] + a[1..] && b == [b[0]] + b[1..];
      }
    }
  }

  lemma LowerIdentifies(c: char, d: char)
    ensures LowerChar(c) == LowerChar(d) <==> SameLetter(c, d)
  {
  }

  lemma TrimAfterLower(h: string)
    ensures TrimDot(AsciiLower(h)) == AsciiLower(TrimDot(h))
  {
    if |h| > 0 {
      LowerIdentifies(h[|h| - 1], '.');
    }
  }

  lemma LowerNames(t: string, u: string)
    ensures AsciiLower(t) == AsciiLower(u) <==> SameLetters(t, u)
  {
    if SameLetters(t, u) {
      forall i | 0 <= i < |t| ensures AsciiLower(t)[i] == AsciiLower(u)[i] {
        LowerIdentifies(t[i], u[i]);
      }
    }
    if AsciiLower(t) == AsciiLower(u) {
      assert |t| == |AsciiLower(t)| == |AsciiLower(u)| == |u|;
      forall i | 0 <= i < |t| ensures SameLetter(t[i], u[i]) {
        assert AsciiLower(t)[i] == AsciiLower(u)[i];
        LowerIdentifies(t[i], u[i]);
      }
    }
  }

  lemma SameNameTrimmed(h: string, k: string)
    ensures SameName(h, k) <==> SameLetters(TrimDot(h), TrimDot(k))
  {
    TrimUndots(TrimDot(h), h);
    TrimUndots(TrimDot(k), k);
    forall t, u | Undotted(t, h) && Undotted(u, k)
      ensures t == TrimDot(h) && u == TrimDot(k)
    {
      TrimUndots(t, h);
      TrimUndots(u, k);
    }
  }

  lemma LowerIdempotent(s: string)
    ensures AsciiLower(AsciiLower(s)) == AsciiLower(s)
  {
    forall i | 0 <= i < |s| ensures LowerChar(LowerChar(s[i])) == LowerChar(s[i]) {
      LowerIdentifies(LowerChar(s[i]), s[i]);
    }
  }

  lemma LowerKeepsSlashFree(h: string)
    requires SlashFree(h)
    ensures SlashFree(TrimDot(AsciiLower(h)))
  {
    var r := AsciiLower(h);
    forall i | 0 <= i < |r| ensures r[i] != '/' {
      assert h[i] in h;
      LowerIdentifies(h[i], '/');
    }
  }

  function NormalHost(a: Multiaddr): string
    requires |a| > 0
  {
    TrimDot(AsciiLower(a[0].value))
  }

  lemma KeyShape(prefix: string, a: Multiaddr)
    requires prefix == "/dnsaddr/" && |a| > 0 && a[0].proto.code == P_DNSADDR
    ensures CacheKey(a) == prefix + (NormalHost(a) + String(a[1..]))
  {
    if |a| == 1 { assert NormalHost(a) + String(a[1..]) == NormalHost(a); }
    Regroup(prefix, NormalHost(a), String(a[1..]));
  }

  lemma SamePrefix(prefix: string, x: string, y: string)
    requires prefix + x == prefix + y
    ensures x == y
  {
    assert x == (prefix + x)[|prefix|..] && y == (prefix + y)[|prefix|..];
  }

  lemma RemainderShape(a: Multiaddr)
    requires |a| > 0
    ensures String(a[1..]) == "" || String(a[1..])[0] == '/'
  {
    if a[1..] != [] { StringShape(a[1..]); }
  }

  /** Two /dnsaddr addresses share a cache entry exactly when they name the same host and what follows it
      is rendered alike: neither too few entries (a case or trailing-dot variant is shared) nor too many
      (nothing else is folded). */
  lemma KeySeparatesRenderings(a: Multiaddr, b: Multiaddr)
    requires |a| > 0 && a[0].proto.code == P_DNSADDR && SlashFree(a[0].value)
    requires |b| > 0 && b[0].proto.code == P_DNSADDR && SlashFree(b[0].value)
    ensures CacheKey(a) == CacheKey(b) <==> SameName(a[0].value, b[0].value) && String(a[1..]) == String(b[1..])
  {
    var h, k := a[0].value, b[0].value;
    LowerKeepsSlashFree(h);
    LowerKeepsSlashFree(k);
    var prefix := "/dnsaddr/";
    KeyShape(prefix, a);
    KeyShape(prefix, b);
    TrimAfterLower(h);
    TrimAfterLower(k);
    LowerNames(TrimDot(h), TrimDot(k));
    SameNameTrimmed(h, k);
    if CacheKey(a) == CacheKey(b) {
      SamePrefix(prefix, NormalHost(a) + String(a[1..]), NormalHost(b) + String(b[1..]));
      RemainderShape(a);
      RemainderShape(b);
      SlashSplit(NormalHost(a), String(a[1..]), NormalHost(b), String(b[1..]));
    }
  }

  /** Where no value holds a slash, only identical remainders are rendered alike. */
  lemma KeySeparatesNames(registry: map<string, Protocol>, a: Multiaddr, b: Multiaddr)
    requires Registered(registry, a) && Registered(registry, b)
    requires |a| > 0 && a[0].proto.code == P_DNSADDR
    requires |b| > 0 && b[0].proto.code == P_DNSADDR
    ensures CacheKey(a) == CacheKey(b) <==> SameName(a[0].value, b[0].value) && a[1..] == b[1..]
  {
    KeySeparatesRenderings(a, b);
    if CacheKey(a) == CacheKey(b) { StringInjective(registry, a[1..], b[1..]); }
  }

  /** The values of path protocols may hold slashes, and then different remainders can be rendered alike
      and share an entry. */
  lemma PathValuesCanCollide(host: Component, path: Protocol, flag: Protocol, value: string)
    requires host.proto.code == P_DNSADDR && path.sized && !flag.sized
    ensures var a, b := [host, Component(path, value + "/" + flag.name)], [host, Component(path, value), Component(flag, "")];
      a[1..] != b[1..] && CacheKey(a) == CacheKey(b)
  {
    var x, y := Component(path, value + "/" + flag.name), Component(path, value);
    var z := Component(flag, "");
    assert [host, x][1..] == [x] && [host, y, z][1..] == [y, z];
    assert String([x]) == ComponentString(x);
    assert [y, z][1..] == [z] && String([z]) == ComponentString(z);
    assert ComponentString(x) == ComponentString(y) + ComponentString(z);
  }
}
