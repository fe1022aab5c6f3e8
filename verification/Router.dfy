/** The router that resolves the records of one response, all on one budget. */
module Router {
  import opened Attribution
  import opened Multiaddrs
  import opened Expansion
  import opened Resolution
  import opened ResolutionProofs
  import opened Resolver
  import opened AddrOrder

  datatype Action = Skip | Replace | Append

  /** An item of a response: a record with addresses, or an error, a nil or a record of another schema,
      which are passed on. */
  datatype Record = Record(id: Option<PeerID>, addrs: seq<Multiaddr>) | PassedOn(what: string)

  predicate Resolves(r: Record, action: Action) {
    r.Record? && r.id.Some? && ContainsDNSAddr(r.addrs) && action != Skip
  }

  /** The addresses a record is served with. */
  function Served(env: Env, net: Net, action: Action, r: Record, s: State): seq<Multiaddr>
    requires r.Record?
  {
    if Resolves(r, action) then SortFunc(net, Public(net, Resolved(env, r.id.value, r.addrs, s, action == Append)))
    else SortFunc(net, r.addrs)
  }

  function ServedRecord(env: Env, net: Net, action: Action, r: Record, s: State): Record {
    if r.PassedOn? then r else r.(addrs := Served(env, net, action, r, s))
  }

  function AfterRecord(env: Env, action: Action, r: Record, s: State): State {
    if Resolves(r, action) then AfterResolving(env, r.id.value, r.addrs, s) else s
  }

  /** The state before the `i`-th record of a response; every record starts with the same room. */
  function Before(env: Env, action: Action, records: seq<Record>, s: State, i: nat): State
    requires i <= |records|
  {
    if i == 0 then s
    else
      AfterRecord(env, action, records[i - 1], Before(env, action, records, s, i - 1))
  }

  /** The `i`-th record of the response. */
  function ServedAt(env: Env, net: Net, action: Action, records: seq<Record>, s: State, i: nat): Record
    requires i < |records|
  {
    ServedRecord(env, net, action, records[i], Before(env, action, records, s, i))
  }

  /** `out` is what the first records of the response are served as. */
  ghost predicate AllServed(env: Env, net: Net, action: Action, records: seq<Record>, s: State, out: seq<Record>) {
    && |out| <= |records|
    && forall i | 0 <= i < |out| :: out[i] == ServedAt(env, net, action, records, s, i)
  }

  /** The response so far, and the state it leaves behind. */
  ghost predicate ServedTo(env: Env, net: Net, action: Action, records: seq<Record>, s: State, out: seq<Record>, t: State) {
    AllServed(env, net, action, records, s, out) && t == Before(env, action, records, s, |out|)
  }

  lemma OneMore(env: Env, net: Net, action: Action, records: seq<Record>, s: State, out: seq<Record>)
    requires AllServed(env, net, action, records, s, out) && |out| < |records|
    ensures AllServed(env, net, action, records, s, out + [ServedAt(env, net, action, records, s, |out|)])
  {
  }

  lemma ServedMore(env: Env, net: Net, action: Action, records: seq<Record>, s: State, out: seq<Record>, t: State)
    requires ServedTo(env, net, action, records, s, out, t) && |out| < |records|
    ensures var r := records[|out|];
      ServedTo(env, net, action, records, s, out + [ServedRecord(env, net, action, r, t)], AfterRecord(env, action, r, t))
  {
    OneMore(env, net, action, records, s, out);
  }

  /** Over all records of a response, the queries asked for are the budget spent. */
  lemma {:induction false} ResponseAccounts(env: Env, action: Action, records: seq<Record>, s: State, n: nat)
    requires n <= |records|
    ensures var t := Before(env, action, records, s, n);
      && t.queries - s.queries == s.lookups - t.lookups >= 0
      && t.room == s.room
  {
    if n > 0 {
      ResponseAccounts(env, action, records, s, n - 1);
      var t, r := Before(env, action, records, s, n - 1), records[n - 1];
      if Resolves(r, action) { ResolvedIsBounded(env, r.id.value, r.addrs, t, action == Append); }
    }
  }

  /** Whatever path a record takes, it is served in order, relays last; on the resolving path nothing
      private is left, whatever the names resolved to. */
  lemma ServedInOrder(env: Env, net: Net, action: Action, r: Record, s: State)
    requires Encodes(net) && r.Record?
    ensures var out := Served(env, net, action, r, s);
      && Sorted(net, out) && RanksAscend(out) && EasiestFirst(net, out)
      && (Resolves(r, action) ==> forall a | a in out :: !net.private(a))
      && (!Resolves(r, action) ==> multiset(out) == multiset(r.addrs))
  {
    if Resolves(r, action) {
      var resolved := Resolved(env, r.id.value, r.addrs, s, action == Append);
      CanonicalForm(net, resolved, resolved);
      SortSorts(net, Public(net, resolved));
      var out := Served(env, net, action, r, s);
      forall a | a in out ensures !net.private(a) { assert multiset(out)[a] > 0; }
    } else {
      SortSorts(net, r.addrs);
      SortedRanks(net, SortFunc(net, r.addrs));
      SortedIsEasiestFirst(net, SortFunc(net, r.addrs));
    }
  }

  lemma PublicStays(net: Net, addrs: seq<Multiaddr>, a: Multiaddr)
    requires Encodes(net) && !net.private(a)
    ensures a in SortFunc(net, Public(net, addrs)) <==> a in addrs
  {
    SortSorts(net, Public(net, addrs));
    PublicCounts(net, addrs, a);
    assert a in SortFunc(net, Public(net, addrs)) <==> multiset(SortFunc(net, Public(net, addrs)))[a] > 0;
  }

  /** What each action does to a public /dnsaddr of a record that names no other peer. Skipping and
      appending keep it; replacing keeps it if its expansion was cut short or came back empty, and only
      then. Something rendered alike counts as the address. */
  lemma ActionsOnDnsAddrs(env: Env, net: Net, action: Action, r: Record, s: State, i: nat)
    requires Encodes(net) && r.Record? && r.id.Some? && i < |r.addrs|
    requires NamesThis(env.decode, r.id.value, r.addrs[i])
    requires forall b | String(b) == String(r.addrs[i]) :: !net.private(b)
    ensures var out := Served(env, net, action, r, s);
      var a, pid := r.addrs[i], r.id.value;
      var e := ExpansionOf(env, pid, a, StateAt(env, pid, r.addrs, s, i));
      && (action == Skip || action == Append ==> Has(out, a))
      && (action == Replace && (!e.complete || e.out == []) ==> Has(out, a))
      && (action == Replace && a in out ==>
            exists j: nat | j < |r.addrs| ::
              && r.addrs[j] == a
              && var f := ExpansionOf(env, pid, a, StateAt(env, pid, r.addrs, s, j));
                 !f.complete || f.out == [])
  {
    var a, pid := r.addrs[i], r.id.value;
    if action == Skip {
      SortSorts(net, r.addrs);
      assert a in multiset(SortFunc(net, r.addrs));
    } else {
      var resolved := Resolved(env, pid, r.addrs, s, action == Append);
      assert a in r.addrs;
      PublicStays(net, resolved, a);
      ReasonKeeps(env, pid, r.addrs, s, action == Append, i);
      if Has(resolved, a) {
        var b :| b in resolved && String(b) == String(a);
        PublicStays(net, resolved, b);
      }
      if a in resolved { SurvivorHasReason(env, pid, r.addrs, s, action == Append, a); }
    }
  }

  class DnsAddrRouter {
    const resolver: DnsAddrResolver
    const net: Net
    const action: Action

    constructor (resolver: DnsAddrResolver, net: Net, action: Action)
      ensures this.resolver == resolver && this.net == net && this.action == action
    {
      this.resolver, this.net, this.action := resolver, net, action;
    }

    method ResolveRecordAddrs(world: World, r: Record, budget: DnsAddrBudget) returns (addrs: seq<Multiaddr>)
      requires r.Record?
      modifies resolver, world, budget
      ensures var s := old(resolver.View(world, budget, MAX_RESOLVED_PER_RECORD));
        && addrs == Served(world.env, net, action, r, s)
        && resolver.View(world, budget, MAX_RESOLVED_PER_RECORD) == AfterRecord(world.env, action, r, s)
      ensures r.id == None || action == Skip || (forall a | a in r.addrs :: !HasProtocol(a, P_DNSADDR)) ==>
                && resolver.View(world, budget, MAX_RESOLVED_PER_RECORD) == old(resolver.View(world, budget, MAX_RESOLVED_PER_RECORD))
                && (Encodes(net) ==> multiset(addrs) == multiset(r.addrs))
      ensures Encodes(net) ==> EasiestFirst(net, addrs)
    {
      if Encodes(net) { ServedInOrder(world.env, net, action, r, resolver.View(world, budget, MAX_RESOLVED_PER_RECORD)); }
      if r.id.None? || !ContainsDNSAddr(r.addrs) { return SortFunc(net, r.addrs); }
      if action == Skip { return SortFunc(net, r.addrs); }
      var resolved := resolver.ResolveAddrs(world, r.id.value, r.addrs, budget, action == Append);
      addrs := FilterPrivateMultiaddr(net, resolved);
    }

    method ResolveRecords(world: World, records: seq<Record>, budget: DnsAddrBudget) returns (out: seq<Record>)
      modifies resolver, world, budget
      ensures var s := old(resolver.View(world, budget, MAX_RESOLVED_PER_RECORD));
        |out| == |records| && ServedTo(world.env, net, action, records, s, out, resolver.View(world, budget, MAX_RESOLVED_PER_RECORD))
    {
      ghost var s := resolver.View(world, budget, MAX_RESOLVED_PER_RECORD);
      out := [];
      for i := 0 to |records|
        invariant |out| == i
        invariant ServedTo(world.env, net, action, records, s, out, resolver.View(world, budget, MAX_RESOLVED_PER_RECORD))
      {
        ServedMore(world.env, net, action, records, s, out, resolver.View(world, budget, MAX_RESOLVED_PER_RECORD));
        if records[i].PassedOn? {
          out := out + [records[i]];
          continue;
        }
        var addrs := ResolveRecordAddrs(world, records[i], budget);
        out := out + [records[i].(addrs := addrs)];
      }
    }

    /** Resolves the records of one response on a fresh budget: at most 16 queries for all of them. */
    method ResolveResponse(world: World, records: seq<Record>) returns (out: seq<Record>)
      modifies resolver, world
      ensures var s := old(State(resolver.cache, 16, 100, world.tick, world.queries));
        |out| == |records| && AllServed(world.env, net, action, records, s, out)
      ensures old(world.queries) <= world.queries <= old(world.queries) + 16
    {
      var budget := new DnsAddrBudget();
      ghost var s := resolver.View(world, budget, MAX_RESOLVED_PER_RECORD);
      out := ResolveRecords(world, records, budget);
      ResponseAccounts(world.env, action, records, s, |records|);
    }
  }
}
