/** Main results about the fallback iterator, over every run of any number of iterators. */
module FallbackResults {
  import opened Multiaddrs
  import opened FallbackIter
  import opened FallbackCounting
  import opened FallbackDelivery
  import opened FallbackContents

  lemma ReachableInv(cap: nat, moves: seq<Move>, t: System, n: nat)
    requires Reaches(Start(cap), moves, t) && n < |t.iters|
    ensures Inv(t.iters[n]) && Counts(t.iters[n])
  {
    RunKeepsInv(Start(cap), moves, t, n);
    RunKeepsCounts(Start(cap), moves, t);
  }

  lemma ReachableContents(cap: nat, moves: seq<Move>, t: System, n: nat)
    requires Reaches(Start(cap), moves, t) && n < |t.iters|
    ensures SourceContents(t.iters[n]) && LookupContents(t.iters[n])
  {
    RunKeepsContents(Start(cap), moves, t, n);
  }

  // ---- Conservation ----

  function Indices(p: Lookup -> bool, xs: seq<Lookup>): (r: set<nat>)
    ensures forall l: nat :: l in r <==> l < |xs| && p(xs[l])
  {
    if xs == [] then {}
    else
      var n := |xs| - 1;
      Indices(p, xs[..n]) + if p(xs[n]) then {n} else {}
  }

  lemma {:induction false} TallyIsSize(p: Lookup -> bool, xs: seq<Lookup>)
    ensures Tally(p, xs) == |Indices(p, xs)|
  {
    if xs != [] { TallyIsSize(p, xs[..|xs| - 1]); }
  }

  function Elements(s: seq<nat>): (r: set<nat>)
    ensures forall k :: k in r <==> k in s
  {
    if s == [] then {}
    else
      var n := |s| - 1;
      assert s == s[..n] + [s[n]];
      Elements(s[..n]) + {s[n]}
  }

  lemma {:induction false} DistinctSize(s: seq<nat>)
    requires Distinct(s)
    ensures |Elements(s)| == |s|
  {
    if s != [] {
      var n := |s| - 1;
      DistinctSize(s[..n]);
      assert s[n] !in s[..n];
    }
  }

  /** Identities that occur once each, exactly for the lookups with a property, count them. */
  lemma CountByIdentity(p: Lookup -> bool, xs: seq<Lookup>, ids: seq<nat>)
    requires Distinct(ids) && forall l | l in ids :: l < |xs|
    requires forall l: nat | l < |xs| :: p(xs[l]) <==> l in ids
    ensures Tally(p, xs) == |ids|
  {
    TallyIsSize(p, xs);
    DistinctSize(ids);
    assert Indices(p, xs) == Elements(ids);
  }

  function HasFate(f: Fate): Lookup -> bool {
    (x: Lookup) => x.fate == f
  }

  function CountFate(xs: seq<Lookup>, f: Fate): nat {
    Tally(HasFate(f), xs)
  }

  lemma {:induction false} FatesAddUp(xs: seq<Lookup>)
    ensures |xs| == CountFate(xs, Pending) + CountFate(xs, Buffered) + CountFate(xs, Delivered)
                    + CountFate(xs, Discarded) + CountFate(xs, Dropped) + CountFate(xs, Abandoned)
  {
    if xs != [] { FatesAddUp(xs[..|xs| - 1]); }
  }

  /** Conservation: each dispatched lookup is still searching, in the buffer, delivered, discarded by
      Next for want of addresses, dropped on a full buffer, or abandoned on cancel, and the counts of
      what really is in the buffer and in the response add up. What is in them is what the lookups
      sent, and only what has no addresses is discarded. */
  lemma LookupsAreConserved(cap: nat, moves: seq<Move>, t: System, n: nat)
    requires Reaches(Start(cap), moves, t) && n < |t.iters|
    ensures var it := t.iters[n];
      |it.lookups| == CountFate(it.lookups, Pending) + |it.buffer| + |LookupIds(it.out)|
                      + CountFate(it.lookups, Discarded) + CountFate(it.lookups, Dropped) + CountFate(it.lookups, Abandoned)
    ensures forall l | 0 <= l < |t.iters[n].lookups| && t.iters[n].lookups[l].pc.Exited? :: !t.iters[n].lookups[l].fate.Pending?
    ensures LookupContents(t.iters[n])
  {
    ReachableInv(cap, moves, t, n);
    ReachableContents(cap, moves, t, n);
    var it := t.iters[n];
    var b, d := BufferIds(it.buffer), LookupIds(it.out);
    forall l: nat | l < |it.lookups|
      ensures it.lookups[l].fate == Buffered <==> l in b
      ensures it.lookups[l].fate == Delivered <==> l in d
      ensures it.lookups[l].fate.Pending? ==> !it.lookups[l].pc.Exited?
    {
      assert FateOk(it.lookups[l], l in b, l in d, it.canceled);
    }
    CountByIdentity(HasFate(Buffered), it.lookups, b);
    CountByIdentity(HasFate(Delivered), it.lookups, d);
    FatesAddUp(it.lookups);
  }

  /** Whether the fate of a lookup was right when it was decided: a result is dropped exactly when it was
      sent to a full buffer, and abandoned only in a canceled response. `found` is what was sent. */
  lemma FateWasRight(cap: nat, moves: seq<Move>, t: System, n: nat, l: nat)
    requires Reaches(Start(cap), moves, t) && Settled(t, n, l)
    ensures exists before, u, step, after ::
      && moves == before + [Take(n, step)] + after
      && Reaches(Start(cap), before, u) && n < |u.iters|
      && Settles(u.iters[n], step, l, t.iters[n].lookups[l])
  {
    var before, u, step, after := WhatSettled(Start(cap), moves, t, n, l);
  }

  lemma {:induction false} ReachesOn(s: System, moves: seq<Move>, t: System, more: seq<Move>, u: System)
    requires Reaches(s, moves, t) && Reaches(t, more, u)
    ensures Reaches(s, moves + more, u)
    decreases |moves|
  {
    if moves == [] {
      assert moves + more == more;
    } else {
      ReachesOn(Do(s, moves[0]), moves[1..], t, more, u);
      assert (moves + more)[1..] == moves[1..] + more;
    }
  }

  /** What a cancel stops: a lookup that is still searching then delivers nothing, whatever it finds. */
  lemma CancelStopsSearchingLookups(cap: nat, before: seq<Move>, s: System, moves: seq<Move>, t: System, n: nat, l: nat)
    requires Reaches(Start(cap), before, s) && Reaches(s, moves, t) && n < |s.iters|
    requires l < |s.iters[n].lookups| && s.iters[n].lookups[l].pc.Searching? && s.iters[n].canceled
    ensures n < |t.iters| && l < |t.iters[n].lookups| && !t.iters[n].lookups[l].pc.Sending?
    ensures l !in LookupIds(t.iters[n].out) && l !in BufferIds(t.iters[n].buffer)
    ensures t.iters[n].lookups[l].pc.Searching? || t.iters[n].lookups[l].fate.Abandoned?
  {
    ReachableInv(cap, before, s, n);
    CanceledLookupsSendNothing(s, moves, t, n, l);
    ReachesOn(Start(cap), before, s, moves, t);
    ReachableInv(cap, before + moves, t, n);
    var it := t.iters[n];
    assert FateOk(it.lookups[l], l in BufferIds(it.buffer), l in LookupIds(it.out), it.canceled);
  }

  /** Every source record read is kept, skipped, dispatched to exactly one lookup of its own, or the
      one being decided. It is kept exactly when it, or the cache, has addresses for the peer. */
  lemma SourceIsConserved(cap: nat, moves: seq<Move>, t: System, n: nat, i: nat)
    requires Reaches(Start(cap), moves, t) && n < |t.iters| && i < t.iters[n].pos
    ensures var it := t.iters[n];
      && |it.verdicts| == |it.seen| == it.pos <= |it.src|
      && (it.verdicts[i].Kept? <==> Servable(Complete(it.src[i], it.seen[i])))
      && (it.verdicts[i].Deciding? <==> DecidingAt(it, i))
      && (it.verdicts[i].Dispatched? <==> exists l | 0 <= l < |it.lookups| :: it.lookups[l].i == i)
      && (forall l, m | 0 <= l < |it.lookups| && 0 <= m < |it.lookups| && it.lookups[l].i == i == it.lookups[m].i :: l == m)
  {
    ReachableInv(cap, moves, t, n);
    ReachableContents(cap, moves, t, n);
    var it := t.iters[n];
    assert SourceOk(it);
    forall l | 0 <= l < |it.lookups| && it.lookups[l].i == i ensures it.verdicts[i] == Dispatched(l) {
    }
    if it.verdicts[i].Dispatched? { assert it.lookups[it.verdicts[i].l].i == i; }
  }

  // ---- Order ----

  /** The response: the source's own contribution, in source order and completed from the cache, then
      only what lookups found, with addresses, each lookup at most once and none before the source is
      read to its end. */
  lemma DeliveriesInOrder(cap: nat, moves: seq<Move>, t: System, n: nat)
    requires Reaches(Start(cap), moves, t) && n < |t.iters|
    ensures var it := t.iters[n];
      && |it.seen| == it.pos <= |it.src|
      && var own := FromTheSource(it.src, it.seen);
      && own <= it.out
      && (forall k | |own| <= k < |it.out| :: it.out[k].FromLookup? && Carries(it.lookups, it.out[k].l, it.out[k].addrs))
      && (own < it.out ==> it.pos == |it.src|)
      && (forall j, k | 0 <= j < k < |it.out| && it.out[k].FromSource? :: it.out[j].FromSource?)
      && (forall i | 0 <= i < |it.seen| :: Take(n, SourceNext(it.seen[i])) in moves)
      && SourceIndices(it.out) == KeptIndices(it.verdicts)
      && Distinct(LookupIds(it.out))
      && AllServe(it.out)
  {
    ReachableInv(cap, moves, t, n);
    ReachableContents(cap, moves, t, n);
    NoneFromSource(t.iters[n].out);
    forall i: nat | i < |t.iters[n].seen| ensures Take(n, SourceNext(t.iters[n].seen[i])) in moves {
      CacheWasRead(Start(cap), moves, t, n, i);
    }
  }

  // ---- The end ----

  ghost predicate DropsOk(it: Iter) {
    forall l | 0 <= l < |it.lookups| && it.lookups[l].fate.Dropped? :: |it.lookups| > BUFFER_SIZE
  }

  lemma {:induction false} SubsetSize(a: set<nat>, b: set<nat>)
    requires a <= b
    ensures |a| <= |b|
  {
    if a != {} {
      var x :| x in a;
      SubsetSize(a - {x}, b - {x});
    }
  }

  function FirstN(n: nat): (s: set<nat>)
    ensures |s| == n && forall k: nat :: k in s <==> k < n
  {
    if n == 0 then {}
    else
      var below := FirstN(n - 1);
      assert n - 1 !in below;
      below + {n - 1}
  }

  /** A full buffer holds as many lookups as it has places, and the one that finds it full is another. */
  lemma FullBufferMeansMany(it: Iter, l: nat)
    requires Inv(it) && At(it, l, Sending) && |it.buffer| >= BUFFER_SIZE
    ensures |it.lookups| > BUFFER_SIZE
  {
    var ids := BufferIds(it.buffer);
    assert FateOk(it.lookups[l], l in ids, l in LookupIds(it.out), it.canceled);
    DistinctSize(ids);
    var others := FirstN(|it.lookups|) - {l};
    SubsetSize(Elements(ids), others);
  }

  lemma NothingElseDrops(it: Iter, step: Step)
    requires DropsOk(it) && Enabled(it, step) && (step.Send? ==> |it.buffer| < BUFFER_SIZE)
    ensures DropsOk(Apply(it, step))
  {
    if !OfLookup(step) && !step.Receive? {
      assert Apply(it, step).lookups[..|it.lookups|] == it.lookups;
    }
  }

  lemma StepKeepsDrops(it: Iter, step: Step)
    requires Inv(it) && DropsOk(it) && Enabled(it, step)
    ensures DropsOk(Apply(it, step))
  {
    if step.Send? && |it.buffer| >= BUFFER_SIZE {
      FullBufferMeansMany(it, step.l);
    } else {
      NothingElseDrops(it, step);
    }
  }

  lemma {:induction false} RunKeepsDrops(s: System, moves: seq<Move>, t: System, n: nat)
    requires Reaches(s, moves, t) && n < |t.iters|
    requires forall k | 0 <= k < |s.iters| :: Inv(s.iters[k]) && DropsOk(s.iters[k])
    ensures DropsOk(t.iters[n])
    decreases |moves|
  {
    if moves != [] {
      if moves[0].Take? {
        StepKeepsInv(s.iters[moves[0].n], moves[0].step);
        StepKeepsDrops(s.iters[moves[0].n], moves[0].step);
      }
      RunKeepsDrops(Do(s, moves[0]), moves[1..], t, n);
    }
  }

  /** When Next has returned false because nothing was running, every record was decided and every
      lookup is over. Without a cancel, and with no more lookups than the buffer holds, what a lookup
      found was delivered, is still in the buffer, or had no addresses. */
  lemma EndOfResponse(cap: nat, moves: seq<Move>, t: System, n: nat, l: nat)
    requires Reaches(Start(cap), moves, t) && n < |t.iters| && t.iters[n].pc == Ended(false)
    requires l < |t.iters[n].lookups|
    ensures var it := t.iters[n];
      && it.pos == |it.src|
      && it.lookups[l].pc.Exited?
      && (!it.canceled && |it.lookups| <= 100 ==>
            || l in LookupIds(it.out)
            || l in BufferIds(it.buffer)
            || (it.lookups[l].fate.Discarded? && it.lookups[l].found == []))
  {
    ReachableInv(cap, moves, t, n);
    ReachableContents(cap, moves, t, n);
    RunKeepsDrops(Start(cap), moves, t, n);
    var it := t.iters[n];
    TallyPositive(Unfinished, it.lookups);
    assert FateOk(it.lookups[l], l in BufferIds(it.buffer), l in LookupIds(it.out), it.canceled);
  }

  /** Something with addresses lies in the buffer. */
  ghost predicate FoundInBuffer(it: Iter) {
    exists k | 0 <= k < |it.buffer| :: it.buffer[k].addrs != []
  }

  ghost predicate FoundWithFate(it: Iter, f: Fate) {
    exists l | 0 <= l < |it.lookups| :: it.lookups[l].fate == f && it.lookups[l].found != []
  }

  ghost predicate EverythingFoundIsDelivered(it: Iter) {
    forall l: nat | l < |it.lookups| && it.lookups[l].found != [] :: l in LookupIds(it.out)
  }

  lemma BufferedIsFound(it: Iter)
    requires Inv(it) && LookupContents(it)
    ensures FoundWithFate(it, Buffered) <==> FoundInBuffer(it)
  {
    var ids := BufferIds(it.buffer);
    if k :| 0 <= k < |it.buffer| && it.buffer[k].addrs != [] {
      var l := it.buffer[k].l;
      assert ids[k] == l && l in ids && Carries(it.lookups, l, it.buffer[k].addrs);
      assert FateOk(it.lookups[l], l in ids, l in LookupIds(it.out), it.canceled);
    }
    if l: nat :| l < |it.lookups| && it.lookups[l].fate == Buffered && it.lookups[l].found != [] {
      assert FateOk(it.lookups[l], l in ids, l in LookupIds(it.out), it.canceled);
      var k :| 0 <= k < |ids| && ids[k] == l;
      assert Carries(it.lookups, it.buffer[k].l, it.buffer[k].addrs);
    }
  }

  /** "Everything found is delivered" holds at the end exactly when no result with addresses was left in
      the buffer, none was dropped and none abandoned. */
  lemma EverythingFoundIsDeliveredExactlyWhen(cap: nat, moves: seq<Move>, t: System, n: nat)
    requires Reaches(Start(cap), moves, t) && n < |t.iters| && t.iters[n].pc == Ended(false)
    ensures var it := t.iters[n];
      EverythingFoundIsDelivered(it) <==> !FoundInBuffer(it) && !FoundWithFate(it, Dropped) && !FoundWithFate(it, Abandoned)
  {
    ReachableInv(cap, moves, t, n);
    ReachableContents(cap, moves, t, n);
    var it := t.iters[n];
    BufferedIsFound(it);
    TallyPositive(Unfinished, it.lookups);
    forall l: nat | l < |it.lookups|
      ensures it.lookups[l].fate.Delivered? <==> l in LookupIds(it.out)
      ensures !it.lookups[l].fate.Pending?
    {
      assert FateOk(it.lookups[l], l in BufferIds(it.buffer), l in LookupIds(it.out), it.canceled);
    }
  }

  /** The step that leaves results behind: looking at the counter ends the response exactly when it is
      zero, and then leaves something found in the buffer exactly when it is there at that moment. */
  lemma LoadLeavesBehindExactlyWhen(cap: nat, moves: seq<Move>, t: System, n: nat)
    requires Reaches(Start(cap), moves, t) && n < |t.iters| && t.iters[n].pc.Checking?
    ensures var it := t.iters[n];
      var ended := Apply(it, Load);
      ended.pc == Ended(false) && FoundWithFate(ended, Buffered) <==> it.ongoing == 0 && FoundInBuffer(it)
  {
    ReachableInv(cap, moves, t, n);
    ReachableContents(cap, moves, t, n);
    BufferedIsFound(t.iters[n]);
  }

  /** The source is exhausted, no lookup is running, and Next does not wait. */
  predicate Finished(it: Iter) {
    && it.pos == |it.src| && it.ongoing == 0 && (forall l | 0 <= l < |it.lookups| :: it.lookups[l].pc.Exited?)
    && (it.pc == Ended(false) || it.pc.AtSource? || it.pc.Checking?)
  }

  lemma EndIsFinished(it: Iter)
    requires Inv(it) && Counts(it) && it.pc == Ended(false)
    ensures Finished(it)
  {
    TallyPositive(Unfinished, it.lookups);
  }

  lemma StepStaysFinished(it: Iter, step: Step)
    requires Finished(it) && Enabled(it, step)
    ensures Finished(Apply(it, step)) && Apply(it, step).out == it.out && Apply(it, step).buffer == it.buffer
  {
  }

  /** The end is final: whatever happens after Next returned false with nothing running, another call of
      Next serves nothing, and what is in the buffer stays there. */
  lemma {:induction false} EndIsFinal(s: System, moves: seq<Move>, t: System, n: nat)
    requires Reaches(s, moves, t) && n < |s.iters| && Finished(s.iters[n])
    ensures n < |t.iters| && Finished(t.iters[n])
    ensures t.iters[n].out == s.iters[n].out && t.iters[n].buffer == s.iters[n].buffer
    decreases |moves|
  {
    if moves != [] {
      if moves[0].Take? && moves[0].n == n { StepStaysFinished(s.iters[n], moves[0].step); }
      EndIsFinal(Do(s, moves[0]), moves[1..], t, n);
    }
  }

  lemma {:induction false} Then(s: System, moves: seq<Move>, t: System, m: Move)
    requires Reaches(s, moves, t) && Allowed(t, m)
    ensures Reaches(s, moves + [m], Do(t, m))
    decreases |moves|
  {
    if moves == [] {
      assert [m][1..] == [];
    } else {
      Then(Do(s, moves[0]), moves[1..], t, m);
      assert (moves + [m])[1..] == moves[1..] + [m];
    }
  }

  /** One iterator alone with one slot, whose source is a single peer without addresses. */
  function Lone(pos: nat, pc: Pc, ongoing: int, buffer: seq<Item>, lookups: seq<Lookup>, verdicts: seq<Verdict>): Iter {
    Iter([Peer([])], pos, pc, false, ongoing, buffer, lookups, verdicts, if pos == 0 then [] else [[]], [])
  }

  ghost predicate CanReach(it: Iter, slots: int) {
    exists moves :: Reaches(Start(1), moves, System(1, slots, [it]))
  }

  lemma Onward(it: Iter, slots: int, step: Step, it': Iter)
    requires CanReach(it, slots) && Allowed(System(1, slots, [it]), Take(0, step)) && Apply(it, step) == it'
    ensures CanReach(it', slots + SlotDelta(step))
  {
    var moves :| Reaches(Start(1), moves, System(1, slots, [it]));
    Then(Start(1), moves, System(1, slots, [it]), Take(0, step));
    assert [it][0 := it'] == [it'];
  }

  lemma LoneDispatches()
    ensures CanReach(Lone(1, AtSource, 1, [], [Lookup(0, Searching, Pending, [])], [Dispatched(0)]), 1)
  {
    Then(Start(1), [], Start(1), Open([Peer([])]));
    assert Do(Start(1), Open([Peer([])])) == System(1, 0, [Lone(0, Ready, 0, [], [], [])]);
    Onward(Lone(0, Ready, 0, [], [], []), 0, CallNext, Lone(0, AtSource, 0, [], [], []));
    Onward(Lone(0, AtSource, 0, [], [], []), 0, SourceNext([]), Lone(1, Gate(0), 0, [], [], [Deciding]));
    Onward(Lone(1, Gate(0), 0, [], [], [Deciding]), 0, Acquire, Lone(1, Slotted(0), 0, [], [], [Deciding]));
    Onward(Lone(1, Slotted(0), 0, [], [], [Deciding]), 1, Count, Lone(1, Counted(0), 1, [], [], [Deciding]));
    Onward(Lone(1, Counted(0), 1, [], [], [Deciding]), 1, Spawn,
           Lone(1, AtSource, 1, [], [Lookup(0, Searching, Pending, [])], [Dispatched(0)]));
  }

  function Sent(found: seq<Multiaddr>, pos: nat, pc: Pc, ongoing: int, lpc: LookupPc): Iter {
    Lone(pos, pc, ongoing, [Item(0, found)], [Lookup(0, lpc, Buffered, found)], [Dispatched(0)])
  }

  lemma LoneLookupOvertakes(found: seq<Multiaddr>)
    ensures CanReach(Sent(found, 1, AtSource, 0, Exited), 0)
  {
    LoneDispatches();
    Onward(Lone(1, AtSource, 1, [], [Lookup(0, Searching, Pending, [])], [Dispatched(0)]), 1, CheckCtx(0),
           Lone(1, AtSource, 1, [], [Lookup(0, Sending, Pending, [])], [Dispatched(0)]));
    Onward(Lone(1, AtSource, 1, [], [Lookup(0, Sending, Pending, [])], [Dispatched(0)]), 1, Send(0, found),
           Sent(found, 1, AtSource, 1, Releasing));
    Onward(Sent(found, 1, AtSource, 1, Releasing), 1, Release(0), Sent(found, 1, AtSource, 1, Uncounting));
    Onward(Sent(found, 1, AtSource, 1, Uncounting), 0, Uncount(0), Sent(found, 1, AtSource, 0, Exited));
  }

  /** "Everything found is delivered" is not promised: a lookup that sends, releases and uncounts before
      Next looks at the counter leaves its result in the buffer, and the response ends without it. */
  lemma ResultsCanBeLeftBehind(found: seq<Multiaddr>)
    requires found != []
    ensures exists moves, t ::
      && Reaches(Start(1), moves, t) && |t.iters| == 1
      && t.iters[0].pc == Ended(false) && !t.iters[0].canceled
      && t.iters[0].out == [] && t.iters[0].buffer == [Item(0, found)]
  {
    LoneLookupOvertakes(found);
    Onward(Sent(found, 1, AtSource, 0, Exited), 0, SourceNext([]), Sent(found, 1, Checking, 0, Exited));
    Onward(Sent(found, 1, Checking, 0, Exited), 0, Load, Sent(found, 1, Ended(false), 0, Exited));
    var t := System(1, 0, [Sent(found, 1, Ended(false), 0, Exited)]);
    var moves :| Reaches(Start(1), moves, t);
    assert |t.iters| == 1;
  }

  // ---- Progress ----

  predicate OfConsumer(step: Step) {
    !OfLookup(step) && !step.Cancel?
  }

  function Unread(it: Iter): int {
    |it.src| - it.pos
  }

  /** Lookups that may still bring something, a dispatch under way included. */
  function Outstanding(it: Iter): nat {
    CountFate(it.lookups, Pending) + |it.buffer| + One(it.pc.Gate? || it.pc.Slotted? || it.pc.Counted?)
  }

  function PcRank(pc: Pc): nat {
    match pc
    case Gate(_) => 8
    case Slotted(_) => 7
    case Counted(_) => 6
    case Ready => 5
    case AtSource => 4
    case Checking => 3
    case Waiting => 2
    case Ended(_) => 0
  }

  predicate Below(a: Iter, b: Iter) {
    || Unread(a) < Unread(b)
    || (Unread(a) == Unread(b) && (Outstanding(a) < Outstanding(b) || (Outstanding(a) == Outstanding(b) && PcRank(a.pc) < PcRank(b.pc))))
  }

  /** A call of Next after one that returned false. */
  predicate CallsAgain(it: Iter, step: Step) {
    step.CallNext? && it.pc.Ended?
  }

  lemma SpawnStepsDown(it: Iter)
    requires Enabled(it, Spawn)
    ensures Below(Apply(it, Spawn), it)
  {
    TallyAppend(HasFate(Pending), it.lookups, Lookup(it.pc.i, Searching, Pending, []));
  }

  lemma OthersStepDown(it: Iter, step: Step)
    requires SourceOk(it) && Enabled(it, step) && !OfLookup(step) && !step.Spawn? && !step.Receive?
    ensures OfConsumer(step) && !step.Timer? && !CallsAgain(it, step) ==> Below(Apply(it, step), it)
    ensures step.Cancel? ==> Outstanding(Apply(it, step)) == Outstanding(it)
  {
    assert Apply(it, step).lookups == it.lookups && Apply(it, step).buffer == it.buffer;
  }

  lemma LookupsBringNoMore(it: Iter, step: Step)
    requires FatesOk(it) && Enabled(it, step) && OfLookup(step)
    ensures var t := Apply(it, step);
      t.pc == it.pc && t.src == it.src && t.pos == it.pos && Outstanding(t) <= Outstanding(it)
  {
    var t := Apply(it, step);
    assert FateOk(it.lookups[step.l], step.l in BufferIds(it.buffer), step.l in LookupIds(it.out), it.canceled);
    TallyUpdate(HasFate(Pending), it.lookups, step.l, t.lookups[step.l]);
  }

  lemma BufferedExists(it: Iter)
    requires FatesOk(it) && it.buffer != []
    ensures it.buffer[0].l < |it.lookups| && it.lookups[it.buffer[0].l].fate.Buffered?
  {
    var l := it.buffer[0].l;
    assert BufferIds(it.buffer)[0] == l && l in BufferIds(it.buffer);
    assert FateOk(it.lookups[l], l in BufferIds(it.buffer), l in LookupIds(it.out), it.canceled);
  }

  lemma ReceiveBringsDown(it: Iter)
    requires FatesOk(it) && Enabled(it, Receive)
    ensures Below(Apply(it, Receive), it)
  {
    BufferedExists(it);
    var t := Apply(it, Receive);
    TallyUpdate(HasFate(Pending), it.lookups, it.buffer[0].l, t.lookups[it.buffer[0].l]);
  }

  /** Every step of the consumer but the expiry of its timer, and a call after the end, brings it closer
      to the end, in the order of unread records, then outstanding lookups, then its own position; no
      step of a lookup sets it back. So the number of consumer steps between timers is bounded, whatever
      is refused. */
  lemma ConsumerProgresses(it: Iter, step: Step)
    requires Inv(it) && Enabled(it, step)
    ensures Unread(it) >= 0
    ensures OfConsumer(step) && !step.Timer? && !CallsAgain(it, step) ==> Below(Apply(it, step), it)
    ensures !OfConsumer(step) ==> Unread(Apply(it, step)) == Unread(it) && Outstanding(Apply(it, step)) <= Outstanding(it)
                                  && Apply(it, step).pc == it.pc
  {
    if OfLookup(step) {
      LookupsBringNoMore(it, step);
    } else if step.Spawn? {
      SpawnStepsDown(it);
    } else if step.Receive? {
      ReceiveBringsDown(it);
    } else {
      OthersStepDown(it, step);
    }
  }

  /** The steps open to the consumer where it is. */
  ghost predicate CanGoOn(t: System, n: nat)
    requires n < |t.iters|
  {
    var it := t.iters[n];
    match it.pc {
      case Ready => Allowed(t, Take(n, CallNext))
      case AtSource => forall cached :: Allowed(t, Take(n, SourceNext(cached)))
      case Gate(_) => Allowed(t, Take(n, Refuse)) && (Allowed(t, Take(n, Acquire)) <==> t.slots < t.cap)
      case Slotted(_) => Allowed(t, Take(n, Count))
      case Counted(_) => Allowed(t, Take(n, Spawn))
      case Checking => Allowed(t, Take(n, Load))
      case Waiting => Allowed(t, Take(n, Timer)) && (Allowed(t, Take(n, Receive)) <==> it.buffer != [])
      case Ended(_) => Allowed(t, Take(n, CallNext))
    }
  }

  predicate Guards(it: Iter) {
    && (it.pc.AtSource? ==> |it.verdicts| == it.pos <= |it.src|)
    && (it.pc.Gate? || it.pc.Counted? ==> it.pc.i < |it.verdicts|)
    && (it.buffer != [] ==> it.buffer[0].l < |it.lookups|)
  }

  lemma GuardsSuffice(t: System, n: nat)
    requires n < |t.iters| && Guards(t.iters[n])
    ensures CanGoOn(t, n)
  {
  }

  lemma GuardsHold(it: Iter)
    requires Inv(it)
    ensures Guards(it)
  {
    if it.buffer != [] { BufferedExists(it); }
  }

  /** Inside Next a consumer can always move: no guard of the machine holds it up. */
  lemma ConsumerNeverStuck(cap: nat, moves: seq<Move>, t: System, n: nat)
    requires Reaches(Start(cap), moves, t) && n < |t.iters|
    ensures CanGoOn(t, n)
  {
    ReachableInv(cap, moves, t, n);
    GuardsHold(t.iters[n]);
    GuardsSuffice(t, n);
  }
}
