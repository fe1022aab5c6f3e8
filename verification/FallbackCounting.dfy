/** Slots and counters: what they count, and why no lookup can block and no iterator waits in vain. */
module FallbackCounting {
  import opened Multiaddrs
  import opened FallbackIter

  predicate Holds(x: Lookup) {
    x.pc.Searching? || x.pc.Sending? || x.pc.Releasing?
  }

  predicate Unfinished(x: Lookup) {
    !x.pc.Exited?
  }

  function Tally(p: Lookup -> bool, xs: seq<Lookup>): nat {
    if xs == [] then 0 else Tally(p, xs[..|xs| - 1]) + if p(xs[|xs| - 1]) then 1 else 0
  }

  function One(b: bool): nat {
    if b then 1 else 0
  }

  lemma {:induction false} TallyUpdate(p: Lookup -> bool, xs: seq<Lookup>, l: nat, x: Lookup)
    requires l < |xs|
    ensures Tally(p, xs[l := x]) == Tally(p, xs) - One(p(xs[l])) + One(p(x))
  {
    var n := |xs| - 1;
    if l < n {
      TallyUpdate(p, xs[..n], l, x);
      assert xs[l := x][..n] == xs[..n][l := x];
    } else {
      assert xs[l := x][..n] == xs[..n];
    }
  }

  lemma TallyAppend(p: Lookup -> bool, xs: seq<Lookup>, x: Lookup)
    ensures Tally(p, xs + [x]) == Tally(p, xs) + One(p(x))
  {
    assert (xs + [x])[..|xs|] == xs;
  }

  lemma {:induction false} TallyPositive(p: Lookup -> bool, xs: seq<Lookup>)
    ensures Tally(p, xs) > 0 <==> exists l | 0 <= l < |xs| :: p(xs[l])
  {
    if xs != [] {
      var n := |xs| - 1;
      TallyPositive(p, xs[..n]);
      if l :| 0 <= l < n && p(xs[..n][l]) { assert p(xs[l]); }
      if l :| 0 <= l < |xs| && p(xs[l]) { assert l == n || p(xs[..n][l]); }
    }
  }

  /** The slots an iterator holds: one for each running lookup that has not released, one for a lookup it
      is about to start. */
  function Held(it: Iter): nat {
    Tally(Holds, it.lookups) + One(it.pc.Slotted? || it.pc.Counted?)
  }

  /** What `ongoing` counts: a lookup from just before it is started until it has released its slot
      and gone. */
  predicate Counts(it: Iter) {
    && it.ongoing == Tally(Unfinished, it.lookups) + One(it.pc.Counted?)
    && (it.pc == Ended(false) ==> it.ongoing == 0)
  }

  lemma LookupMoves(it: Iter, l: nat, pc: LookupPc, fate: Fate, found: seq<Multiaddr>)
    requires l < |it.lookups|
    ensures var t := SetLookup(it, l, pc, fate, found);
      var x := t.lookups[l];
      && Held(t) == Held(it) - One(Holds(it.lookups[l])) + One(Holds(x))
      && Tally(Unfinished, t.lookups) == Tally(Unfinished, it.lookups) - One(Unfinished(it.lookups[l])) + One(Unfinished(x))
  {
    var x := SetLookup(it, l, pc, fate, found).lookups[l];
    TallyUpdate(Holds, it.lookups, l, x);
    TallyUpdate(Unfinished, it.lookups, l, x);
  }

  predicate OfLookup(step: Step) {
    step.CheckCtx? || step.Send? || step.GiveUp? || step.Release? || step.Uncount?
  }

  lemma LookupStepMovesSlots(it: Iter, step: Step)
    requires Enabled(it, step) && OfLookup(step)
    ensures Held(Apply(it, step)) == Held(it) + SlotDelta(step)
    ensures Counts(it) ==> Counts(Apply(it, step))
  {
    var x := Apply(it, step).lookups[step.l];
    LookupMoves(it, step.l, x.pc, x.fate, x.found);
    TallyPositive(Unfinished, it.lookups);
  }

  lemma SpawnMovesNoSlots(it: Iter)
    requires Enabled(it, Spawn)
    ensures Held(Apply(it, Spawn)) == Held(it)
    ensures Counts(it) ==> Counts(Apply(it, Spawn))
  {
    TallyAppend(Holds, it.lookups, Lookup(it.pc.i, Searching, Pending, []));
    TallyAppend(Unfinished, it.lookups, Lookup(it.pc.i, Searching, Pending, []));
  }

  lemma ReceiveMovesNoSlots(it: Iter)
    requires Enabled(it, Receive)
    ensures Held(Apply(it, Receive)) == Held(it)
    ensures Counts(it) ==> Counts(Apply(it, Receive))
  {
    var l := it.buffer[0].l;
    LookupMoves(it, l, it.lookups[l].pc, Apply(it, Receive).lookups[l].fate, it.lookups[l].found);
  }

  lemma ConsumerStepMovesSlots(it: Iter, step: Step)
    requires Enabled(it, step) && !OfLookup(step)
    ensures Held(Apply(it, step)) == Held(it) + SlotDelta(step)
    ensures Counts(it) ==> Counts(Apply(it, step))
  {
    if step.Receive? {
      ReceiveMovesNoSlots(it);
    } else if step.Spawn? {
      SpawnMovesNoSlots(it);
    } else {
      assert Apply(it, step).lookups == it.lookups;
    }
  }

  lemma StepMovesSlots(it: Iter, step: Step)
    requires Enabled(it, step)
    ensures Held(Apply(it, step)) == Held(it) + SlotDelta(step)
    ensures Counts(it) ==> Counts(Apply(it, step))
  {
    if OfLookup(step) { LookupStepMovesSlots(it, step); } else { ConsumerStepMovesSlots(it, step); }
  }

  function TotalHeld(iters: seq<Iter>): nat {
    if iters == [] then 0 else TotalHeld(iters[..|iters| - 1]) + Held(iters[|iters| - 1])
  }

  lemma {:induction false} TotalUpdate(iters: seq<Iter>, n: nat, it: Iter)
    requires n < |iters|
    ensures TotalHeld(iters[n := it]) == TotalHeld(iters) - Held(iters[n]) + Held(it)
  {
    var k := |iters| - 1;
    if n < k {
      TotalUpdate(iters[..k], n, it);
      assert iters[n := it][..k] == iters[..k][n := it];
    } else {
      assert iters[n := it][..k] == iters[..k];
    }
  }

  lemma {:induction false} HeldIsPartOfTotal(iters: seq<Iter>, n: nat)
    requires n < |iters|
    ensures Held(iters[n]) <= TotalHeld(iters)
  {
    var k := |iters| - 1;
    if n < k { HeldIsPartOfTotal(iters[..k], n); }
  }

  ghost predicate SlotsCount(s: System) {
    && s.slots == TotalHeld(s.iters) <= s.cap
    && forall n | 0 <= n < |s.iters| :: Counts(s.iters[n])
  }

  lemma OthersStillCount(iters: seq<Iter>, n: nat, after: seq<Iter>)
    requires n < |iters| == |after| && Counts(after[n]) && after == iters[n := after[n]]
    requires forall k | 0 <= k < |iters| :: Counts(iters[k])
    ensures forall k | 0 <= k < |after| :: Counts(after[k])
  {
    forall k | 0 <= k < |after| ensures Counts(after[k]) {
      if k != n { assert after[k] == iters[k]; }
    }
  }

  lemma MoveKeepsCounts(s: System, m: Move)
    requires SlotsCount(s) && Allowed(s, m)
    ensures SlotsCount(Do(s, m))
  {
    match m
    case Open(src) =>
      assert (s.iters + [NewIter(src)])[..|s.iters|] == s.iters;
    case Take(n, step) =>
      var it := Apply(s.iters[n], step);
      StepMovesSlots(s.iters[n], step);
      TotalUpdate(s.iters, n, it);
      OthersStillCount(s.iters, n, Do(s, m).iters);
  }

  lemma {:induction false} RunKeepsCounts(s: System, moves: seq<Move>, t: System)
    requires SlotsCount(s) && Reaches(s, moves, t)
    ensures SlotsCount(t)
    decreases |moves|
  {
    if moves != [] {
      MoveKeepsCounts(s, moves[0]);
      RunKeepsCounts(Do(s, moves[0]), moves[1..], t);
    }
  }

  // ---- Main results, over every run of any number of iterators ----

  lemma {:induction false} CapStays(s: System, moves: seq<Move>, t: System)
    requires Reaches(s, moves, t)
    ensures t.cap == s.cap
    decreases |moves|
  {
    if moves != [] { CapStays(Do(s, moves[0]), moves[1..], t); }
  }

  /** The pool holds exactly the slots of running lookups that have not released, plus those of
      consumers about to start one, and never more than its capacity. */
  lemma SlotsAreAccounted(cap: nat, moves: seq<Move>, t: System)
    requires Reaches(Start(cap), moves, t)
    ensures t.slots == TotalHeld(t.iters) <= cap == t.cap
  {
    RunKeepsCounts(Start(cap), moves, t);
    CapStays(Start(cap), moves, t);
  }

  /** An iterator whose counter is zero holds no slot, except in the instant between taking one and
      counting the lookup it is for. */
  lemma ZeroCounterHoldsNothing(cap: nat, moves: seq<Move>, t: System, n: nat)
    requires Reaches(Start(cap), moves, t) && n < |t.iters| && t.iters[n].ongoing == 0
    ensures Held(t.iters[n]) == One(t.iters[n].pc.Slotted?)
    ensures forall l | 0 <= l < |t.iters[n].lookups| :: t.iters[n].lookups[l].pc.Exited?
  {
    RunKeepsCounts(Start(cap), moves, t);
    var it := t.iters[n];
    assert Counts(it);
    TallyPositive(Unfinished, it.lookups);
    TallyPositive(Holds, it.lookups);
  }

  /** The step a lookup takes next. */
  function NextOf(it: Iter, l: nat): Step
    requires l < |it.lookups| && Unfinished(it.lookups[l])
  {
    match it.lookups[l].pc
    case Searching => CheckCtx(l)
    case Sending => if it.canceled then GiveUp(l, []) else Send(l, [])
    case Releasing => Release(l)
    case Uncounting => Uncount(l)
  }

  /** No lookup ever blocks: in particular the pool is never empty when a slot is given back. */
  lemma LookupsNeverBlock(cap: nat, moves: seq<Move>, t: System, n: nat, l: nat)
    requires Reaches(Start(cap), moves, t) && n < |t.iters|
    requires l < |t.iters[n].lookups| && Unfinished(t.iters[n].lookups[l])
    ensures Allowed(t, Take(n, NextOf(t.iters[n], l)))
  {
    RunKeepsCounts(Start(cap), moves, t);
    var it := t.iters[n];
    if it.lookups[l].pc.Releasing? {
      TallyPositive(Holds, it.lookups);
      HeldIsPartOfTotal(t.iters, n);
    }
  }

  /** A consumer settles down to wait only while a lookup of its own is unfinished: a refused dispatch
      leaves nothing to wait for. */
  lemma WaitsOnlyForLookups(cap: nat, moves: seq<Move>, t: System, n: nat)
    requires Reaches(Start(cap), moves, t) && n < |t.iters| && t.iters[n].pc.Checking?
    ensures Apply(t.iters[n], Load).pc.Waiting? <==>
            exists l | 0 <= l < |t.iters[n].lookups| :: Unfinished(t.iters[n].lookups[l])
  {
    RunKeepsCounts(Start(cap), moves, t);
    assert Counts(t.iters[n]);
    TallyPositive(Unfinished, t.iters[n].lookups);
  }
}
