/** The run of a single iterator, as a part of a run of the system, and what the results about the system
    say of it. */
module FallbackRuns {
  import opened Multiaddrs
  import opened FallbackIter
  import opened FallbackCounting
  import opened FallbackContents
  import opened FallbackDelivery
  import opened FallbackResults

  // ---- One iterator's share of a run ----

  ghost predicate Runs(s: Iter, steps: seq<Step>, t: Iter)
    decreases |steps|
  {
    if steps == [] then s == t
    else Enabled(s, steps[0]) && Runs(Apply(s, steps[0]), steps[1..], t)
  }

  lemma {:induction false} RunsOn(s: Iter, steps: seq<Step>, t: Iter, step: Step)
    requires Runs(s, steps, t) && Enabled(t, step)
    ensures Runs(s, steps + [step], Apply(t, step))
    decreases |steps|
  {
    if steps == [] {
      assert [step][1..] == [];
    } else {
      RunsOn(Apply(s, steps[0]), steps[1..], t, step);
      assert (steps + [step])[1..] == steps[1..] + [step];
    }
  }

  lemma {:induction false} RunsKeepInv(s: Iter, steps: seq<Step>, t: Iter)
    requires Runs(s, steps, t) && Inv(s)
    ensures Inv(t)
    decreases |steps|
  {
    if steps != [] {
      StepKeepsInv(s, steps[0]);
      RunsKeepInv(Apply(s, steps[0]), steps[1..], t);
    }
  }

  lemma {:induction false} RunsKeepCounts(s: Iter, steps: seq<Step>, t: Iter)
    requires Runs(s, steps, t) && Counts(s)
    ensures Counts(t)
    decreases |steps|
  {
    if steps != [] {
      StepMovesSlots(s, steps[0]);
      RunsKeepCounts(Apply(s, steps[0]), steps[1..], t);
    }
  }

  lemma NewIterInv(src: seq<Record>)
    ensures Inv(NewIter(src)) && Counts(NewIter(src))
  {
  }

  /** What holds wherever a run has led. */
  lemma AlongTheRun(src: seq<Record>, trace: seq<Step>, it: Iter)
    requires Runs(NewIter(src), trace, it)
    ensures Inv(it) && Counts(it)
  {
    NewIterInv(src);
    RunsKeepInv(NewIter(src), trace, it);
    RunsKeepCounts(NewIter(src), trace, it);
  }

  lemma UnreadIsLeft(it: Iter)
    requires Inv(it)
    ensures Unread(it) >= 0
  {
  }

  /** A step the consumer takes is part of the run and brings it closer to the end. */
  lemma ConsumerMoves(src: seq<Record>, trace: seq<Step>, it: Iter, step: Step)
    requires Runs(NewIter(src), trace, it)
    ensures Guards(it) && Unread(it) >= 0 && Counts(it)
    ensures Enabled(it, step) ==> Runs(NewIter(src), trace + [step], Apply(it, step))
    ensures Enabled(it, step) && OfConsumer(step) && !step.Timer? && !CallsAgain(it, step) ==> Below(Apply(it, step), it)
  {
    AlongTheRun(src, trace, it);
    GuardsHold(it);
    UnreadIsLeft(it);
    if Enabled(it, step) {
      RunsOn(NewIter(src), trace, it, step);
      ConsumerProgresses(it, step);
    }
  }

  /** What a look at the source leaves. */
  lemma SourceMoves(src: seq<Record>, trace: seq<Step>, it: Iter, cached: seq<Multiaddr>)
    requires Runs(NewIter(src), trace, it) && it.pc.AtSource?
    ensures Enabled(it, SourceNext(cached))
    ensures var t := Apply(it, SourceNext(cached));
      && it.pos <= |it.src|
      && (it.pos < |it.src| ==> t.pos == it.pos + 1 && (t.pc.Ready? || (t.pc == Gate(it.pos) && t.out == it.out)))
      && (it.pos == |it.src| ==> t == it.(pc := Checking))
      && (Finished(it) ==> Finished(t))
  {
    ConsumerMoves(src, trace, it, SourceNext(cached));
  }

  predicate LeavesAlone(it: Iter, t: Iter) {
    && t.pc == it.pc && t.pos == it.pos && t.src == it.src && t.out == it.out
    && (it.canceled ==> t.canceled)
    && |t.lookups| == |it.lookups| && (forall l | 0 <= l < |t.lookups| :: t.lookups[l].i == it.lookups[l].i)
  }

  predicate SetsNothingBack(it: Iter, t: Iter) {
    LeavesAlone(it, t) && Outstanding(t) <= Outstanding(it) && (Finished(it) ==> Finished(t))
  }

  lemma OtherStepLeavesAlone(it: Iter, step: Step)
    requires Enabled(it, step) && !OfConsumer(step)
    ensures LeavesAlone(it, Apply(it, step))
  {
  }

  lemma OtherStepSetsNothingBack(it: Iter, step: Step)
    requires Inv(it) && Enabled(it, step) && !OfConsumer(step)
    ensures SetsNothingBack(it, Apply(it, step))
  {
    OtherStepLeavesAlone(it, step);
    if Finished(it) { StepStaysFinished(it, step); }
    if OfLookup(step) { LookupsBringNoMore(it, step); } else { assert Apply(it, step).lookups == it.lookups; }
  }

  /** A step of a lookup, or a cancel, is part of the run and does not set the consumer back. */
  lemma OthersMeanwhile(src: seq<Record>, trace: seq<Step>, it: Iter, step: Step)
    requires Runs(NewIter(src), trace, it) && Enabled(it, step) && !OfConsumer(step)
    ensures Runs(NewIter(src), trace + [step], Apply(it, step))
    ensures SetsNothingBack(it, Apply(it, step))
  {
    AlongTheRun(src, trace, it);
    RunsOn(NewIter(src), trace, it, step);
    OtherStepSetsNothingBack(it, step);
  }

  /** Alone on a pool that is large enough, an iterator can run as it likes: what is proved about the
      whole system is true of it. */
  lemma {:induction false} RunsInASystem(cap: nat, before: seq<Move>, s: Iter, slots: int, steps: seq<Step>, t: Iter)
    returns (moves: seq<Move>, left: int)
    requires Reaches(Start(cap), before, System(cap, slots, [s])) && Runs(s, steps, t) && slots + |steps| <= cap
    ensures Reaches(Start(cap), moves, System(cap, left, [t]))
    decreases |steps|
  {
    if steps == [] { return before, slots; }
    var sys, m := System(cap, slots, [s]), Take(0, steps[0]);
    if steps[0].Release? { LookupsNeverBlock(cap, before, sys, 0, steps[0].l); }
    Then(Start(cap), before, sys, m);
    assert [s][0 := Apply(s, steps[0])] == [Apply(s, steps[0])];
    moves, left := RunsInASystem(cap, before + [m], Apply(s, steps[0]), slots + SlotDelta(steps[0]), steps[1..], t);
  }

  /** Whatever an iterator does is part of a run of the system of iterators. */
  lemma IsReachable(src: seq<Record>, steps: seq<Step>, t: Iter)
    requires Runs(NewIter(src), steps, t)
    ensures exists cap, moves, slots :: Reaches(Start(cap), moves, System(cap, slots, [t]))
  {
    var cap := |steps|;
    Then(Start(cap), [], Start(cap), Open(src));
    var moves, slots := RunsInASystem(cap, [Open(src)], NewIter(src), 0, steps, t);
  }

  // ---- What a run leads to ----

  /** Every lookup is over. Without a cancel, and with no more of them than the buffer holds, what each
      found was delivered, is still in the buffer, or had no addresses. */
  ghost predicate AllSettled(it: Iter) {
    && it.pos == |it.src|
    && forall l: nat | l < |it.lookups| ::
         && it.lookups[l].pc.Exited?
         && (!it.canceled && |it.lookups| <= 100 ==>
               l in LookupIds(it.out) || l in BufferIds(it.buffer) || (it.lookups[l].fate.Discarded? && it.lookups[l].found == []))
  }

  lemma EndSettles(src: seq<Record>, trace: seq<Step>, it: Iter)
    requires Runs(NewIter(src), trace, it) && it.pc == Ended(false)
    ensures AllSettled(it)
    ensures EverythingFoundIsDelivered(it) <==> !FoundInBuffer(it) && !FoundWithFate(it, Dropped) && !FoundWithFate(it, Abandoned)
  {
    IsReachable(src, trace, it);
    var cap, moves, slots :| Reaches(Start(cap), moves, System(cap, slots, [it]));
    var t := System(cap, slots, [it]);
    forall l: nat | l < |it.lookups|
      ensures it.pos == |it.src| && it.lookups[l].pc.Exited?
      ensures !it.canceled && |it.lookups| <= 100 ==>
                l in LookupIds(it.out) || l in BufferIds(it.buffer) || (it.lookups[l].fate.Discarded? && it.lookups[l].found == [])
    {
      EndOfResponse(cap, moves, t, 0, l);
    }
    ReachableInv(cap, moves, t, 0);
    EverythingFoundIsDeliveredExactlyWhen(cap, moves, t, 0);
  }

  lemma CallsAgainFinished(src: seq<Record>, trace: seq<Step>, it: Iter)
    requires Runs(NewIter(src), trace, it)
    ensures it.pc == Ended(false) ==> Finished(it) && Finished(Apply(it, CallNext))
  {
    AlongTheRun(src, trace, it);
    if it.pc == Ended(false) { EndIsFinished(it); }
  }

  /** A delivery is a source record, completed from the cache, or what a lookup found. */
  predicate Genuine(it: Iter, d: Delivery) {
    match d
    case FromSource(i, r) => i < |it.src| && i < |it.seen| && r == Complete(it.src[i], it.seen[i]) && Servable(r)
    case FromLookup(l, addrs) => l < |it.lookups| && addrs == it.lookups[l].found != []
  }

  lemma {:induction false} SourceIsGenuine(src: seq<Record>, seen: seq<seq<Multiaddr>>, k: nat)
    requires |seen| <= |src| && k < |FromTheSource(src, seen)|
    ensures var d := FromTheSource(src, seen)[k];
      d.FromSource? && d.i < |seen| && d.record == Complete(src[d.i], seen[d.i]) && Servable(d.record)
  {
    var i := |seen| - 1;
    if k < |FromTheSource(src, seen[..i])| { SourceIsGenuine(src, seen[..i], k); }
  }

  lemma DeliveredIsGenuine(src: seq<Record>, trace: seq<Step>, it: Iter, k: nat)
    requires Runs(NewIter(src), trace, it) && k < |it.out|
    ensures Genuine(it, it.out[k])
  {
    IsReachable(src, trace, it);
    var cap, moves, slots :| Reaches(Start(cap), moves, System(cap, slots, [it]));
    DeliveriesInOrder(cap, moves, System(cap, slots, [it]), 0);
    if k < |FromTheSource(it.src, it.seen)| {
      SourceIsGenuine(it.src, it.seen, k);
      assert it.out[k] == FromTheSource(it.src, it.seen)[k];
    } else {
      assert Carries(it.lookups, it.out[k].l, it.out[k].addrs) && ServesAddrs(it.out[k]);
    }
  }
}
