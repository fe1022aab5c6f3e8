/** What the deliveries hold: the source records themselves, completed from the cache, and what the
    lookups found. */
module FallbackContents {
  import opened Multiaddrs
  import opened FallbackIter
  import opened FallbackCounting
  import opened FallbackDelivery

  /** A source record as it would be served: one without addresses gets those of the cache. */
  function Complete(r: Record, cached: seq<Multiaddr>): Record {
    match r
    case Other => Other
    case Peer(addrs) => Peer(if addrs == [] then cached else addrs)
  }

  predicate Servable(r: Record) {
    r.Peer? ==> r.addrs != []
  }

  /** What the source contributes to the response, given what the cache held as each record was read. */
  function FromTheSource(src: seq<Record>, seen: seq<seq<Multiaddr>>): seq<Delivery>
    requires |seen| <= |src|
  {
    if seen == [] then []
    else
      var i := |seen| - 1;
      var r := Complete(src[i], seen[i]);
      FromTheSource(src, seen[..i]) + if Servable(r) then [FromSource(i, r)] else []
  }

  /** The source records come first, as they are or completed; exactly those that can be served. */
  predicate SourceFirst(src: seq<Record>, seen: seq<seq<Multiaddr>>, verdicts: seq<Verdict>, out: seq<Delivery>) {
    && |verdicts| == |seen| <= |src|
    && (forall i | 0 <= i < |seen| :: verdicts[i].Kept? <==> Servable(Complete(src[i], seen[i])))
    && FromTheSource(src, seen) <= out
    && forall k | |FromTheSource(src, seen)| <= k < |out| :: out[k].FromLookup?
  }

  predicate SourceContents(it: Iter) {
    |it.seen| == it.pos && SourceFirst(it.src, it.seen, it.verdicts, it.out)
  }

  predicate BeforeSending(x: Lookup) {
    x.pc.Searching? || x.pc.Sending?
  }

  /** `addrs` is what lookup `l` sent. */
  predicate Carries(lookups: seq<Lookup>, l: nat, addrs: seq<Multiaddr>) {
    l < |lookups| && !BeforeSending(lookups[l]) && lookups[l].found == addrs
  }

  /** What is buffered or delivered is what its lookup sent; only empty results are discarded and none
      is delivered. */
  predicate LookupContents(it: Iter) {
    && (forall k | 0 <= k < |it.out| && it.out[k].FromLookup? :: Carries(it.lookups, it.out[k].l, it.out[k].addrs))
    && (forall k | 0 <= k < |it.buffer| :: Carries(it.lookups, it.buffer[k].l, it.buffer[k].addrs))
    && (forall l | 0 <= l < |it.lookups| ::
          && (it.lookups[l].fate.Discarded? ==> it.lookups[l].found == [])
          && (it.lookups[l].fate.Delivered? ==> it.lookups[l].found != []))
  }

  // ---- Every step keeps it ----

  lemma OnlyTheSource(src: seq<Record>, seen: seq<seq<Multiaddr>>, verdicts: seq<Verdict>, out: seq<Delivery>)
    requires SourceFirst(src, seen, verdicts, out) && LookupIds(out) == []
    ensures out == FromTheSource(src, seen)
  {
    NoneFromSource(out);
    if |FromTheSource(src, seen)| < |out| { assert false; }
  }

  lemma SourceGrows(src: seq<Record>, seen: seq<seq<Multiaddr>>, verdicts: seq<Verdict>, out: seq<Delivery>, cached: seq<Multiaddr>)
    requires |seen| < |src| && SourceFirst(src, seen, verdicts, out) && out == FromTheSource(src, seen)
    ensures var i := |seen|;
      var r := Complete(src[i], cached);
      if Servable(r) then SourceFirst(src, seen + [cached], verdicts + [Kept], out + [FromSource(i, r)])
      else SourceFirst(src, seen + [cached], verdicts + [Deciding], out)
  {
    assert (seen + [cached])[..|seen|] == seen;
  }

  lemma ReadContents(it: Iter, cached: seq<Multiaddr>)
    requires OrderOk(it) && SourceContents(it) && Enabled(it, SourceNext(cached))
    ensures SourceContents(Apply(it, SourceNext(cached)))
  {
    if it.pos < |it.src| {
      OnlyTheSource(it.src, it.seen, it.verdicts, it.out);
      SourceGrows(it.src, it.seen, it.verdicts, it.out, cached);
    }
  }

  lemma VerdictSettled(src: seq<Record>, seen: seq<seq<Multiaddr>>, verdicts: seq<Verdict>, out: seq<Delivery>, i: nat, v: Verdict)
    requires SourceFirst(src, seen, verdicts, out) && i < |verdicts| && verdicts[i].Deciding? && !v.Kept?
    ensures SourceFirst(src, seen, verdicts[i := v], out)
  {
  }

  lemma SourceContentsStep(it: Iter, step: Step)
    requires SourceOk(it) && OrderOk(it) && SourceContents(it) && Enabled(it, step)
    ensures SourceContents(Apply(it, step))
  {
    if step.SourceNext? {
      ReadContents(it, step.cached);
    } else if step.Refuse? || step.Spawn? {
      assert DecidingAt(it, it.pc.i);
      VerdictSettled(it.src, it.seen, it.verdicts, it.out, it.pc.i, Apply(it, step).verdicts[it.pc.i]);
    }
  }

  lemma LookupStepContents(it: Iter, step: Step)
    requires LookupContents(it) && Enabled(it, step) && OfLookup(step)
    ensures LookupContents(Apply(it, step))
  {
  }

  lemma ReceiveContents(it: Iter)
    requires LookupContents(it) && Enabled(it, Receive)
    ensures LookupContents(Apply(it, Receive))
  {
    assert Carries(it.lookups, it.buffer[0].l, it.buffer[0].addrs);
  }

  lemma LookupContentsStep(it: Iter, step: Step)
    requires LookupContents(it) && Enabled(it, step)
    ensures LookupContents(Apply(it, step))
  {
    if OfLookup(step) {
      LookupStepContents(it, step);
    } else if step.Receive? {
      ReceiveContents(it);
    }
  }

  lemma StepKeepsContents(it: Iter, step: Step)
    requires Inv(it) && SourceContents(it) && LookupContents(it) && Enabled(it, step)
    ensures SourceContents(Apply(it, step)) && LookupContents(Apply(it, step))
  {
    SourceContentsStep(it, step);
    LookupContentsStep(it, step);
  }

  lemma {:induction false} RunKeepsContents(s: System, moves: seq<Move>, t: System, n: nat)
    requires Reaches(s, moves, t) && n < |t.iters|
    requires forall k | 0 <= k < |s.iters| :: Inv(s.iters[k]) && SourceContents(s.iters[k]) && LookupContents(s.iters[k])
    ensures SourceContents(t.iters[n]) && LookupContents(t.iters[n])
    decreases |moves|
  {
    if moves != [] {
      if moves[0].Take? {
        StepKeepsInv(s.iters[moves[0].n], moves[0].step);
        StepKeepsContents(s.iters[moves[0].n], moves[0].step);
      }
      RunKeepsContents(Do(s, moves[0]), moves[1..], t, n);
    }
  }

  // ---- Where the contents came from ----

  lemma SeenGrows(it: Iter, step: Step, i: nat)
    requires Enabled(it, step) && i < |Apply(it, step).seen|
    ensures if i < |it.seen| then Apply(it, step).seen[i] == it.seen[i] else step == SourceNext(Apply(it, step).seen[i])
  {
  }

  /** What was used for a record is what the cache held in the step of the run that read it. */
  lemma {:induction false} CacheWasRead(s: System, moves: seq<Move>, t: System, n: nat, i: nat)
    requires Reaches(s, moves, t) && n < |t.iters| && i < |t.iters[n].seen|
    ensures || (n < |s.iters| && i < |s.iters[n].seen| && t.iters[n].seen[i] == s.iters[n].seen[i])
            || Take(n, SourceNext(t.iters[n].seen[i])) in moves
    decreases |moves|
  {
    if moves != [] {
      var u, m := Do(s, moves[0]), moves[0];
      CacheWasRead(u, moves[1..], t, n, i);
      if m.Take? && m.n == n && i < |u.iters[n].seen| { SeenGrows(s.iters[n], m.step, i); }
    }
  }

  /** In state `it` lookup `l` took `step`, the last on its way to its fate: it sent `x.found`, which was
      dropped exactly when the buffer was full, or it was canceled. */
  predicate Settles(it: Iter, step: Step, l: nat, x: Lookup) {
    match step
    case Send(m, found) =>
      m == l && found == x.found && !x.fate.Abandoned? && (x.fate.Dropped? <==> |it.buffer| >= 100)
    case GiveUp(m, found) => m == l && found == x.found && x.fate.Abandoned? && it.canceled
    case CheckCtx(m) => m == l && x.found == [] && x.fate.Abandoned? && it.canceled
    case _ => false
  }

  /** The same result, further on. */
  predicate Same(x: Lookup, y: Lookup) {
    y.found == x.found && !BeforeSending(y)
    && (y.fate.Dropped? <==> x.fate.Dropped?) && (y.fate.Abandoned? <==> x.fate.Abandoned?)
  }

  predicate Settled(s: System, n: nat, l: nat) {
    n < |s.iters| && l < |s.iters[n].lookups| && !BeforeSending(s.iters[n].lookups[l])
  }

  lemma BufferedWasSent(it: Iter)
    requires Inv(it) && Enabled(it, Receive)
    ensures it.lookups[it.buffer[0].l].fate.Buffered? && !BeforeSending(it.lookups[it.buffer[0].l])
  {
    var l, b := it.buffer[0].l, BufferIds(it.buffer);
    assert b[0] == l && l in b;
    assert FateOk(it.lookups[l], l in b, l in LookupIds(it.out), it.canceled);
  }

  lemma LookupStepKeepsSettled(it: Iter, step: Step, l: nat)
    requires Enabled(it, step) && OfLookup(step) && l < |it.lookups| && !BeforeSending(it.lookups[l])
    ensures Same(it.lookups[l], Apply(it, step).lookups[l])
  {
  }

  lemma StillSettled(it: Iter, step: Step, l: nat)
    requires Inv(it) && Enabled(it, step) && l < |it.lookups| && !BeforeSending(it.lookups[l])
    ensures l < |Apply(it, step).lookups| && Same(it.lookups[l], Apply(it, step).lookups[l])
  {
    if OfLookup(step) {
      LookupStepKeepsSettled(it, step, l);
    } else if step.Receive? {
      BufferedWasSent(it);
    } else {
      assert Apply(it, step).lookups[l] == it.lookups[l];
    }
  }

  lemma ConsumerSettlesNothing(it: Iter, step: Step, l: nat)
    requires Enabled(it, step) && !OfLookup(step)
    requires l < |Apply(it, step).lookups| && !BeforeSending(Apply(it, step).lookups[l])
    ensures l < |it.lookups| && !BeforeSending(it.lookups[l])
  {
  }

  lemma LookupStepSettles(it: Iter, step: Step, l: nat)
    requires Enabled(it, step) && OfLookup(step) && l < |it.lookups| && BeforeSending(it.lookups[l])
    requires !BeforeSending(Apply(it, step).lookups[l])
    ensures Settles(it, step, l, Apply(it, step).lookups[l])
  {
    assert step.l == l;
  }

  /** The step after which a lookup is past sending settles it. */
  lemma JustSettled(it: Iter, step: Step, l: nat)
    requires Enabled(it, step) && (l < |it.lookups| ==> BeforeSending(it.lookups[l]))
    requires l < |Apply(it, step).lookups| && !BeforeSending(Apply(it, step).lookups[l])
    ensures Settles(it, step, l, Apply(it, step).lookups[l])
  {
    if OfLookup(step) {
      LookupStepSettles(it, step, l);
    } else {
      ConsumerSettlesNothing(it, step, l);
    }
  }

  lemma MoveKeepsInvOf(s: System, m: Move, n: nat)
    requires Allowed(s, m) && (n < |s.iters| ==> Inv(s.iters[n]))
    ensures n < |Do(s, m).iters| ==> Inv(Do(s, m).iters[n])
  {
    if m.Take? && m.n == n { StepKeepsInv(s.iters[n], m.step); }
  }

  lemma MoveKeepsSettled(s: System, m: Move, n: nat, l: nat)
    requires Allowed(s, m) && Settled(s, n, l) && Inv(s.iters[n])
    ensures Settled(Do(s, m), n, l) && Same(s.iters[n].lookups[l], Do(s, m).iters[n].lookups[l])
  {
    if m.Take? && m.n == n { StillSettled(s.iters[n], m.step, l); }
  }

  lemma {:induction false} StaysSettled(s: System, moves: seq<Move>, t: System, n: nat, l: nat)
    requires Reaches(s, moves, t) && Settled(s, n, l) && Inv(s.iters[n])
    ensures Settled(t, n, l) && Same(s.iters[n].lookups[l], t.iters[n].lookups[l])
    decreases |moves|
  {
    if moves != [] {
      MoveKeepsInvOf(s, moves[0], n);
      MoveKeepsSettled(s, moves[0], n, l);
      StaysSettled(Do(s, moves[0]), moves[1..], t, n, l);
    }
  }

  lemma MoveSettles(s: System, m: Move, n: nat, l: nat)
    requires Allowed(s, m) && !Settled(s, n, l) && Settled(Do(s, m), n, l)
    ensures m.Take? && m.n == n && Settles(s.iters[n], m.step, l, Do(s, m).iters[n].lookups[l])
  {
    if m.Take? && m.n == n { JustSettled(s.iters[n], m.step, l); }
  }

  lemma SettledByTheFirst(s: System, m: Move, rest: seq<Move>, t: System, n: nat, l: nat)
    requires Allowed(s, m) && Reaches(Do(s, m), rest, t) && (n < |s.iters| ==> Inv(s.iters[n]))
    requires !Settled(s, n, l) && Settled(Do(s, m), n, l)
    ensures Settled(t, n, l) && m.Take? && m.n == n && Settles(s.iters[n], m.step, l, t.iters[n].lookups[l])
  {
    MoveSettles(s, m, n, l);
    MoveKeepsInvOf(s, m, n);
    StaysSettled(Do(s, m), rest, t, n, l);
  }

  lemma Prepend<T>(s: seq<T>, x: seq<T>, y: seq<T>, z: seq<T>)
    requires s != [] && s[1..] == x + y + z
    ensures s == ([s[0]] + x) + y + z && ([s[0]] + x)[0] == s[0] && ([s[0]] + x)[1..] == x
  {
  }

  /** Every lookup that is past sending got there by one step of the run, which is found in it. */
  lemma {:induction false} WhatSettled(s: System, moves: seq<Move>, t: System, n: nat, l: nat)
    returns (before: seq<Move>, u: System, step: Step, after: seq<Move>)
    requires Reaches(s, moves, t) && !Settled(s, n, l) && Settled(t, n, l)
    requires n < |s.iters| ==> Inv(s.iters[n])
    ensures moves == before + [Take(n, step)] + after && Reaches(s, before, u) && n < |u.iters|
    ensures Settles(u.iters[n], step, l, t.iters[n].lookups[l])
    decreases |moves|
  {
    if Settled(Do(s, moves[0]), n, l) {
      SettledByTheFirst(s, moves[0], moves[1..], t, n, l);
      assert moves == [] + [moves[0]] + moves[1..];
      return [], s, moves[0].step, moves[1..];
    }
    MoveKeepsInvOf(s, moves[0], n);
    before, u, step, after := WhatSettled(Do(s, moves[0]), moves[1..], t, n, l);
    Prepend(moves, before, [Take(n, step)], after);
    before := [moves[0]] + before;
  }

  // ---- A canceled response ----

  /** `l` has sent nothing: it is still searching, or it gave up when it found the context done. */
  predicate SentNothing(it: Iter, l: nat) {
    l < |it.lookups| && it.canceled
    && (it.lookups[l].pc.Searching? || (!it.lookups[l].pc.Sending? && it.lookups[l].fate.Abandoned?))
  }

  lemma StepSendsNothing(it: Iter, step: Step, l: nat)
    requires Inv(it) && Enabled(it, step) && SentNothing(it, l)
    ensures SentNothing(Apply(it, step), l)
  {
    if step.Receive? { BufferedWasSent(it); }
  }

  /** A lookup that is still searching when the response is canceled never sends anything. */
  lemma {:induction false} CanceledLookupsSendNothing(s: System, moves: seq<Move>, t: System, n: nat, l: nat)
    requires Reaches(s, moves, t) && n < |s.iters| && Inv(s.iters[n]) && SentNothing(s.iters[n], l)
    ensures n < |t.iters| && SentNothing(t.iters[n], l)
    decreases |moves|
  {
    if moves != [] {
      MoveKeepsInvOf(s, moves[0], n);
      if moves[0].Take? && moves[0].n == n { StepSendsNothing(s.iters[n], moves[0].step, l); }
      CanceledLookupsSendNothing(Do(s, moves[0]), moves[1..], t, n, l);
    }
  }
}
