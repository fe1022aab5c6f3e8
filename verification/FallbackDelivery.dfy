/** Where records and lookup results go, in which order, and that the consumer makes progress. */
module FallbackDelivery {
  import opened Multiaddrs
  import opened FallbackIter
  import opened FallbackCounting

  /** The source records delivered so far. */
  function SourceIndices(out: seq<Delivery>): seq<nat> {
    if out == [] then []
    else
      var n := |out| - 1;
      SourceIndices(out[..n]) + if out[n].FromSource? then [out[n].i] else []
  }

  function LookupIds(out: seq<Delivery>): seq<nat> {
    if out == [] then []
    else
      var n := |out| - 1;
      LookupIds(out[..n]) + if out[n].FromLookup? then [out[n].l] else []
  }

  function BufferIds(buffer: seq<Item>): seq<nat> {
    seq(|buffer|, k requires 0 <= k < |buffer| => buffer[k].l)
  }

  /** The source records that were kept, in source order. */
  function KeptIndices(verdicts: seq<Verdict>): seq<nat> {
    if verdicts == [] then []
    else
      var n := |verdicts| - 1;
      KeptIndices(verdicts[..n]) + if verdicts[n].Kept? then [n] else []
  }

  predicate Distinct(s: seq<nat>) {
    forall j, k | 0 <= j < k < |s| :: s[j] != s[k]
  }

  predicate DecidingAt(it: Iter, i: nat) {
    it.pc == Gate(i) || it.pc == Slotted(i) || it.pc == Counted(i)
  }

  /** Every source record read has one verdict, and a dispatched one has one lookup of its own. */
  predicate SourceOk(it: Iter) {
    && |it.verdicts| == it.pos <= |it.src|
    && (forall i | 0 <= i < it.pos :: it.verdicts[i].Deciding? <==> DecidingAt(it, i))
    && (it.pc.Gate? || it.pc.Slotted? || it.pc.Counted? ==> it.pc.i < it.pos)
    && (forall i | 0 <= i < it.pos && it.verdicts[i].Dispatched? ::
          it.verdicts[i].l < |it.lookups| && it.lookups[it.verdicts[i].l].i == i)
    && (forall l | 0 <= l < |it.lookups| ::
          it.lookups[l].i < it.pos && it.verdicts[it.lookups[l].i] == Dispatched(l))
  }

  predicate FateOk(x: Lookup, buffered: bool, delivered: bool, canceled: bool) {
    && (x.fate.Pending? <==> x.pc.Searching? || x.pc.Sending?)
    && (x.fate.Buffered? <==> buffered)
    && (x.fate.Delivered? <==> delivered)
    && (x.fate.Abandoned? ==> canceled)
  }

  /** Every lookup is where its fate says: once in the buffer, once among the delivered, or nowhere. */
  predicate Located(lookups: seq<Lookup>, buffered: seq<nat>, delivered: seq<nat>, canceled: bool) {
    && Distinct(buffered) && Distinct(delivered)
    && (forall l | l in buffered :: l < |lookups|)
    && (forall l | l in delivered :: l < |lookups|)
    && (forall l: nat | l < |lookups| :: FateOk(lookups[l], l in buffered, l in delivered, canceled))
  }

  predicate FatesOk(it: Iter) {
    Located(it.lookups, BufferIds(it.buffer), LookupIds(it.out), it.canceled)
  }

  /** The source is drained before a lookup result is waited for, so nothing from it follows one. */
  predicate OrderOk(it: Iter) {
    && SourceIndices(it.out) == KeptIndices(it.verdicts)
    && (forall j, k | 0 <= j < k < |it.out| && it.out[k].FromSource? :: it.out[j].FromSource?)
    && (LookupIds(it.out) != [] || it.pc.Checking? || it.pc.Waiting? ==> it.pos == |it.src|)
    && (it.pc.Ended? ==> it.pos == |it.src|)
  }

  /** Whatever is served for a peer has addresses. */
  predicate ServesAddrs(d: Delivery) {
    match d
    case FromSource(_, Peer(addrs)) => addrs != []
    case FromSource(_, Other) => true
    case FromLookup(_, addrs) => addrs != []
  }

  predicate AllServe(out: seq<Delivery>) {
    forall k | 0 <= k < |out| :: ServesAddrs(out[k])
  }

  predicate Inv(it: Iter) {
    SourceOk(it) && FatesOk(it) && OrderOk(it) && AllServe(it.out)
  }

  lemma SourceDelivered(out: seq<Delivery>, i: nat, r: Record)
    ensures SourceIndices(out + [FromSource(i, r)]) == SourceIndices(out) + [i]
    ensures LookupIds(out + [FromSource(i, r)]) == LookupIds(out)
  {
    assert (out + [FromSource(i, r)])[..|out|] == out;
  }

  lemma LookupDelivered(out: seq<Delivery>, l: nat, addrs: seq<Multiaddr>)
    ensures SourceIndices(out + [FromLookup(l, addrs)]) == SourceIndices(out)
    ensures LookupIds(out + [FromLookup(l, addrs)]) == LookupIds(out) + [l]
  {
    assert (out + [FromLookup(l, addrs)])[..|out|] == out;
  }

  lemma {:induction false} NoneFromSource(out: seq<Delivery>)
    ensures LookupIds(out) == [] <==> forall k | 0 <= k < |out| :: out[k].FromSource?
  {
    if out != [] { NoneFromSource(out[..|out| - 1]); }
  }

  lemma VerdictsGrow(verdicts: seq<Verdict>, v: Verdict)
    ensures KeptIndices(verdicts + [v]) == KeptIndices(verdicts) + if v.Kept? then [|verdicts|] else []
  {
    assert (verdicts + [v])[..|verdicts|] == verdicts;
  }

  lemma {:induction false} VerdictSettles(verdicts: seq<Verdict>, i: nat, v: Verdict)
    requires i < |verdicts| && !verdicts[i].Kept? && !v.Kept?
    ensures KeptIndices(verdicts[i := v]) == KeptIndices(verdicts)
  {
    var n := |verdicts| - 1;
    if i < n {
      VerdictSettles(verdicts[..n], i, v);
      assert verdicts[i := v][..n] == verdicts[..n][i := v];
    } else {
      assert verdicts[i := v][..n] == verdicts[..n];
    }
  }

  // ---- Locations ----

  lemma LocateNew(xs: seq<Lookup>, b: seq<nat>, d: seq<nat>, c: bool, i: nat)
    requires Located(xs, b, d, c)
    ensures Located(xs + [Lookup(i, Searching, Pending, [])], b, d, c)
  {
  }

  lemma LocateBuffered(xs: seq<Lookup>, b: seq<nat>, d: seq<nat>, c: bool, l: nat, x: Lookup)
    requires Located(xs, b, d, c) && l < |xs| && xs[l].fate.Pending?
    requires x.pc.Releasing? && x.fate.Buffered?
    ensures Located(xs[l := x], b + [l], d, c)
  {
    assert FateOk(xs[l], l in b, l in d, c);
  }

  /** Anything that moves a lookup but neither the buffer nor the deliveries. */
  lemma LocateMoved(xs: seq<Lookup>, b: seq<nat>, d: seq<nat>, c: bool, l: nat, x: Lookup)
    requires Located(xs, b, d, c) && l < |xs| && FateOk(x, l in b, l in d, c)
    ensures Located(xs[l := x], b, d, c)
  {
  }

  lemma LocateReceived(xs: seq<Lookup>, b: seq<nat>, d: seq<nat>, c: bool, l: nat)
    requires Located(xs, [l] + b, d, c) && l < |xs|
    ensures Located(xs[l := xs[l].(fate := Delivered)], b, d + [l], c)
    ensures Located(xs[l := xs[l].(fate := Discarded)], b, d, c)
  {
    assert ([l] + b)[0] == l;
    assert FateOk(xs[l], l in [l] + b, l in d, c);
    assert forall k | 0 <= k < |b| :: b[k] == ([l] + b)[k + 1];
    assert l !in b && l !in d;
    assert forall m | m in b :: m in [l] + b;
    forall m: nat | m < |xs| && m != l
      ensures FateOk(xs[m], m in b, m in d, c) && (m in d + [l] <==> m in d)
    {
      assert FateOk(xs[m], m in [l] + b, m in d, c);
    }
  }

  lemma FatesStep(it: Iter, step: Step)
    requires Inv(it) && Enabled(it, step) && !step.Receive? && !step.SourceNext?
    ensures FatesOk(Apply(it, step))
  {
    var t := Apply(it, step);
    var b, d, c := BufferIds(it.buffer), LookupIds(it.out), it.canceled;
    if step.Spawn? {
      LocateNew(it.lookups, b, d, c, it.pc.i);
    } else if OfLookup(step) {
      assert FateOk(it.lookups[step.l], step.l in b, step.l in d, c);
      if t.buffer != it.buffer {
        assert BufferIds(t.buffer) == b + [step.l];
        LocateBuffered(it.lookups, b, d, c, step.l, t.lookups[step.l]);
      } else {
        LocateMoved(it.lookups, b, d, c, step.l, t.lookups[step.l]);
      }
    } else {
      forall l: nat | l < |it.lookups| ensures FateOk(t.lookups[l], l in b, l in d, t.canceled) {
        assert FateOk(it.lookups[l], l in b, l in d, c);
      }
    }
  }

  lemma ReceiveFates(it: Iter)
    requires Inv(it) && Enabled(it, Receive)
    ensures FatesOk(Apply(it, Receive))
  {
    var t := Apply(it, Receive);
    var l := it.buffer[0].l;
    assert BufferIds(it.buffer) == [l] + BufferIds(t.buffer);
    LocateReceived(it.lookups, BufferIds(t.buffer), LookupIds(it.out), it.canceled, l);
    if |it.buffer[0].addrs| > 0 { LookupDelivered(it.out, l, it.buffer[0].addrs); }
  }

  /** What one read of the source does to the deliveries. */
  lemma ReadDelivers(it: Iter, cached: seq<Multiaddr>)
    requires Enabled(it, SourceNext(cached))
    ensures var t := Apply(it, SourceNext(cached));
      && LookupIds(t.out) == LookupIds(it.out)
      && (if it.pos < |it.src| && t.pc.Ready? then
            && SourceIndices(t.out) == SourceIndices(it.out) + [it.pos]
            && |t.out| == |it.out| + 1 && t.out[..|it.out|] == it.out && t.out[|it.out|].FromSource?
            && t.verdicts == it.verdicts + [Kept]
          else
            && t.out == it.out
            && t.verdicts == if it.pos < |it.src| then it.verdicts + [Deciding] else it.verdicts)
  {
    if it.pos < |it.src| {
      match it.src[it.pos]
      case Other => SourceDelivered(it.out, it.pos, Other);
      case Peer(addrs) =>
        SourceDelivered(it.out, it.pos, Peer(addrs));
        SourceDelivered(it.out, it.pos, Peer(cached));
    }
  }

  lemma ReadFates(it: Iter, cached: seq<Multiaddr>)
    requires Inv(it) && Enabled(it, SourceNext(cached))
    ensures FatesOk(Apply(it, SourceNext(cached)))
  {
    ReadDelivers(it, cached);
  }

  // ---- Sources ----

  /** Moving lookups along, or the consumer between its tests, changes no verdict. */
  lemma SourceStays(it: Iter, t: Iter)
    requires SourceOk(it)
    requires t.src == it.src && t.pos == it.pos && t.verdicts == it.verdicts && |t.lookups| == |it.lookups|
    requires forall l | 0 <= l < |it.lookups| :: t.lookups[l].i == it.lookups[l].i
    requires forall i: nat :: DecidingAt(t, i) == DecidingAt(it, i)
    ensures SourceOk(t)
  {
    if t.pc.Gate? || t.pc.Slotted? || t.pc.Counted? { assert DecidingAt(t, t.pc.i) && DecidingAt(it, t.pc.i); }
  }

  lemma ReadSourceOk(it: Iter, cached: seq<Multiaddr>)
    requires SourceOk(it) && Enabled(it, SourceNext(cached))
    ensures SourceOk(Apply(it, SourceNext(cached)))
  {
    var t := Apply(it, SourceNext(cached));
    if it.pos < |it.src| {
      forall i: nat | i < t.pos ensures t.verdicts[i].Deciding? <==> DecidingAt(t, i) {
        if i < it.pos { assert !it.verdicts[i].Deciding?; }
      }
    }
  }

  lemma DecideSourceOk(it: Iter, step: Step)
    requires SourceOk(it) && Enabled(it, step) && (step.Refuse? || step.Spawn?)
    ensures SourceOk(Apply(it, step))
  {
    var t := Apply(it, step);
    var at := it.pc.i;
    assert DecidingAt(it, at) && it.verdicts[at].Deciding?;
    forall i: nat | i < t.pos ensures !t.verdicts[i].Deciding? {
      if i != at { assert !DecidingAt(it, i); }
    }
    forall l | 0 <= l < |t.lookups| ensures t.lookups[l].i < t.pos && t.verdicts[t.lookups[l].i] == Dispatched(l) {
      if l < |it.lookups| { assert it.verdicts[it.lookups[l].i] == Dispatched(l); }
    }
  }

  lemma SourceStep(it: Iter, step: Step)
    requires SourceOk(it) && Enabled(it, step)
    ensures SourceOk(Apply(it, step))
  {
    if step.SourceNext? { ReadSourceOk(it, step.cached); }
    else if step.Refuse? || step.Spawn? { DecideSourceOk(it, step); }
    else { SourceStays(it, Apply(it, step)); }
  }

  // ---- Order ----

  lemma ReadIndices(it: Iter, cached: seq<Multiaddr>)
    requires Enabled(it, SourceNext(cached)) && SourceIndices(it.out) == KeptIndices(it.verdicts)
    ensures SourceIndices(Apply(it, SourceNext(cached)).out) == KeptIndices(Apply(it, SourceNext(cached)).verdicts)
  {
    ReadDelivers(it, cached);
    if it.pos < |it.src| {
      VerdictsGrow(it.verdicts, Kept);
      VerdictsGrow(it.verdicts, Deciding);
    }
  }

  lemma ReadOrder(it: Iter, cached: seq<Multiaddr>)
    requires SourceOk(it) && OrderOk(it) && Enabled(it, SourceNext(cached))
    ensures OrderOk(Apply(it, SourceNext(cached)))
  {
    var t := Apply(it, SourceNext(cached));
    ReadDelivers(it, cached);
    ReadIndices(it, cached);
    if it.pos < |it.src| {
      NoneFromSource(it.out);
      forall j | 0 <= j < |t.out| - 1 ensures t.out[j].FromSource? { assert t.out[j] == it.out[j]; }
    }
  }

  lemma ReceiveOrder(it: Iter)
    requires OrderOk(it) && Enabled(it, Receive)
    ensures OrderOk(Apply(it, Receive))
  {
    if |it.buffer[0].addrs| > 0 { LookupDelivered(it.out, it.buffer[0].l, it.buffer[0].addrs); }
  }

  lemma OrderStep(it: Iter, step: Step)
    requires SourceOk(it) && OrderOk(it) && Enabled(it, step)
    ensures OrderOk(Apply(it, step))
  {
    if step.SourceNext? {
      ReadOrder(it, step.cached);
    } else if step.Receive? {
      ReceiveOrder(it);
    } else if step.Refuse? || step.Spawn? {
      assert DecidingAt(it, it.pc.i);
      VerdictSettles(it.verdicts, it.pc.i, Apply(it, step).verdicts[it.pc.i]);
    }
  }

  lemma ServesStep(it: Iter, step: Step)
    requires Enabled(it, step) && AllServe(it.out)
    ensures AllServe(Apply(it, step).out)
  {
  }

  lemma StepKeepsInv(it: Iter, step: Step)
    requires Inv(it) && Enabled(it, step)
    ensures Inv(Apply(it, step))
  {
    SourceStep(it, step);
    OrderStep(it, step);
    if step.SourceNext? { ReadFates(it, step.cached); }
    else if step.Receive? { ReceiveFates(it); }
    else { FatesStep(it, step); }
    ServesStep(it, step);
  }

  lemma {:induction false} RunKeepsInv(s: System, moves: seq<Move>, t: System, n: nat)
    requires Reaches(s, moves, t) && n < |t.iters|
    requires forall k | 0 <= k < |s.iters| :: Inv(s.iters[k])
    ensures Inv(t.iters[n])
    decreases |moves|
  {
    if moves != [] {
      if moves[0].Take? { StepKeepsInv(s.iters[moves[0].n], moves[0].step); }
      RunKeepsInv(Do(s, moves[0]), moves[1..], t, n);
    }
  }
}
