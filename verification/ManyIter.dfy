/** The fan-in of several iterators over one unbuffered channel, with cancel and close: one step per
    channel operation, call of a child, and look at the context. */
module ManyIter {

  datatype ChildPc = Calling | Offering | Exited

  /** A child and its goroutine: everything its iterator will produce, how much of it was sent, and what
      the goroutine is at. */
  datatype Child<T> = Child(outs: seq<T>, sent: nat, pc: ChildPc)

  /** The client: between calls, inside Next, after a Next that returned false, or in Close. */
  datatype Pc = Idle | InNext | Failed | Draining | Closing(k: nat) | Closed

  /** A value and the child it came from. */
  datatype Msg<T> = Msg(child: nat, val: T)

  /** `received` is what Next returned, `drained` what Close threw away, `closes` how often each child
      was closed. */
  datatype State<T> = State(
    children: seq<Child<T>>,
    done: bool,
    chClosed: bool,
    pc: Pc,
    received: seq<Msg<T>>,
    drained: seq<Msg<T>>,
    closes: seq<nat>)

  datatype Step =
    | ChildNext(c: nat)
    | Transfer(c: nat)
    | Quit(c: nat)
    | CloseCh
    | CallNext
    | SeeClosed
    | SeeDone
    | CallClose
    | CloseChild
    | ParentCancel

  predicate At<T>(s: State<T>, c: nat, pc: ChildPc) {
    c < |s.children| && s.children[c].pc == pc && s.children[c].sent <= |s.children[c].outs|
  }

  predicate AllExited<T>(s: State<T>) {
    forall c | 0 <= c < |s.children| :: s.children[c].pc.Exited?
  }

  /** An unbuffered send needs a receiver: a client in Next or a Close that drains. */
  predicate Enabled<T>(s: State<T>, step: Step) {
    match step
    case ChildNext(c) => At(s, c, Calling)
    case Transfer(c) => At(s, c, Offering) && s.children[c].sent < |s.children[c].outs| && (s.pc.InNext? || s.pc.Draining?)
    case Quit(c) => At(s, c, Offering) && s.done
    case CloseCh => !s.chClosed && AllExited(s)
    case CallNext => s.pc.Idle? || s.pc.Failed?
    case SeeClosed => s.chClosed && (s.pc.InNext? || s.pc.Draining?)
    case SeeDone => s.pc.InNext? && s.done
    case CallClose => s.pc.Idle? || s.pc.Failed?
    case CloseChild => s.pc.Closing? && (s.pc.k < |s.children| ==> s.pc.k < |s.closes|)
    case ParentCancel => true
  }

  function SetChild<T>(s: State<T>, c: nat, x: Child<T>): State<T>
    requires c < |s.children|
  {
    s.(children := s.children[c := x])
  }

  function Apply<T>(s: State<T>, step: Step): State<T>
    requires Enabled(s, step)
  {
    match step
    case ChildNext(c) =>
      var x := s.children[c];
      SetChild(s, c, x.(pc := if x.sent < |x.outs| then Offering else Exited))
    case Transfer(c) =>
      var x := s.children[c];
      var m := Msg(c, x.outs[x.sent]);
      var t := SetChild(s, c, x.(sent := x.sent + 1, pc := Calling));
      if s.pc.InNext? then t.(received := s.received + [m], pc := Idle)
      else t.(drained := s.drained + [m])
    case Quit(c) => SetChild(s, c, s.children[c].(pc := Exited))
    case CloseCh => s.(chClosed := true)
    case CallNext => if s.pc.Failed? then s else s.(pc := InNext)
    case SeeClosed => s.(pc := if s.pc.InNext? then Failed else Closing(0))
    case SeeDone => s.(pc := Failed)
    case CallClose => if s.pc.Failed? then s else s.(done := true, pc := Draining)
    case CloseChild =>
      if s.pc.k < |s.children| then s.(closes := s.closes[s.pc.k := s.closes[s.pc.k] + 1], pc := Closing(s.pc.k + 1))
      else s.(pc := Closed)
    case ParentCancel => s.(done := true)
  }

  ghost predicate Reaches<T>(s: State<T>, steps: seq<Step>, t: State<T>)
    decreases |steps|
  {
    if steps == [] then s == t
    else Enabled(s, steps[0]) && Reaches(Apply(s, steps[0]), steps[1..], t)
  }

  function Init<T>(outs: seq<seq<T>>): State<T> {
    State(seq(|outs|, c requires 0 <= c < |outs| => Child(outs[c], 0, Calling)), false, false, Idle, [], [],
          seq(|outs|, c => 0))
  }

  // ---- The invariant ----

  /** What child `c` contributed to a list of messages. */
  function From<T>(msgs: seq<Msg<T>>, c: nat): seq<T> {
    if msgs == [] then []
    else
      var n := |msgs| - 1;
      From(msgs[..n], c) + if msgs[n].child == c then [msgs[n].val] else []
  }

  lemma FromGrows<T>(msgs: seq<Msg<T>>, m: Msg<T>, c: nat)
    ensures From(msgs + [m], c) == From(msgs, c) + if m.child == c then [m.val] else []
  {
    assert (msgs + [m])[..|msgs|] == msgs;
  }

  predicate EarlyClose(pc: Pc) {
    pc.Draining? || pc.Closing? || pc.Closed?
  }

  /** Child `c` has sent a prefix, all of it is accounted for, and if its goroutine is gone while the
      context lives, there was no more. */
  ghost predicate ChildOk<T>(s: State<T>, c: nat)
    requires c < |s.children|
  {
    var x := s.children[c];
    && x.sent <= |x.outs|
    && From(s.received, c) + From(s.drained, c) == x.outs[..x.sent]
    && (x.pc.Offering? ==> x.sent < |x.outs|)
    && (x.pc.Exited? && !s.done ==> x.sent == |x.outs|)
  }

  ghost predicate ClosesOk<T>(s: State<T>) {
    && |s.closes| == |s.children|
    && (s.pc.Closing? ==> s.pc.k <= |s.children|)
    && forall c | 0 <= c < |s.closes| ::
         s.closes[c] == if s.pc.Closed? || (s.pc.Closing? && c < s.pc.k) then 1 else 0
  }

  ghost predicate Inv<T>(s: State<T>) {
    && (forall c: nat | c < |s.children| :: ChildOk(s, c))
    && (forall k | 0 <= k < |s.received| :: s.received[k].child < |s.children|)
    && (s.chClosed ==> AllExited(s))
    && ClosesOk(s)
    && (EarlyClose(s.pc) ==> s.done)
    && (!EarlyClose(s.pc) ==> s.drained == [])
    && (s.pc.Closing? || s.pc.Closed? ==> s.chClosed)
    && (s.pc.Failed? && !s.done ==> s.chClosed)
  }

  lemma TransferKeepsChildren<T>(s: State<T>, c: nat)
    requires Inv(s) && Enabled(s, Transfer(c))
    ensures forall d: nat | d < |s.children| :: ChildOk(Apply(s, Transfer(c)), d)
  {
    var t := Apply(s, Transfer(c));
    var x := s.children[c];
    var m := Msg(c, x.outs[x.sent]);
    forall d: nat | d < |s.children| ensures ChildOk(t, d) {
      assert ChildOk(s, d);
      FromGrows(s.received, m, d);
      FromGrows(s.drained, m, d);
      assert x.outs[..x.sent + 1] == x.outs[..x.sent] + [x.outs[x.sent]];
      if s.pc.InNext? {
        assert From(s.drained, d) == [];
        assert From(t.received, d) + [] == From(t.received, d);
        assert From(s.received, d) + [] == From(s.received, d);
      } else {
        assert From(s.received, d) + (From(s.drained, d) + if c == d then [m.val] else []) ==
               From(s.received, d) + From(s.drained, d) + if c == d then [m.val] else [];
      }
    }
  }

  lemma StepKeepsInv<T>(s: State<T>, step: Step)
    requires Inv(s) && Enabled(s, step)
    ensures Inv(Apply(s, step))
  {
    var t := Apply(s, step);
    if step.Transfer? {
      TransferKeepsChildren(s, step.c);
    } else {
      forall c: nat | c < |t.children| ensures ChildOk(t, c) { assert ChildOk(s, c); }
    }
  }

  lemma InitInv<T>(outs: seq<seq<T>>)
    ensures Inv(Init(outs))
  {
    var s := Init(outs);
    forall c: nat | c < |s.children| ensures ChildOk(s, c) {
      assert s.children[c].outs[..0] == [];
    }
  }

  lemma {:induction false} RunKeepsInv<T>(s: State<T>, steps: seq<Step>, t: State<T>)
    requires Inv(s) && Reaches(s, steps, t)
    ensures Inv(t) && |t.children| == |s.children|
    ensures forall c | 0 <= c < |t.children| :: t.children[c].outs == s.children[c].outs
    decreases |steps|
  {
    if steps != [] {
      StepKeepsInv(s, steps[0]);
      RunKeepsInv(Apply(s, steps[0]), steps[1..], t);
    }
  }

  // ---- Main results, over every interleaving ----

  /** What Next returned is an order-keeping merge of prefixes of what the children produce. If it
      returned false and nothing was canceled, it is a merge of all they produce. */
  lemma MergesTheChildren<T>(outs: seq<seq<T>>, steps: seq<Step>, t: State<T>, c: nat)
    requires Reaches(Init(outs), steps, t) && c < |outs|
    ensures forall k | 0 <= k < |t.received| :: t.received[k].child < |outs|
    ensures From(t.received, c) <= outs[c]
    ensures t.pc.Failed? && !t.done ==> From(t.received, c) == outs[c]
  {
    InitInv(outs);
    RunKeepsInv(Init(outs), steps, t);
    assert ChildOk(t, c);
  }

  /** Children are closed by an early Close only: once each when it is over, and never once Next has
      returned false, which makes a later Close a no-op. */
  lemma ClosedOnceOrNever<T>(outs: seq<seq<T>>, steps: seq<Step>, t: State<T>, c: nat)
    requires Reaches(Init(outs), steps, t) && c < |outs|
    ensures |t.closes| == |outs| && t.closes[c] <= 1
    ensures t.pc.Closed? ==> t.closes[c] == 1 && t.chClosed && AllExited(t)
    ensures t.pc.Failed? ==> t.closes[c] == 0 && Apply(t, CallClose) == t
  {
    InitInv(outs);
    RunKeepsInv(Init(outs), steps, t);
  }

  // ---- Close, and Next, come to an end ----

  function ChildWork<T>(x: Child<T>): int {
    3 * (|x.outs| - x.sent) + match x.pc { case Calling => 2 case Offering => 1 case Exited => 0 }
  }

  function TotalWork<T>(xs: seq<Child<T>>): int {
    if xs == [] then 0 else TotalWork(xs[..|xs| - 1]) + ChildWork(xs[|xs| - 1])
  }

  lemma {:induction false} WorkUpdate<T>(xs: seq<Child<T>>, c: nat, x: Child<T>)
    requires c < |xs|
    ensures TotalWork(xs[c := x]) == TotalWork(xs) - ChildWork(xs[c]) + ChildWork(x)
  {
    var n := |xs| - 1;
    if c < n {
      WorkUpdate(xs[..n], c, x);
      assert xs[c := x][..n] == xs[..n][c := x];
    } else {
      assert xs[c := x][..n] == xs[..n];
    }
  }

  lemma {:induction false} WorkNonNegative<T>(xs: seq<Child<T>>)
    requires forall c | 0 <= c < |xs| :: xs[c].sent <= |xs[c].outs|
    ensures TotalWork(xs) >= 0
  {
    if xs != [] { WorkNonNegative(xs[..|xs| - 1]); }
  }

  function ClientWork<T>(s: State<T>): int {
    match s.pc
    case InNext => |s.children| + 3
    case Draining => |s.children| + 2
    case Closing(k) => |s.children| + 1 - k
    case _ => 0
  }

  function Work<T>(s: State<T>): int {
    TotalWork(s.children) + ClientWork(s) + if s.chClosed then 0 else 1
  }

  predicate Inside(pc: Pc) {
    pc.InNext? || pc.Draining? || pc.Closing?
  }

  lemma ChildStepWorks<T>(s: State<T>, step: Step)
    requires Inv(s) && Inside(s.pc) && Enabled(s, step) && (step.ChildNext? || step.Transfer? || step.Quit?)
    ensures Work(Apply(s, step)) < Work(s)
  {
    assert ChildOk(s, step.c);
    WorkUpdate(s.children, step.c, Apply(s, step).children[step.c]);
  }

  lemma SomeStep<T>(s: State<T>)
    requires Inv(s) && Inside(s.pc)
    ensures exists step :: Enabled(s, step) && !step.ParentCancel?
  {
    if s.pc.Closing? {
      assert Enabled(s, CloseChild);
    } else if s.chClosed {
      assert Enabled(s, SeeClosed);
    } else if AllExited(s) {
      assert Enabled(s, CloseCh);
    } else {
      var c: nat :| c < |s.children| && !s.children[c].pc.Exited?;
      assert ChildOk(s, c);
      assert Enabled(s, ChildNext(c)) || Enabled(s, Transfer(c));
    }
  }

  /** While the client is inside Next or Close, every step but an outside cancel uses up work, of which
      there is only so much, and some step can be taken: given that the children's Next returns, both
      calls come to an end, and an early Close reaches the closed channel. */
  lemma CallsComeToAnEnd<T>(outs: seq<seq<T>>, steps: seq<Step>, s: State<T>)
    requires Reaches(Init(outs), steps, s) && Inside(s.pc)
    ensures Work(s) >= 0
    ensures forall step | Enabled(s, step) && !step.ParentCancel? :: Work(Apply(s, step)) < Work(s)
    ensures exists step :: Enabled(s, step) && !step.ParentCancel?
  {
    InitInv(outs);
    RunKeepsInv(Init(outs), steps, s);
    forall c: nat | c < |s.children| ensures s.children[c].sent <= |s.children[c].outs| { assert ChildOk(s, c); }
    WorkNonNegative(s.children);
    forall step | Enabled(s, step) && !step.ParentCancel? ensures Work(Apply(s, step)) < Work(s) {
      if step.ChildNext? || step.Transfer? || step.Quit? { ChildStepWorks(s, step); }
    }
    SomeStep(s);
  }

  // ---- However much the children produce ----

  function ShortOf(pc: ChildPc): nat {
    match pc case Calling => 2 case Offering => 1 case Exited => 0
  }

  function TotalShort<T>(xs: seq<Child<T>>): nat {
    if xs == [] then 0 else TotalShort(xs[..|xs| - 1]) + ShortOf(xs[|xs| - 1].pc)
  }

  /** What is left to do without counting what the children may still send. */
  function ShortWork<T>(s: State<T>): int {
    TotalShort(s.children) + ClientWork(s) + if s.chClosed then 0 else 1
  }

  lemma {:induction false} ShortUpdate<T>(xs: seq<Child<T>>, c: nat, x: Child<T>)
    requires c < |xs|
    ensures TotalShort(xs[c := x]) == TotalShort(xs) - ShortOf(xs[c].pc) + ShortOf(x.pc)
  {
    var n := |xs| - 1;
    if c < n {
      ShortUpdate(xs[..n], c, x);
      assert xs[c := x][..n] == xs[..n][c := x];
    } else {
      assert xs[c := x][..n] == xs[..n];
    }
  }

  lemma {:induction false} ShortIsBounded<T>(xs: seq<Child<T>>)
    ensures TotalShort(xs) <= 2 * |xs|
  {
    if xs != [] { ShortIsBounded(xs[..|xs| - 1]); }
  }

  lemma ShortStep<T>(s: State<T>, step: Step)
    requires Inv(s) && Inside(s.pc) && Enabled(s, step) && !step.ParentCancel?
    ensures if step.Transfer? then (if s.pc.InNext? then Apply(s, step).pc.Idle? else ShortWork(Apply(s, step)) == ShortWork(s) + 1)
            else ShortWork(Apply(s, step)) < ShortWork(s)
  {
    if step.ChildNext? || step.Transfer? || step.Quit? {
      assert ChildOk(s, step.c);
      ShortUpdate(s.children, step.c, Apply(s, step).children[step.c]);
    }
  }

  /** Inside Next no number of values the children hold back matters: the first one to be handed over ends
      the call, and every other step uses up a work that is bounded by the number of children. Inside
      Close the same work is set back by nothing but a child that hands over one more value although
      the context is canceled. */
  lemma WorkIsBoundedByChildren<T>(outs: seq<seq<T>>, steps: seq<Step>, s: State<T>, step: Step)
    requires Reaches(Init(outs), steps, s) && Inside(s.pc)
    ensures 0 <= ShortWork(s) <= 3 * |outs| + 4
    ensures Enabled(s, step) && !step.ParentCancel? ==>
              if step.Transfer? then (if s.pc.InNext? then Apply(s, step).pc.Idle? else ShortWork(Apply(s, step)) == ShortWork(s) + 1)
              else ShortWork(Apply(s, step)) < ShortWork(s)
  {
    InitInv(outs);
    RunKeepsInv(Init(outs), steps, s);
    ShortIsBounded(s.children);
    if Enabled(s, step) && !step.ParentCancel? { ShortStep(s, step); }
  }
}
