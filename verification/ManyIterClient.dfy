/** The fan-in as the object the client holds: `Next` and `Close` update its fields in place, come to an
    end under every schedule of the goroutines, and reach only states of the machine. */
module ManyIterClient {
  import opened Multiaddrs
  import opened ManyIter

  lemma {:induction false} RunsOn<T>(s: State<T>, steps: seq<Step>, t: State<T>, step: Step)
    requires Reaches(s, steps, t) && Enabled(t, step)
    ensures Reaches(s, steps + [step], Apply(t, step))
    decreases |steps|
  {
    if steps == [] {
      assert [step][1..] == [];
    } else {
      RunsOn(Apply(s, steps[0]), steps[1..], t, step);
      assert (steps + [step])[1..] == steps[1..] + [step];
    }
  }

  /** What one more step of a run inside Next or Close costs. */
  lemma OneMoreStep<T>(outs: seq<seq<T>>, trace: seq<Step>, s: State<T>, step: Step)
    requires Reaches(Init(outs), trace, s) && Enabled(s, step)
    ensures Reaches(Init(outs), trace + [step], Apply(s, step))
    ensures Inside(s.pc) ==> Work(s) >= 0 && (!step.ParentCancel? ==> Work(Apply(s, step)) < Work(s))
  {
    RunsOn(Init(outs), trace, s, step);
    if Inside(s.pc) { CallsComeToAnEnd(outs, trace, s); }
  }

  lemma WorkIsLeft<T>(outs: seq<seq<T>>, trace: seq<Step>, s: State<T>)
    requires Reaches(Init(outs), trace, s) && Inside(s.pc)
    ensures Work(s) >= 0
  {
    CallsComeToAnEnd(outs, trace, s);
  }

  lemma SentIsBounded<T>(outs: seq<seq<T>>, trace: seq<Step>, s: State<T>)
    requires Reaches(Init(outs), trace, s)
    ensures |s.children| == |s.closes| == |outs|
    ensures forall c | 0 <= c < |s.children| ::
              s.children[c].sent <= |s.children[c].outs| && (s.children[c].pc.Offering? ==> s.children[c].sent < |s.children[c].outs|)
  {
    InitInv(outs);
    RunKeepsInv(Init(outs), trace, s);
    forall c: nat | c < |s.children|
      ensures s.children[c].sent <= |s.children[c].outs| && (s.children[c].pc.Offering? ==> s.children[c].sent < |s.children[c].outs|)
    {
      assert ChildOk(s, c);
    }
  }

  lemma ClosedMeansGone<T>(outs: seq<seq<T>>, trace: seq<Step>, s: State<T>)
    requires Reaches(Init(outs), trace, s) && s.pc.Closed?
    ensures s.chClosed && AllExited(s) && |s.closes| == |outs| && forall c | 0 <= c < |outs| :: s.closes[c] == 1
  {
    InitInv(outs);
    RunKeepsInv(Init(outs), trace, s);
  }

  /** Everything received so far is a merge of prefixes; all of them, once Next has seen the end. */
  lemma ReceivedMerges<T>(outs: seq<seq<T>>, trace: seq<Step>, s: State<T>)
    requires Reaches(Init(outs), trace, s)
    ensures forall c | 0 <= c < |outs| :: From(s.received, c) <= outs[c]
    ensures s.pc.Failed? && !s.done ==> forall c | 0 <= c < |outs| :: From(s.received, c) == outs[c]
  {
    forall c: nat | c < |outs|
      ensures From(s.received, c) <= outs[c] && (s.pc.Failed? && !s.done ==> From(s.received, c) == outs[c])
    {
      MergesTheChildren(outs, trace, s, c);
    }
  }

  /** Who moves next while the client is blocked, and when the context is canceled from outside, by the
      number of looks. A step that cannot happen then leaves the choice to the first one that can. */
  datatype Schedule = Schedule(pick: nat -> Step, cancel: nat -> bool)

  datatype Selected = Value | End | Again

  /** What closing the first `n` children reports, in their order. */
  function CloseErrors(failure: nat -> Option<string>, n: nat): seq<string> {
    if n == 0 then []
    else
      CloseErrors(failure, n - 1) + match failure(n - 1) { case Some(e) => [e] case None => [] }
  }

  lemma {:induction false} EveryErrorIsReported(failure: nat -> Option<string>, n: nat, e: string)
    ensures e in CloseErrors(failure, n) <==> exists c: nat :: c < n && failure(c) == Some(e)
  {
    if n > 0 { EveryErrorIsReported(failure, n - 1, e); }
  }

  /** The context was canceled from outside at a look from `from` to just before `to`. */
  ghost predicate CanceledBetween(sched: Schedule, from: nat, to: nat) {
    exists t: nat | from <= t < to :: sched.cancel(t)
  }

  lemma CanceledOneMore(sched: Schedule, from: nat, to: nat)
    requires from <= to
    ensures CanceledBetween(sched, from, to + 1) == (CanceledBetween(sched, from, to) || sched.cancel(to))
  {
    if t: nat :| from <= t < to && sched.cancel(t) { assert from <= t < to + 1; }
    if sched.cancel(to) { assert from <= to < to + 1; }
  }

  class ManyIterator<T> {
    ghost const outs: seq<seq<T>>
    var its: seq<Child<T>>
    var ctxDone: bool
    var chClosed: bool
    var done: bool
    var val: Option<T>
    var closes: seq<nat>
    var tick: nat
    ghost var pc: Pc
    ghost var received: seq<Msg<T>>
    ghost var drained: seq<Msg<T>>
    ghost var trace: seq<Step>

    ghost function View(): State<T>
      reads this
    {
      State(its, ctxDone, chClosed, pc, received, drained, closes)
    }

    ghost predicate Valid()
      reads this
    {
      Reaches(Init(outs), trace, View()) && (done <==> !(pc.Idle? || pc.InNext?))
    }

    constructor (outs: seq<seq<T>>)
      ensures Valid() && View() == Init(outs) && !done && this.outs == outs
    {
      this.outs := outs;
      its := seq(|outs|, c requires 0 <= c < |outs| => Child(outs[c], 0, Calling));
      closes := seq(|outs|, c => 0);
      ctxDone, chClosed, done, val, tick := false, false, false, None, 0;
      pc, received, drained, trace := Idle, [], [], [];
    }

    twostate predicate Took(step: Step)
      reads this
    {
      && Enabled(old(View()), step) && View() == Apply(old(View()), step)
      && trace == old(trace) + [step] && Reaches(Init(outs), trace, View())
      && (old(Inside(pc)) ==> old(Work(View())) >= 0 && (!step.ParentCancel? ==> Work(View()) < old(Work(View()))))
    }

    predicate ChildAt(c: nat, at: ChildPc)
      reads this
    {
      c < |its| && its[c].pc == at && its[c].sent <= |its[c].outs|
    }

    /** What can move while the client waits on the channel. */
    predicate CanHappen(step: Step)
      reads this
      ensures CanHappen(step) && ((pc.InNext? && !done) || (pc.Draining? && done)) ==> Enabled(View(), step)
    {
      match step
      case ChildNext(c) => ChildAt(c, Calling)
      case Transfer(c) => ChildAt(c, Offering) && its[c].sent < |its[c].outs|
      case Quit(c) => ChildAt(c, Offering) && ctxDone
      case CloseCh => !chClosed && forall c | 0 <= c < |its| :: its[c].pc.Exited?
      case SeeClosed => chClosed
      case SeeDone => ctxDone && !done
      case _ => false
    }

    method Choose(sched: Schedule) returns (step: Step)
      requires Valid() && (pc.InNext? || pc.Draining?)
      modifies this`tick
      ensures CanHappen(step) && (pc.Draining? ==> !step.SeeDone?) && tick == old(tick) + 1
      ensures CanHappen(sched.pick(old(tick))) ==> step == sched.pick(old(tick))
    {
      step := sched.pick(tick);
      tick := tick + 1;
      if CanHappen(step) { return; }
      if chClosed { return SeeClosed; }
      SentIsBounded(outs, trace, View());
      for c := 0 to |its|
        invariant forall k | 0 <= k < c :: its[k].pc.Exited?
      {
        if its[c].pc.Calling? { return ChildNext(c); }
        if its[c].pc.Offering? { return Transfer(c); }
      }
      return CloseCh;
    }

    /** A step of a goroutine, or of the one that closes the channel. */
    method GoroutineStep(step: Step)
      requires Valid() && (pc.InNext? || pc.Draining?) && CanHappen(step) && (step.ChildNext? || step.Quit? || step.CloseCh?)
      modifies this`its, this`chClosed, this`trace
      ensures Took(step) && Valid()
    {
      OneMoreStep(outs, trace, View(), step);
      match step {
        case ChildNext(c) => its := its[c := its[c].(pc := if its[c].sent < |its[c].outs| then Offering else Exited)];
        case Quit(c) => its := its[c := its[c].(pc := Exited)];
        case CloseCh => chClosed := true;
      }
      trace := trace + [step];
    }

    /** The client takes what child `c` offers. */
    method ReceiveFrom(c: nat) returns (v: T)
      requires Valid() && (pc.InNext? || pc.Draining?) && CanHappen(Transfer(c))
      modifies this`its, this`pc, this`received, this`drained, this`trace
      ensures Took(Transfer(c)) && Valid()
      ensures pc.Idle? ==> received == old(received) + [Msg(c, v)]
      ensures pc == if old(pc).InNext? then Idle else Draining
    {
      OneMoreStep(outs, trace, View(), Transfer(c));
      v := its[c].outs[its[c].sent];
      its := its[c := its[c].(sent := its[c].sent + 1, pc := Calling)];
      if pc.InNext? { received, pc := received + [Msg(c, v)], Idle; } else { drained := drained + [Msg(c, v)]; }
      trace := trace + [Transfer(c)];
    }

    method MaybeCancel(sched: Schedule)
      requires Valid()
      modifies this`ctxDone, this`trace
      ensures Valid() && ctxDone == (old(ctxDone) || sched.cancel(tick))
      ensures Inside(pc) ==> Work(View()) == old(Work(View()))
    {
      if sched.cancel(tick) {
        OneMoreStep(outs, trace, View(), ParentCancel);
        ctxDone, trace := true, trace + [ParentCancel];
      }
    }

    /** What becomes possible next while the client is blocked in Next. */
    method Wake(sched: Schedule) returns (step: Step)
      requires Valid() && pc.InNext?
      modifies this`ctxDone, this`trace, this`tick
      ensures Valid() && CanHappen(step) && tick == old(tick) + 1
      ensures ctxDone == (old(ctxDone) || sched.cancel(old(tick)))
      ensures Work(View()) == old(Work(View()))
    {
      MaybeCancel(sched);
      step := Choose(sched);
    }

    method GiveUp(step: Step)
      requires Valid() && pc.InNext? && CanHappen(step) && (step.SeeClosed? || step.SeeDone?)
      modifies this`done, this`pc, this`trace
      ensures Valid() && pc.Failed?
    {
      OneMoreStep(outs, trace, View(), step);
      done := true;
      pc, trace := Failed, trace + [step];
    }

    method Deliver(c: nat)
      requires Valid() && pc.InNext? && CanHappen(Transfer(c))
      modifies this`its, this`pc, this`received, this`drained, this`trace, this`val
      ensures Valid() && pc.Idle? && val.Some? && drained == old(drained) && received == old(received) + [Msg(c, val.value)]
    {
      var v := ReceiveFrom(c);
      val := Some(v);
    }

    /** One thing that becomes possible while the client is blocked. */
    method SelectOnce(sched: Schedule) returns (r: Selected)
      requires Valid() && pc.InNext?
      modifies this
      ensures Valid() && drained == old(drained) && closes == old(closes)
      ensures r == Value ==> pc.Idle? && val.Some? && exists c :: received == old(received) + [Msg(c, val.value)]
      ensures r != Value ==> received == old(received) && pc == if r == End then Failed else InNext
      ensures r == Again ==> Work(View()) < old(Work(View()))
      ensures tick == old(tick) + 1 && ctxDone == (old(ctxDone) || sched.cancel(old(tick)))
    {
      var step := Wake(sched);
      if step.Transfer? {
        Deliver(step.c);
        return Value;
      }
      if step.SeeClosed? || step.SeeDone? {
        GiveUp(step);
        return End;
      }
      GoroutineStep(step);
      return Again;
    }

    /** Blocks until a value comes, the channel is closed, or the context is done. */
    method Select(sched: Schedule) returns (ok: bool)
      requires Valid() && pc.InNext?
      modifies this
      ensures Valid() && drained == old(drained) && closes == old(closes)
      ensures ok ==> pc.Idle? && val.Some? && exists c :: received == old(received) + [Msg(c, val.value)]
      ensures !ok ==> pc.Failed? && received == old(received)
      ensures old(tick) <= tick && ctxDone == (old(ctxDone) || CanceledBetween(sched, old(tick), tick))
    {
      while true
        invariant Valid() && pc.InNext? && received == old(received) && drained == old(drained) && closes == old(closes)
        invariant old(tick) <= tick && ctxDone == (old(ctxDone) || CanceledBetween(sched, old(tick), tick))
        decreases Work(View())
      {
        WorkIsLeft(outs, trace, View());
        CanceledOneMore(sched, old(tick), tick);
        var r := SelectOnce(sched);
        match r
        case Value => return true;
        case End => return false;
        case Again =>
      }
    }

    /** The next value of any child. False, and nothing more ever after, when all children are drained or
        the context is done. */
    method Next(sched: Schedule) returns (ok: bool)
      requires Valid() && (pc.Idle? || pc.Failed? || pc.Closed?)
      modifies this
      ensures Valid() && drained == old(drained) && closes == old(closes)
      ensures ok ==> pc.Idle? && val.Some? && exists c :: received == old(received) + [Msg(c, val.value)]
      ensures !ok ==> done && received == old(received)
      ensures old(done) ==> !ok && View() == old(View())
      ensures !old(done) ==> forall c | 0 <= c < |outs| :: From(received, c) <= outs[c]
      ensures old(tick) <= tick && ctxDone == (old(ctxDone) || CanceledBetween(sched, old(tick), tick))
      ensures !ok && !old(done) && !ctxDone ==> forall c | 0 <= c < |outs| :: From(received, c) == outs[c]
    {
      if done { return false; }
      OneMoreStep(outs, trace, View(), CallNext);
      pc, trace := InNext, trace + [CallNext];
      ok := Select(sched);
      ReceivedMerges(outs, trace, View());
    }

    method Drain(sched: Schedule)
      requires Valid() && pc.Draining?
      modifies this
      ensures Valid() && received == old(received) && pc == Closing(0)
    {
      while true
        invariant Valid() && pc.Draining? && received == old(received)
        decreases Work(View())
      {
        var step := Choose(sched);
        OneMoreStep(outs, trace, View(), step);
        if step.SeeClosed? {
          pc, trace := Closing(0), trace + [SeeClosed];
          return;
        }
        if step.Transfer? { var _ := ReceiveFrom(step.c); } else { GoroutineStep(step); }
      }
    }

    method CloseOne(k: nat, failure: nat -> Option<string>) returns (err: Option<string>)
      requires Valid() && pc == Closing(k) && k < |its| == |closes|
      modifies this`closes, this`pc, this`trace
      ensures Valid() && pc == Closing(k + 1) && |closes| == |its| && err == failure(k)
    {
      OneMoreStep(outs, trace, View(), CloseChild);
      closes := closes[k := closes[k] + 1];
      pc, trace := Closing(k + 1), trace + [CloseChild];
      err := failure(k);
    }

    ghost method FinishClosing()
      requires Valid() && pc == Closing(|its|) && |closes| == |its| == |outs|
      modifies this`pc, this`trace
      ensures Valid() && pc.Closed?
      ensures chClosed && closes == seq(|outs|, c => 1) && forall c | 0 <= c < |its| :: its[c].pc.Exited?
    {
      OneMoreStep(outs, trace, View(), CloseChild);
      pc, trace := Closed, trace + [CloseChild];
      ClosedMeansGone(outs, trace, View());
      assert closes == seq(|outs|, c => 1);
    }

    method CloseChildren(failure: nat -> Option<string>) returns (errs: seq<string>)
      requires Valid() && pc == Closing(0)
      modifies this`closes, this`pc, this`trace
      ensures Valid() && pc.Closed? && errs == CloseErrors(failure, |outs|)
      ensures chClosed && closes == seq(|outs|, c => 1) && forall c | 0 <= c < |its| :: its[c].pc.Exited?
    {
      SentIsBounded(outs, trace, View());
      errs := [];
      for k := 0 to |its|
        invariant Valid() && pc == Closing(k) && |closes| == |its| == |outs|
        invariant errs == CloseErrors(failure, k)
      {
        var err := CloseOne(k, failure);
        if err.Some? { errs := errs + [err.value]; }
      }
      FinishClosing();
    }

    /** An early Close ends with a closed channel, no goroutine, and every child closed once; after Next
        has returned false it does nothing. */
    method Close(sched: Schedule, failure: nat -> Option<string>) returns (errs: seq<string>)
      requires Valid() && (pc.Idle? || pc.Failed? || pc.Closed?)
      modifies this
      ensures Valid() && received == old(received)
      ensures old(done) ==> View() == old(View()) && errs == []
      ensures !old(done) ==> chClosed && closes == seq(|outs|, c => 1) && forall c | 0 <= c < |its| :: its[c].pc.Exited?
      ensures !old(done) ==> errs == CloseErrors(failure, |outs|)
      ensures !old(done) ==> forall e :: e in errs <==> exists c: nat :: c < |outs| && failure(c) == Some(e)
    {
      if done { return []; }
      OneMoreStep(outs, trace, View(), CallClose);
      done, ctxDone := true, true;
      pc, trace := Draining, trace + [CallClose];
      Drain(sched);
      errs := CloseChildren(failure);
      forall e ensures e in errs <==> exists c: nat :: c < |outs| && failure(c) == Some(e) {
        EveryErrorIsReported(failure, |outs|, e);
      }
    }
  }
}
