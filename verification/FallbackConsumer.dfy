/** The fallback iterator as the object the client holds: `Next` and the lookups it starts update its
    fields in place, and every state they reach is a state of the machine. */
module FallbackConsumer {
  import opened Multiaddrs
  import opened FallbackIter
  import opened FallbackCounting
  import opened FallbackContents
  import opened FallbackDelivery
  import opened FallbackResults
  import opened FallbackRuns
  import opened FallbackSchedule

  /** Next returned, or its timer went off as often as we were ready to look. */
  datatype NextResult = Returned(ok: bool) | StillWaiting

  /** How one wait ended. */
  datatype Round = Serve | Stop | Retry | Expired

  /** The addresses of the first `n` records that are remembered in the address book. */
  function Remembered(src: seq<Record>, n: nat, providers: bool): seq<seq<Multiaddr>> {
    if !providers || n == 0 || n > |src| then []
    else
      Remembered(src, n - 1, providers) + match src[n - 1] { case Peer(addrs) => if addrs == [] then [] else [addrs] case Other => [] }
  }

  /** For a provider response the addresses of each peer that came with some, and nothing else. */
  lemma {:induction false} RememberedIsWhatCame(src: seq<Record>, n: nat, providers: bool, addrs: seq<Multiaddr>)
    requires n <= |src|
    ensures addrs in Remembered(src, n, providers) <==>
            providers && addrs != [] && exists i: nat :: i < n && src[i] == Peer(addrs)
  {
    if n > 0 { RememberedIsWhatCame(src, n - 1, providers, addrs); }
  }

  class CacheFallbackIter {
    const src: seq<Record>
    const providers: bool
    var pos: nat
    var current: Option<Delivery>
    var findPeersResult: seq<Item>
    var canceled: bool
    var ongoingLookups: int
    var lookups: seq<Lookup>
    var remembered: seq<seq<Multiaddr>>
    var tick: nat
    ghost var pc: Pc
    ghost var verdicts: seq<Verdict>
    ghost var seen: seq<seq<Multiaddr>>
    ghost var out: seq<Delivery>
    ghost var trace: seq<Step>
    ghost var expiries: nat   // how often the timer went off

    ghost function View(): Iter
      reads this
    {
      Iter(src, pos, pc, canceled, ongoingLookups, findPeersResult, lookups, verdicts, seen, out)
    }

    ghost function At(): Moment
      reads this
    {
      Moment(View(), tick)
    }

    ghost predicate Valid()
      reads this
    {
      Runs(NewIter(src), trace, View()) && remembered == Remembered(src, pos, providers)
    }

    constructor (src: seq<Record>, providers: bool)
      ensures Valid() && View() == NewIter(src) && current == None && trace == []
      ensures this.src == src && this.providers == providers
    {
      this.src, this.providers, remembered := src, providers, [];
      pos, current, findPeersResult, canceled, ongoingLookups, lookups, tick := 0, None, [], false, 0, [], 0;
      pc, verdicts, seen, out, trace, expiries := Ready, [], [], [], [], 0;
    }

    /** One step of the machine happened. */
    twostate predicate Took(step: Step)
      reads this
    {
      && Enabled(old(View()), step) && View() == Apply(old(View()), step)
      && trace == old(trace) + [step] && expiries == old(expiries) + One(step.Timer?) && tick == old(tick)
      && Valid()
    }

    /** Something happened that is not the consumer's doing. */
    twostate predicate Meanwhile()
      reads this
    {
      && Valid() && old(trace) <= trace && expiries == old(expiries) && current == old(current)
      && SetsNothingBack(old(View()), View())
    }

    predicate LookupAt(l: nat, at: LookupPc)
      reads this
    {
      l < |lookups| && lookups[l].pc == at
    }

    predicate CanHappen(step: Step)
      reads this
      ensures CanHappen(step) <==> !OfConsumer(step) && Enabled(View(), step)
    {
      match step
      case Cancel => true
      case CheckCtx(l) => LookupAt(l, Searching)
      case Send(l, _) => LookupAt(l, Sending) && (|findPeersResult| < BUFFER_SIZE || !canceled)
      case GiveUp(l, _) => LookupAt(l, Sending) && canceled
      case Release(l) => LookupAt(l, Releasing)
      case Uncount(l) => LookupAt(l, Uncounting)
      case _ => false
    }

    method MoveLookup(l: nat, at: LookupPc, fate: Fate, found: seq<Multiaddr>)
      requires l < |lookups|
      modifies this`lookups
      ensures lookups == old(lookups)[l := old(lookups)[l].(pc := at, fate := fate, found := found)]
    {
      lookups := lookups[l := lookups[l].(pc := at, fate := fate, found := found)];
    }

    /** Without blocking: what does not fit is dropped. */
    method SendResult(l: nat, found: seq<Multiaddr>)
      requires CanHappen(Send(l, found))
      modifies this`lookups, this`findPeersResult
      ensures View() == Apply(old(View()), Send(l, found))
    {
      if |findPeersResult| < BUFFER_SIZE {
        findPeersResult := findPeersResult + [Item(l, found)];
        MoveLookup(l, Releasing, Buffered, found);
      } else {
        MoveLookup(l, Releasing, Dropped, found);
      }
    }

    method Affect(step: Step)
      requires CanHappen(step)
      modifies this`canceled, this`lookups, this`findPeersResult, this`ongoingLookups
      ensures View() == Apply(old(View()), step)
    {
      match step {
        case Cancel => canceled := true;
        case CheckCtx(l) => MoveLookup(l, if canceled then Releasing else Sending, if canceled then Abandoned else Pending, []);
        case Send(l, found) => SendResult(l, found);
        case GiveUp(l, found) => MoveLookup(l, Releasing, Abandoned, found);
        case Release(l) => MoveLookup(l, Uncounting, lookups[l].fate, lookups[l].found);
        case Uncount(l) =>
          ongoingLookups := ongoingLookups - 1;
          MoveLookup(l, Exited, lookups[l].fate, lookups[l].found);
      }
    }

    /** What a lookup does to the iterator, one action at a time, and what Close does. */
    method OtherStep(step: Step)
      requires Valid() && CanHappen(step)
      modifies this
      ensures Took(step) && Meanwhile()
    {
      OthersMeanwhile(src, trace, View(), step);
      Affect(step);
      trace := trace + [step];
    }

    method MaybeStep(step: Step)
      requires Valid()
      modifies this
      ensures Meanwhile() && tick == old(tick)
      ensures View() == if OfConsumer(step) || !Enabled(old(View()), step) then old(View()) else Apply(old(View()), step)
    {
      if CanHappen(step) { OtherStep(step); }
    }

    /** Everything the schedule has for this moment; what cannot happen now does not. */
    method Others(sched: Schedule)
      requires Valid()
      modifies this
      ensures Meanwhile() && At() == Played(sched, old(At()))
    {
      var steps := sched.others(tick);
      tick := tick + 1;
      for k := 0 to |steps|
        invariant Meanwhile() && tick == old(tick) + 1
        invariant Play(View(), steps[k..]) == Play(old(View()), steps)
      {
        assert steps[k..] == [steps[k]] + steps[k + 1..];
        PlayFirst(View(), steps[k], steps[k + 1..]);
        MaybeStep(steps[k]);
      }
    }

    /** What a provider record says is kept for later lookups of the peer. */
    method Remember(addrs: seq<Multiaddr>)
      modifies this`remembered
      ensures remembered == old(remembered) + if providers then [addrs] else []
    {
      if providers { remembered := remembered + [addrs]; }
    }

    method Pull(cached: seq<Multiaddr>) returns (served: bool)
      requires Enabled(View(), SourceNext(cached))
      modifies this`pos, this`current, this`pc, this`verdicts, this`seen, this`out, this`remembered
      ensures View() == Apply(old(View()), SourceNext(cached))
      ensures old(remembered) == Remembered(src, old(pos), providers) ==> remembered == Remembered(src, pos, providers)
      ensures served == pc.Ready?
      ensures served ==> |out| > 0 && current == Some(out[|out| - 1])
    {
      if pos == |src| {
        pc := Checking;
        return false;
      }
      var i, record := pos, src[pos];
      pos, seen := pos + 1, seen + [cached];
      if record.Peer? {
        if |record.addrs| > 0 { Remember(record.addrs); }
        var addrs := if |record.addrs| > 0 then record.addrs else cached;
        if |addrs| == 0 {
          pc, verdicts := Gate(i), verdicts + [Deciding];
          return false;
        }
        record := Peer(addrs);
      }
      current := Some(FromSource(i, record));
      pc, verdicts, out := Ready, verdicts + [Kept], out + [FromSource(i, record)];
      return true;
    }

    /** Takes one record, or finds the source exhausted. True if the record can be served. */
    method PullSource(cached: seq<Multiaddr>) returns (served: bool)
      requires Valid() && pc.AtSource?
      modifies this
      ensures Took(SourceNext(cached))
      ensures served == pc.Ready?
      ensures served ==> |out| > 0 && current == Some(out[|out| - 1])
    {
      ConsumerMoves(src, trace, View(), SourceNext(cached));
      served := Pull(cached);
      trace := trace + [SourceNext(cached)];
    }

    ghost method MoveTo(step: Step)
      requires step.CallNext? || step.Acquire? || step.Refuse? || step.Load? || step.SeeDone? || step.Timer?
      requires Enabled(View(), step)
      modifies this`pc, this`verdicts
      ensures View() == Apply(old(View()), step)
    {
      var t := Apply(View(), step);
      pc, verdicts := t.pc, t.verdicts;
    }

    /** A step of the consumer that touches nothing but its place, and what it knows of a record. */
    ghost method Advance(step: Step)
      requires Valid() && (step.CallNext? || step.Acquire? || step.Refuse? || step.Load? || step.SeeDone? || step.Timer?)
      requires Enabled(View(), step)
      modifies this`pc, this`verdicts, this`trace, this`expiries
      ensures Took(step)
    {
      ConsumerMoves(src, trace, View(), step);
      MoveTo(step);
      trace, expiries := trace + [step], expiries + One(step.Timer?);
    }

    method AddOngoing()
      requires Valid() && pc.Slotted?
      modifies this
      ensures Took(Count) && current == old(current)
    {
      ConsumerMoves(src, trace, View(), Count);
      ongoingLookups := ongoingLookups + 1;
      pc, trace := Counted(pc.i), trace + [Count];
    }

    method Go(i: nat)
      requires Valid() && pc == Counted(i)
      modifies this
      ensures Took(Spawn) && current == old(current)
    {
      ConsumerMoves(src, trace, View(), Spawn);
      verdicts := verdicts[i := Dispatched(|lookups|)];
      lookups := lookups + [Lookup(i, Searching, Pending, [])];
      pc, trace := AtSource, trace + [Spawn];
    }

    /** Takes a slot, then counts the lookup it is for. */
    method CountLookup(sched: Schedule, i: nat)
      requires Valid() && pc == Gate(i)
      modifies this
      ensures Valid() && pc == Counted(i) && old(trace) <= trace && expiries == old(expiries) && current == old(current)
      ensures At() == Did(Played(sched, Did(old(At()), Acquire)), Count)
    {
      Advance(Acquire);
      Others(sched);
      AddOngoing();
    }

    method StartLookup(sched: Schedule, i: nat)
      requires Valid() && pc == Gate(i)
      modifies this
      ensures Valid() && pc.AtSource? && old(trace) <= trace && expiries == old(expiries)
      ensures current == old(current)
      ensures At() == LookupStarted(sched, old(At()))
    {
      CountLookup(sched, i);
      Others(sched);
      Go(i);
    }

    /** Starts a lookup for record `i` if the gate and the pool let it; the slot is taken before the
        lookup is counted. */
    method Dispatch(sched: Schedule, i: nat)
      requires Valid() && pc == Gate(i)
      modifies this
      ensures Valid() && pc.AtSource? && old(trace) <= trace && expiries == old(expiries)
      ensures pos == old(pos) && out == old(out) && current == old(current) && (old(canceled) ==> canceled)
      ensures if old(sched.granted(tick)) then |lookups| == |old(lookups)| + 1 && lookups[|old(lookups)|].i == i
              else lookups == old(lookups)
      ensures At() == Decided(sched, old(At()))
    {
      ConsumerMoves(src, trace, View(), Refuse);
      RecordIsDecided(sched, At());
      if sched.granted(tick) { StartLookup(sched, i); } else { Advance(Refuse); }
    }

    method TakeResult() returns (served: bool)
      requires Enabled(View(), Receive)
      modifies this`findPeersResult, this`lookups, this`current, this`out, this`pc
      ensures View() == Apply(old(View()), Receive)
      ensures served == pc.Ready?
      ensures served ==> |out| > 0 && current == Some(out[|out| - 1])
    {
      var result := findPeersResult[0];
      findPeersResult := findPeersResult[1..];
      served := |result.addrs| > 0;
      MoveLookup(result.l, lookups[result.l].pc, if served then Delivered else Discarded, lookups[result.l].found);
      if served {
        current := Some(FromLookup(result.l, result.addrs));
        out := out + [FromLookup(result.l, result.addrs)];
      }
      pc := if served then Ready else AtSource;
    }

    /** Takes a result out of the buffer. True if it has addresses, so that it can be served. */
    method ReceiveResult() returns (served: bool)
      requires Valid() && pc.Waiting? && findPeersResult != []
      modifies this
      ensures Took(Receive)
      ensures served == pc.Ready?
      ensures !served ==> Outstanding(View()) < old(Outstanding(View()))
      ensures served ==> |out| > 0 && current == Some(out[|out| - 1])
    {
      ConsumerMoves(src, trace, View(), Receive);
      served := TakeResult();
      trace := trace + [Receive];
    }

    /** What the client sees of one time around the loop. */
    twostate predicate Ends(r: Round)
      reads this
    {
      match r
      case Serve => pc.Ready? && current.Some? && out == old(out) + [current.value]
      case Stop => out == old(out) && ((pc == Ended(true) && canceled) || (pc == Ended(false) && ongoingLookups == 0))
      case _ => out == old(out) && pc.AtSource?
    }

    /** Blocked in `select`: a result, the end of the context, or the timer. */
    method Wait(sched: Schedule) returns (r: Round)
      requires Valid() && pc.Waiting?
      modifies this
      ensures Valid() && old(trace) <= trace && pos == old(pos) && expiries == old(expiries) + One(r == Expired)
      ensures Ends(r)
      ensures r == Retry ==> Outstanding(View()) < old(Outstanding(View()))
      ensures r == Expired ==> Outstanding(View()) <= old(Outstanding(View()))
      ensures At() == Waited(sched, old(At()))
      ensures old(sched.wake(tick)) == Result && old(findPeersResult) != [] ==> findPeersResult == old(findPeersResult)[1..]
    {
      var wake := sched.wake(tick);
      if wake == Result && |findPeersResult| > 0 {
        var served := ReceiveResult();
        return if served then Serve else Retry;
      }
      if wake == CtxDone && canceled {
        Advance(SeeDone);
        return Stop;
      }
      Advance(Timer);
      return Expired;
    }

    /** The source is exhausted: waits for one lookup, if any is running. */
    method AwaitLookup(sched: Schedule) returns (r: Round)
      requires Valid() && pc.Checking?
      modifies this
      ensures Valid() && old(trace) <= trace && pos == old(pos) && expiries == old(expiries) + One(r == Expired)
      ensures Ends(r) && (old(ongoingLookups) == 0 ==> r == Stop)
      ensures r == Retry ==> Outstanding(View()) < old(Outstanding(View()))
      ensures r == Expired ==> Outstanding(View()) <= old(Outstanding(View()))
      ensures At() == Awaited(sched, old(At()))
    {
      Advance(Load);
      if ongoingLookups == 0 { return Stop; }
      Others(sched);
      r := Wait(sched);
    }

    method Look(sched: Schedule) returns (served: bool)
      requires Valid() && pc.AtSource?
      modifies this
      ensures Valid() && old(trace) <= trace && expiries == old(expiries)
      ensures served ==> Ends(Serve)
      ensures At() == Looked(sched, old(At())) && served == pc.Ready?
      ensures Finished(old(View())) ==> !served && Finished(View())
      ensures !served && old(pos) < |src| ==> pc == Gate(old(pos)) && pos == old(pos) + 1 && out == old(out)
      ensures !served && old(pos) >= |src| ==> pc.Checking? && pos == old(pos) && out == old(out) && Outstanding(View()) <= old(Outstanding(View()))
    {
      Others(sched);
      SourceMoves(src, trace, View(), sched.cached(tick));
      served := PullSource(sched.cached(tick));
    }

    /** Once around the loop. */
    method Turn(sched: Schedule) returns (r: Round)
      requires Valid() && pc.AtSource?
      modifies this
      ensures Valid() && old(trace) <= trace && expiries == old(expiries) + One(r == Expired) && Ends(r)
      ensures Finished(old(View())) ==> r == Stop
      ensures At() == Turned(sched, old(At()))
      ensures r == Retry || r == Expired ==>
        || (r == Retry && old(pos) < pos <= |src|)
        || (pos == old(pos) && Outstanding(View()) <= old(Outstanding(View())) && (r == Retry ==> Outstanding(View()) < old(Outstanding(View()))))
    {
      var i := pos;
      var served := Look(sched);
      if served { return Serve; }
      Others(sched);
      if i < |src| {
        Dispatch(sched, i);
        return Retry;
      }
      r := AwaitLookup(sched);
    }

    /** One more turn of a call that began at `start`. */
    method NextTurn(sched: Schedule, ghost start: Moment, ghost path: seq<Moment>) returns (r: Round)
      requires Valid() && pc.AtSource? && ByTurns(sched, path, start, At()) && ReadSince(sched, start, At(), 0)
      modifies this
      ensures Valid() && old(trace) <= trace && expiries == old(expiries) + One(r == Expired) && Ends(r)
      ensures Finished(old(View())) ==> r == Stop
      ensures r == Retry || r == Expired ==>
        || (r == Retry && old(pos) < pos <= |src|)
        || (pos == old(pos) && Outstanding(View()) <= old(Outstanding(View())) && (r == Retry ==> Outstanding(View()) < old(Outstanding(View()))))
      ensures ByTurns(sched, path + [At()], start, At())
      ensures if r == Serve then Served(sched, start, At(), current.value) else ReadSince(sched, start, At(), 0)
      ensures r == Stop && pc == Ended(false) ==> AllSettled(View())
      ensures old(CacheHelps(sched, At())) ==>
                r == Serve && current.value == FromSource(old(pos), Peer(sched.cached(old(tick) + 1)))
    {
      ghost var m := At();
      ReadOn(src, trace, sched, start, m);
      TurnServes(src, trace, sched, m);
      TurnExtends(sched, path, start, m);
      r := Turn(sched);
      if r == Serve { DeliveredIsGenuine(src, trace, View(), |out| - 1); }
      if r == Stop && pc == Ended(false) { EndSettles(src, trace, View()); }
    }

    /** The call enters the loop. */
    method Enter()
      requires Valid() && (pc.Ready? || pc.Ended?)
      modifies this
      ensures Took(CallNext) && pc.AtSource? && At() == Did(old(At()), CallNext)
      ensures pos <= |src| && |seen| == pos
      ensures old(pc) == Ended(false) ==> Finished(View())
    {
      CallsAgainFinished(src, trace, View());
      Advance(CallNext);
      AtSourceIsReady(src, trace, View());
    }

    /** The loop of Next, entered at `start`. */
    method Loop(sched: Schedule, patience: nat) returns (r: NextResult)
      requires Valid() && pc.AtSource? && pos <= |src| && |seen| == pos
      modifies this
      ensures Valid() && old(trace) <= trace
      ensures r == Returned(true) ==>
                pc.Ready? && current.Some? && out == old(out) + [current.value] && Served(sched, old(At()), At(), current.value)
      ensures r == Returned(false) ==> out == old(out) && ((pc == Ended(true) && canceled) || (pc == Ended(false) && AllSettled(View())))
      ensures r == StillWaiting ==> out == old(out) && pc.AtSource? && expiries == old(expiries) + patience + 1
      ensures old(Finished(View())) ==> r == Returned(false)
      ensures r != Returned(true) ==> ReadSince(sched, old(At()), At(), 0)
      ensures old(CacheHelps(sched, At())) ==>
                r == Returned(true) && current == Some(FromSource(old(pos), Peer(sched.cached(old(tick) + 1))))
      ensures exists path :: ByTurns(sched, path, old(At()), At())
    {
      var left: nat := patience;
      ghost var start, path := At(), [At()];
      while true
        invariant Valid() && pc.AtSource? && old(trace) <= trace && out == old(out) && pos <= |src|
        invariant left <= patience && expiries == old(expiries) + patience - left
        invariant old(Finished(View())) ==> |path| == 1
        invariant ByTurns(sched, path, start, At()) && ReadSince(sched, start, At(), 0)
        invariant |path| == 1 || !CacheHelps(sched, start)
        decreases left, |src| - pos, Outstanding(View())
      {
        var round := NextTurn(sched, start, path);
        path := path + [At()];
        match round
        case Serve => return Returned(true);
        case Stop => return Returned(false);
        case Retry =>
        case Expired =>
          if left == 0 { return StillWaiting; }
          left := left - 1;
      }
    }

    /** The next record to serve. It comes to an end whatever the lookups do and however dispatches are
        refused, unless the timer goes off more often than `patience` allows. What it serves is a record
        of the source, completed from the cache as it is at that tick, or what a lookup found, and no
        record is passed over that it could have served. Once it has returned false with nothing running,
        it does so again. */
    method Next(sched: Schedule, patience: nat) returns (r: NextResult)
      requires Valid() && (pc.Ready? || pc.Ended?)
      modifies this
      ensures Valid() && old(trace) <= trace
      ensures r == Returned(true) ==>
                pc.Ready? && current.Some? && out == old(out) + [current.value] && Served(sched, old(At()), At(), current.value)
      ensures r == Returned(false) ==> out == old(out) && ((pc == Ended(true) && canceled) || (pc == Ended(false) && AllSettled(View())))
      ensures r == StillWaiting ==> out == old(out) && pc.AtSource? && expiries == old(expiries) + patience + 1
      ensures old(pc) == Ended(false) ==> r == Returned(false)
      ensures r != Returned(true) ==> ReadSince(sched, old(At()), At(), 0)
      ensures old(CacheHelps(sched, At())) ==>
                r == Returned(true) && current == Some(FromSource(old(pos), Peer(sched.cached(old(tick) + 1))))
      ensures exists path :: ByTurns(sched, path, Did(old(At()), CallNext), At())
    {
      Enter();
      r := Loop(sched, patience);
    }
  }
}
