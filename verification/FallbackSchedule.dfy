/** What the rest of the world does around a call of Next, as a script, and what the call makes of it: one
    turn of its loop as a function of the script, and what that function promises. */
module FallbackSchedule {
  import opened Multiaddrs
  import opened FallbackIter
  import opened FallbackContents
  import opened FallbackCounting
  import opened FallbackDelivery
  import opened FallbackResults
  import opened FallbackRuns

  datatype Wake = Result | CtxDone | TimerFired

  /** What the rest of the world does, by the number of looks the iterator took at it: the steps of the
      lookups and of a cancel since the last one, what the cache holds, whether the backoff gate and the
      slot pool let a lookup start, and which ready case `select` picks. */
  datatype Schedule = Schedule(
    others: nat -> seq<Step>,
    cached: nat -> seq<Multiaddr>,
    granted: nat -> bool,
    wake: nat -> Wake)

  /** An iterator at a tick of the script. */
  datatype Moment = Moment(it: Iter, tick: nat)

  function Try(it: Iter, step: Step): Iter {
    if Enabled(it, step) then Apply(it, step) else it
  }

  /** Whatever of `steps` can happen, in their order; the consumer's own steps are not for others to take. */
  function Play(it: Iter, steps: seq<Step>): Iter
    decreases |steps|
  {
    if steps == [] then it
    else Play(if OfConsumer(steps[0]) then it else Try(it, steps[0]), steps[1..])
  }

  function Played(sched: Schedule, m: Moment): Moment {
    Moment(Play(m.it, sched.others(m.tick)), m.tick + 1)
  }

  function Did(m: Moment, step: Step): Moment {
    m.(it := Try(m.it, step))
  }

  function Looked(sched: Schedule, m: Moment): Moment {
    var m := Played(sched, m);
    Did(m, SourceNext(sched.cached(m.tick)))
  }

  function LookupStarted(sched: Schedule, m: Moment): Moment {
    Did(Played(sched, Did(Played(sched, Did(m, Acquire)), Count)), Spawn)
  }

  function Decided(sched: Schedule, m: Moment): Moment {
    if sched.granted(m.tick) then LookupStarted(sched, m) else Did(m, Refuse)
  }

  /** What `select` does: a result if that is what it picks and there is one, and so on. */
  function Pick(wake: Wake, it: Iter): Step {
    if wake == Result && it.buffer != [] then Receive
    else if wake == CtxDone && it.canceled then SeeDone
    else Timer
  }

  function Waited(sched: Schedule, m: Moment): Moment {
    Did(m, Pick(sched.wake(m.tick), m.it))
  }

  function Awaited(sched: Schedule, m: Moment): Moment {
    var m := Did(m, Load);
    if m.it.pc.Ended? then m else Waited(sched, Played(sched, m))
  }

  /** Once around the loop of Next. */
  function Turned(sched: Schedule, m: Moment): Moment {
    var m := Looked(sched, m);
    if m.it.pc.Ready? then m
    else
      var m := Played(sched, m);
      if m.it.pc.Gate? then Decided(sched, m) else Awaited(sched, m)
  }

  /** `path` goes from `a` to `b` one turn at a time. */
  ghost predicate ByTurns(sched: Schedule, path: seq<Moment>, a: Moment, b: Moment) {
    && path != [] && path[0] == a && path[|path| - 1] == b
    && forall k {:trigger Turned(sched, path[k])} | 0 <= k < |path| - 1 :: path[k + 1] == Turned(sched, path[k])
  }

  lemma TurnExtends(sched: Schedule, path: seq<Moment>, a: Moment, b: Moment)
    requires ByTurns(sched, path, a, b)
    ensures ByTurns(sched, path + [Turned(sched, b)], a, Turned(sched, b))
  {
    var longer := path + [Turned(sched, b)];
    forall k | 0 <= k < |longer| - 1 ensures longer[k + 1] == Turned(sched, longer[k]) {
      if k < |path| - 1 {
        assert longer[k + 1] == path[k + 1] == Turned(sched, path[k]) && longer[k] == path[k];
      }
    }
  }

  // ---- What others leave alone ----

  /** Everything but the lookups, what they sent, the counter and the cancel. */
  predicate OnlyLookupsMoved(it: Iter, t: Iter) {
    && t.src == it.src && t.pos == it.pos && t.pc == it.pc && t.verdicts == it.verdicts && t.seen == it.seen && t.out == it.out
    && |t.lookups| == |it.lookups| && (it.canceled ==> t.canceled)
    && (forall l | 0 <= l < |t.lookups| :: t.lookups[l].i == it.lookups[l].i)
  }

  lemma OtherStepMovesLookups(it: Iter, step: Step)
    requires Enabled(it, step) && !OfConsumer(step)
    ensures OnlyLookupsMoved(it, Apply(it, step))
  {
  }

  lemma {:induction false} PlayMovesLookups(it: Iter, steps: seq<Step>)
    ensures OnlyLookupsMoved(it, Play(it, steps))
    decreases |steps|
  {
    if steps != [] {
      var t := if OfConsumer(steps[0]) then it else Try(it, steps[0]);
      if !OfConsumer(steps[0]) && Enabled(it, steps[0]) { OtherStepMovesLookups(it, steps[0]); }
      PlayMovesLookups(t, steps[1..]);
    }
  }

  lemma PlayFirst(it: Iter, step: Step, steps: seq<Step>)
    ensures OfConsumer(step) || !Enabled(it, step) ==> Play(it, [step] + steps) == Play(it, steps)
    ensures !OfConsumer(step) && Enabled(it, step) ==> Play(it, [step] + steps) == Play(Apply(it, step), steps)
  {
    assert ([step] + steps)[1..] == steps;
  }

  lemma {:induction false} PlayRuns(src: seq<Record>, trace: seq<Step>, it: Iter, steps: seq<Step>) returns (longer: seq<Step>)
    requires Runs(NewIter(src), trace, it)
    ensures Runs(NewIter(src), longer, Play(it, steps))
    decreases |steps|
  {
    if steps == [] { return trace; }
    if !OfConsumer(steps[0]) && Enabled(it, steps[0]) {
      RunsOn(NewIter(src), trace, it, steps[0]);
      longer := PlayRuns(src, trace + [steps[0]], Apply(it, steps[0]), steps[1..]);
    } else {
      longer := PlayRuns(src, trace, it, steps[1..]);
    }
  }

  // ---- What a turn promises ----

  predicate ReadyToRead(it: Iter) {
    it.pc.AtSource? && |it.verdicts| == |it.seen| == it.pos <= |it.src|
  }

  lemma {:induction false} RunsKeepSource(s: Iter, steps: seq<Step>, t: Iter)
    requires Runs(s, steps, t)
    ensures t.src == s.src
    decreases |steps|
  {
    if steps != [] { RunsKeepSource(Apply(s, steps[0]), steps[1..], t); }
  }

  lemma AtSourceIsReady(src: seq<Record>, trace: seq<Step>, it: Iter)
    requires Runs(NewIter(src), trace, it) && it.pc.AtSource?
    ensures ReadyToRead(it) && it.src == src
  {
    IsReachable(src, trace, it);
    var cap, moves, slots :| Reaches(Start(cap), moves, System(cap, slots, [it]));
    DeliveriesInOrder(cap, moves, System(cap, slots, [it]), 0);
    AlongTheRun(src, trace, it);
    GuardsHold(it);
    RunsKeepSource(NewIter(src), trace, it);
  }

  lemma LookReadsTheSource(sched: Schedule, m: Moment)
    requires ReadyToRead(m.it) && m.it.pos < |m.it.src|
    ensures var it, u := m.it, Looked(sched, m);
      var c := sched.cached(m.tick + 1);
      var r := Complete(it.src[it.pos], c);
      && u.tick == m.tick + 1 && u.it.src == it.src && u.it.pos == it.pos + 1 && u.it.seen == it.seen + [c]
      && |u.it.lookups| == |it.lookups| && |u.it.verdicts| == u.it.pos
      && (Servable(r) ==> u.it.pc.Ready? && u.it.out == it.out + [FromSource(it.pos, r)])
      && (!Servable(r) ==> u.it.pc == Gate(it.pos) && u.it.out == it.out)
  {
    PlayMovesLookups(m.it, sched.others(m.tick));
  }

  lemma RecordIsDecided(sched: Schedule, m: Moment)
    requires m.it.pc.Gate? && m.it.pc.i < |m.it.verdicts|
    ensures var it, u := m.it, Decided(sched, m).it;
      && u.pc.AtSource? && u.out == it.out && u.pos == it.pos && u.seen == it.seen && u.src == it.src
      && |u.verdicts| == |it.verdicts| && (it.canceled ==> u.canceled)
      && (sched.granted(m.tick) ==>
            && |u.lookups| == |it.lookups| + 1 && u.lookups[|it.lookups|] == Lookup(it.pc.i, Searching, Pending, [])
            && u.verdicts[it.pc.i] == Dispatched(|it.lookups|))
      && (!sched.granted(m.tick) ==> u.lookups == it.lookups && u.verdicts[it.pc.i] == Skipped)
    ensures Decided(sched, m).tick >= m.tick
  {
    if sched.granted(m.tick) {
      var a := Did(m, Acquire);
      PlayMovesLookups(a.it, sched.others(a.tick));
      var b := Did(Played(sched, a), Count);
      PlayMovesLookups(b.it, sched.others(b.tick));
    }
  }

  /** A turn that finds a record: it is served, with what the cache holds at that tick if it came without
      addresses, and the turn is over; or neither has addresses, and then exactly one lookup is started
      for it if that is granted, and none if it is refused. */
  lemma TurnServesTheSource(sched: Schedule, m: Moment)
    requires ReadyToRead(m.it) && m.it.pos < |m.it.src|
    ensures var it, u := m.it, Turned(sched, m).it;
      var c := sched.cached(m.tick + 1);
      && u.pos == it.pos + 1 && u.seen == it.seen + [c] && u.src == it.src
      && (it.src[it.pos].Other? ==> u.pc.Ready? && u.out == it.out + [FromSource(it.pos, Other)])
      && (it.src[it.pos].Peer? && it.src[it.pos].addrs != [] ==> u.pc.Ready? && u.out == it.out + [FromSource(it.pos, it.src[it.pos])])
      && (it.src[it.pos] == Peer([]) && c != [] ==> u.pc.Ready? && u.out == it.out + [FromSource(it.pos, Peer(c))])
      && (it.src[it.pos] == Peer([]) && c == [] ==>
            && u.pc.AtSource? && u.out == it.out && |u.verdicts| == u.pos
            && (sched.granted(m.tick + 2) ==>
                  && |u.lookups| == |it.lookups| + 1 && u.lookups[|it.lookups|].i == it.pos
                  && u.verdicts[it.pos] == Dispatched(|it.lookups|))
            && (!sched.granted(m.tick + 2) ==> |u.lookups| == |it.lookups| && u.verdicts[it.pos] == Skipped))
    ensures Turned(sched, m).tick > m.tick
  {
    LookReadsTheSource(sched, m);
    var u := Looked(sched, m);
    if u.it.pc.Gate? {
      PlayMovesLookups(u.it, sched.others(u.tick));
      RecordIsDecided(sched, Played(sched, u));
    }
  }

  /** What a turn finds when the source is exhausted and it comes to look at the counter. */
  function AtTheCounter(sched: Schedule, m: Moment): Iter {
    Played(sched, Looked(sched, m)).it
  }

  /** And what it finds if it has to wait, when it wakes up. */
  function OnWaking(sched: Schedule, m: Moment): Iter {
    Play(AtTheCounter(sched, m).(pc := Waiting), sched.others(m.tick + 2))
  }

  lemma CounterKeepsPlace(sched: Schedule, m: Moment)
    requires ReadyToRead(m.it) && m.it.pos == |m.it.src|
    ensures var w := AtTheCounter(sched, m);
      w.pc.Checking? && w.out == m.it.out && w.pos == m.it.pos && w.seen == m.it.seen && w.src == m.it.src && Looked(sched, m).tick == m.tick + 1
  {
    PlayMovesLookups(m.it, sched.others(m.tick));
    var l := Looked(sched, m);
    PlayMovesLookups(l.it, sched.others(l.tick));
  }

  lemma TryRuns(src: seq<Record>, trace: seq<Step>, it: Iter, step: Step) returns (longer: seq<Step>)
    requires Runs(NewIter(src), trace, it)
    ensures Runs(NewIter(src), longer, Try(it, step))
  {
    if Enabled(it, step) {
      RunsOn(NewIter(src), trace, it, step);
      return trace + [step];
    }
    return trace;
  }

  lemma RunsToTheWaking(src: seq<Record>, trace: seq<Step>, it: Iter, x: seq<Step>, a: Step, y: seq<Step>, b: Step, z: seq<Step>)
    returns (longer: seq<Step>)
    requires Runs(NewIter(src), trace, it)
    ensures Runs(NewIter(src), longer, Play(Try(Play(Try(Play(it, x), a), y), b), z))
  {
    longer := PlayRuns(src, trace, it, x);
    longer := TryRuns(src, longer, Play(it, x), a);
    longer := PlayRuns(src, longer, Try(Play(it, x), a), y);
    longer := TryRuns(src, longer, Play(Try(Play(it, x), a), y), b);
    longer := PlayRuns(src, longer, Try(Play(Try(Play(it, x), a), y), b), z);
  }

  lemma BufferedIsRunning(src: seq<Record>, trace: seq<Step>, it: Iter)
    requires Runs(NewIter(src), trace, it)
    ensures it.buffer != [] ==> it.buffer[0].l < |it.lookups|
  {
    AlongTheRun(src, trace, it);
    GuardsHold(it);
  }

  lemma WakingUnfolds(sched: Schedule, m: Moment)
    requires ReadyToRead(m.it) && m.it.pos == |m.it.src| && AtTheCounter(sched, m).ongoing != 0
    ensures OnWaking(sched, m) ==
            Play(Try(Play(Try(Play(m.it, sched.others(m.tick)), SourceNext(sched.cached(m.tick + 1))), sched.others(m.tick + 1)), Load),
                 sched.others(m.tick + 2))
  {
    CounterKeepsPlace(sched, m);
  }

  lemma WokenHasALookup(src: seq<Record>, trace: seq<Step>, sched: Schedule, m: Moment)
    requires Runs(NewIter(src), trace, m.it) && ReadyToRead(m.it) && m.it.pos == |m.it.src| && AtTheCounter(sched, m).ongoing != 0
    ensures var v := OnWaking(sched, m); v.buffer != [] ==> v.buffer[0].l < |v.lookups|
  {
    var longer := RunsToTheWaking(src, trace, m.it, sched.others(m.tick), SourceNext(sched.cached(m.tick + 1)),
                                  sched.others(m.tick + 1), Load, sched.others(m.tick + 2));
    WakingUnfolds(sched, m);
    BufferedIsRunning(src, longer, OnWaking(sched, m));
  }

  lemma WaitedTakesWhatWakesIt(sched: Schedule, m: Moment)
    requires m.it.pc.Waiting? && (m.it.buffer != [] ==> m.it.buffer[0].l < |m.it.lookups|)
    ensures var v, u, woken := m.it, Waited(sched, m).it, sched.wake(m.tick);
      && u.pos == v.pos && u.seen == v.seen && u.src == v.src
      && (woken == Result && v.buffer != [] ==>
            && u.buffer == v.buffer[1..]
            && if v.buffer[0].addrs != [] then u.pc.Ready? && u.out == v.out + [FromLookup(v.buffer[0].l, v.buffer[0].addrs)]
               else u.pc.AtSource? && u.out == v.out)
      && (woken == CtxDone && v.canceled ==> u == v.(pc := Ended(true)))
      && (!(woken == Result && v.buffer != []) && !(woken == CtxDone && v.canceled) ==> u == v.(pc := AtSource))
  {
  }

  lemma TurnedAwaits(sched: Schedule, m: Moment)
    requires ReadyToRead(m.it) && m.it.pos == |m.it.src|
    ensures Turned(sched, m) == Awaited(sched, Moment(AtTheCounter(sched, m), m.tick + 2))
  {
    CounterKeepsPlace(sched, m);
    PlayMovesLookups(m.it, sched.others(m.tick));
  }

  /** A turn that finds the source exhausted: it ends the response if nothing is running; else it takes the
      oldest result if that is what wakes it, and serves it if it has addresses; a done context ends the
      response; and the timer starts the loop over. */
  lemma TurnAwaitsLookups(src: seq<Record>, trace: seq<Step>, sched: Schedule, m: Moment)
    requires Runs(NewIter(src), trace, m.it) && ReadyToRead(m.it) && m.it.pos == |m.it.src|
    ensures var it, u, w := m.it, Turned(sched, m).it, AtTheCounter(sched, m);
      && u.pos == it.pos && u.seen == it.seen && u.src == it.src
      && (w.ongoing == 0 ==> u == w.(pc := Ended(false)) && u.out == it.out)
      && (w.ongoing != 0 ==>
            var v, woken := OnWaking(sched, m), sched.wake(m.tick + 3);
            && v.out == it.out
            && (woken == Result && v.buffer != [] ==>
                  && u.buffer == v.buffer[1..]
                  && if v.buffer[0].addrs != [] then u.pc.Ready? && u.out == it.out + [FromLookup(v.buffer[0].l, v.buffer[0].addrs)]
                     else u.pc.AtSource? && u.out == it.out)
            && (woken == CtxDone && v.canceled ==> u == v.(pc := Ended(true)))
            && (!(woken == Result && v.buffer != []) && !(woken == CtxDone && v.canceled) ==> u == v.(pc := AtSource)))
    ensures Turned(sched, m).tick > m.tick
  {
    CounterKeepsPlace(sched, m);
    TurnedAwaits(sched, m);
    var w := AtTheCounter(sched, m);
    if w.ongoing != 0 {
      WokenHasALookup(src, trace, sched, m);
      PlayMovesLookups(w.(pc := Waiting), sched.others(m.tick + 2));
      WaitedTakesWhatWakesIt(sched, Moment(OnWaking(sched, m), m.tick + 3));
    }
  }

  /** What one turn does to what was read: nothing once the source is exhausted; before that, one record,
      with what the cache holds at that tick. A record that is passed over had no addresses, nor had the
      cache. */
  lemma TurnReads(src: seq<Record>, trace: seq<Step>, sched: Schedule, m: Moment)
    requires Runs(NewIter(src), trace, m.it) && m.it.pc.AtSource?
    ensures ReadyToRead(m.it) && m.it.src == src && Turned(sched, m).tick > m.tick
    ensures var it, u := m.it, Turned(sched, m).it;
      var c := sched.cached(m.tick + 1);
      && |u.seen| == u.pos
      && u.seen == (if it.pos < |src| then it.seen + [c] else it.seen)
      && (it.pos < |src| && u.pc.Ready? ==> u.out == it.out + [FromSource(it.pos, Complete(src[it.pos], c))])
      && (it.pos < |src| && !u.pc.Ready? ==> src[it.pos] == Peer([]) && c == [])
      && (it.pos == |src| && u.pc.Ready? ==> |u.out| == |it.out| + 1 && u.out[|it.out|].FromLookup?)
  {
    AtSourceIsReady(src, trace, m.it);
    if m.it.pos < |src| { TurnServesTheSource(sched, m); } else { TurnAwaitsLookups(src, trace, sched, m); }
  }

  // ---- What a call promises ----

  /** The cache held `c` at some tick after `from`, up to `to`. */
  ghost predicate HeldBetween(sched: Schedule, from: nat, to: nat, c: seq<Multiaddr>) {
    exists t: nat | from < t <= to :: sched.cached(t) == c
  }

  /** From `a` to `b` every record was read with what the cache held at some tick in between, and those
      but the last `served` were passed over: neither they nor the cache had addresses. */
  ghost predicate ReadSince(sched: Schedule, a: Moment, b: Moment, served: nat) {
    && b.it.src == a.it.src && b.it.pos <= |b.it.src|
    && |b.it.seen| == b.it.pos && a.it.seen <= b.it.seen && a.tick <= b.tick
    && (forall i | |a.it.seen| <= i < |b.it.seen| :: HeldBetween(sched, a.tick, b.tick, b.it.seen[i]))
    && (forall i | |a.it.seen| <= i < |b.it.seen| - served :: b.it.src[i] == Peer([]) && b.it.seen[i] == [])
  }

  /** The next record is a peer without addresses, and the cache has some when it is read. */
  predicate CacheHelps(sched: Schedule, m: Moment) {
    m.it.pos < |m.it.src| && m.it.src[m.it.pos] == Peer([]) && sched.cached(m.tick + 1) != []
  }

  /** How many records were read in the turn that served one. */
  function Taken(m: Moment, u: Moment): nat {
    if u.it.pc.Ready? && m.it.pos < u.it.pos then 1 else 0
  }

  lemma TurnKeepsSource(src: seq<Record>, trace: seq<Step>, sched: Schedule, m: Moment)
    requires Runs(NewIter(src), trace, m.it) && ReadyToRead(m.it)
    ensures Turned(sched, m).it.src == m.it.src
    ensures Turned(sched, m).it.pos == if m.it.pos < |m.it.src| then m.it.pos + 1 else m.it.pos
  {
    if m.it.pos < |m.it.src| { TurnServesTheSource(sched, m); } else { TurnAwaitsLookups(src, trace, sched, m); }
  }

  lemma ReadOneMore(sched: Schedule, a: Moment, m: Moment, u: Moment, served: nat)
    requires ReadSince(sched, a, m, 0) && u.it.src == m.it.src && u.tick > m.tick && |u.it.seen| == u.it.pos <= |u.it.src|
    requires u.it.seen == m.it.seen || u.it.seen == m.it.seen + [sched.cached(m.tick + 1)]
    requires u.it.seen != m.it.seen && served == 0 ==> m.it.src[m.it.pos] == Peer([]) && sched.cached(m.tick + 1) == []
    ensures ReadSince(sched, a, u, served)
  {
    forall i | |a.it.seen| <= i < |u.it.seen| ensures HeldBetween(sched, a.tick, u.tick, u.it.seen[i]) {
      if i < |m.it.seen| {
        assert HeldBetween(sched, a.tick, m.tick, m.it.seen[i]);
      } else {
        assert sched.cached(m.tick + 1) == u.it.seen[i];
      }
    }
  }

  /** `d`, served at `b` in a call that began at `a`, is genuine, and if it is a source record it is the last
      one read, and the first one since `a` that could be served. */
  ghost predicate Served(sched: Schedule, a: Moment, b: Moment, d: Delivery) {
    && Genuine(b.it, d)
    && ReadSince(sched, a, b, if d.FromSource? then 1 else 0)
    && (d.FromSource? ==> d.i == b.it.pos - 1)
  }

  lemma ReadOn(src: seq<Record>, trace: seq<Step>, sched: Schedule, a: Moment, m: Moment)
    requires Runs(NewIter(src), trace, m.it) && m.it.pc.AtSource? && ReadSince(sched, a, m, 0)
    ensures ReadSince(sched, a, Turned(sched, m), Taken(m, Turned(sched, m)))
  {
    TurnReads(src, trace, sched, m);
    TurnKeepsSource(src, trace, sched, m);
    ReadOneMore(sched, a, m, Turned(sched, m), Taken(m, Turned(sched, m)));
  }

  /** What the client is served at the end of a turn, when `m` is where the call began if it is the first. */
  lemma TurnServes(src: seq<Record>, trace: seq<Step>, sched: Schedule, m: Moment)
    requires Runs(NewIter(src), trace, m.it) && m.it.pc.AtSource?
    ensures var u := Turned(sched, m);
      && (CacheHelps(sched, m) ==>
            u.it.pc.Ready? && u.it.out == m.it.out + [FromSource(m.it.pos, Peer(sched.cached(m.tick + 1)))])
      && (u.it.pc.Ready? ==>
            && |u.it.out| == |m.it.out| + 1
            && var d := u.it.out[|m.it.out|];
            && Taken(m, u) == (if d.FromSource? then 1 else 0)
            && (d.FromSource? ==>
                  && 0 < u.it.pos == |u.it.seen| <= |u.it.src|
                  && d == FromSource(u.it.pos - 1, Complete(u.it.src[u.it.pos - 1], u.it.seen[u.it.pos - 1]))))
  {
    TurnReads(src, trace, sched, m);
    TurnKeepsSource(src, trace, sched, m);
  }
}
