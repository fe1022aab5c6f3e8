/** The lookup protocol: any number of requests, queries that run detached from them, one flight per
    name, an LRU that may drop anything, and a clock. One step per atomic action. */
module SingleFlight {
  import opened Multiaddrs
  import opened DnsCache

  /** Where a context came from. A query gets the context of the request that started it, its
      cancellation severed, under a timeout. */
  datatype Ctx = OfRequest(r: nat) | WithoutCancel(parent: Ctx) | WithTimeout(parent: Ctx, deadline: int)

  datatype CtxErr = NoErr | ErrCanceled | ErrDeadline

  datatype RequestPc =
    | Start
    | Hit(entry: CacheEntry, at: int)
    | Missed
    | Waiting(call: nat)
    | Got(entry: CacheEntry)
    | Gone

  datatype Request = Request(key: string, canceled: bool, pc: RequestPc)

  datatype CallPc =
    | Spawned
    | Querying(ctx: Ctx)
    | Returned(outcome: Outcome)
    | Stored(entry: CacheEntry)
    | Finished(entry: CacheEntry)

  datatype Call = Call(key: string, starter: nat, pc: CallPc)

  /** What DNS said about a name, and when. */
  datatype Fact = Fact(key: string, outcome: Outcome, at: int)

  /** `group` maps a name to the flight others may join; `facts` is everything DNS ever said. */
  datatype State = State(
    now: int,
    cache: Cache,
    group: map<string, nat>,
    calls: seq<Call>,
    requests: seq<Request>,
    facts: set<Fact>)

  function Err(s: State, ctx: Ctx): CtxErr {
    match ctx
    case OfRequest(r) => if r < |s.requests| && s.requests[r].canceled then ErrCanceled else NoErr
    case WithoutCancel(_) => NoErr
    case WithTimeout(parent, deadline) =>
      if Err(s, parent) != NoErr then Err(s, parent) else if deadline <= s.now then ErrDeadline else NoErr
  }

  // ---- Steps ----

  datatype Step =
    | Tick(to: int)
    | Evict(key: string)
    | Arrive(key: string)
    | Cancel(r: nat)
    | CacheGet(r: nat)
    | GiveUp(r: nat)
    | DoChan(r: nat)
    | Receive(r: nat)
    | Leave(r: nat)
    | Begin(c: nat)
    | Answers(c: nat, outcome: Outcome)
    | Store(c: nat)
    | Finish(c: nat)

  function SetRequest(s: State, r: nat, pc: RequestPc): State
    requires r < |s.requests|
  {
    s.(requests := s.requests[r := s.requests[r].(pc := pc)])
  }

  function SetCall(s: State, c: nat, pc: CallPc): State
    requires c < |s.calls|
  {
    s.(calls := s.calls[c := s.calls[c].(pc := pc)])
  }

  /** A resolver that is told to stop reports why; left alone it answers or fails for good. */
  predicate DnsMay(s: State, ctx: Ctx, outcome: Outcome) {
    match outcome
    case Answer(_) => true
    case HardFailure => true
    case TimedOut => Err(s, ctx) == ErrDeadline
    case Canceled => Err(s, ctx) == ErrCanceled
  }

  predicate Enabled(s: State, step: Step) {
    match step
    case Tick(to) => s.now <= to
    case Evict(key) => key in s.cache
    case Arrive(_) => true
    case Cancel(r) => r < |s.requests|
    case CacheGet(r) => r < |s.requests| && s.requests[r].pc.Start?
    case GiveUp(r) => r < |s.requests| && s.requests[r].pc.Missed?
    case DoChan(r) => r < |s.requests| && s.requests[r].pc.Missed?
    case Receive(r) => r < |s.requests| && s.requests[r].pc.Waiting? && s.requests[r].pc.call < |s.calls|
                       && s.calls[s.requests[r].pc.call].pc.Finished?
    case Leave(r) => r < |s.requests| && s.requests[r].pc.Waiting? && s.requests[r].canceled
    case Begin(c) => c < |s.calls| && s.calls[c].pc.Spawned?
    case Answers(c, outcome) => c < |s.calls| && s.calls[c].pc.Querying? && DnsMay(s, s.calls[c].pc.ctx, outcome)
    case Store(c) => c < |s.calls| && s.calls[c].pc.Returned?
    case Finish(c) => c < |s.calls| && s.calls[c].pc.Stored?
  }

  function Apply(s: State, step: Step): State
    requires Enabled(s, step)
  {
    match step
    case Tick(to) => s.(now := to)
    case Evict(key) => s.(cache := s.cache - {key})
    case Arrive(key) => s.(requests := s.requests + [Request(key, false, Start)])
    case Cancel(r) => s.(requests := s.requests[r := s.requests[r].(canceled := true)])
    case CacheGet(r) =>
      var key := s.requests[r].key;
      SetRequest(s, r, if key in s.cache && s.now < s.cache[key].expires then Hit(s.cache[key], s.now) else Missed)
    case GiveUp(r) => SetRequest(s, r, Gone)
    case DoChan(r) =>
      var key := s.requests[r].key;
      if key in s.group then SetRequest(s, r, Waiting(s.group[key]))
      else
        SetRequest(s, r, Waiting(|s.calls|)).(
          group := s.group[key := |s.calls|],
          calls := s.calls + [Call(key, r, Spawned)])
    case Receive(r) => SetRequest(s, r, Got(s.calls[s.requests[r].pc.call].pc.entry))
    case Leave(r) => SetRequest(s, r, Gone)
    case Begin(c) =>
      SetCall(s, c, Querying(WithTimeout(WithoutCancel(OfRequest(s.calls[c].starter)), s.now + LOOKUP_TIMEOUT)))
    case Answers(c, outcome) =>
      SetCall(s, c, Returned(outcome)).(facts := s.facts + {Fact(s.calls[c].key, outcome, s.now)})
    case Store(c) =>
      var entry := EntryFor(s.calls[c].pc.outcome, s.now);
      SetCall(s, c, Stored(entry)).(cache := s.cache[s.calls[c].key := entry])
    case Finish(c) => SetCall(s, c, Finished(s.calls[c].pc.entry)).(group := s.group - {s.calls[c].key})
  }

  /** Every interleaving: the states after each prefix of a list of steps. */
  ghost predicate Reaches(s: State, steps: seq<Step>, t: State)
    decreases |steps|
  {
    if steps == [] then s == t
    else Enabled(s, steps[0]) && Reaches(Apply(s, steps[0]), steps[1..], t)
  }

  function Init(now: int): State {
    State(now, map[], map[], [], [], {})
  }

  // ---- The invariant ----

  /** `entry` is what some real DNS outcome for `key` left behind when it was stored at `t`: an answer,
      a failure of the name or a slow nameserver, never somebody's cancellation. */
  ghost predicate StoredFrom(s: State, key: string, entry: CacheEntry, f: Fact, t: int) {
    && f in s.facts && f.key == key && !f.outcome.Canceled?
    && f.at <= t <= s.now && entry == EntryFor(f.outcome, t)
  }

  ghost predicate Real(s: State, key: string, entry: CacheEntry) {
    exists f: Fact, t: int :: StoredFrom(s, key, entry, f, t)
  }

  predicate Running(call: Call) {
    !call.pc.Finished?
  }

  ghost predicate SaidOf(s: State, key: string, outcome: Outcome) {
    exists f | f in s.facts :: f.key == key && f.outcome == outcome && f.at <= s.now
  }

  ghost predicate CallOk(s: State, c: nat)
    requires c < |s.calls|
  {
    var call := s.calls[c];
    && (Running(call) <==> call.key in s.group && s.group[call.key] == c)
    && (call.pc.Querying? ==> call.pc.ctx.WithTimeout? && call.pc.ctx.parent.WithoutCancel?)
    && (call.pc.Returned? ==> !call.pc.outcome.Canceled? && SaidOf(s, call.key, call.pc.outcome))
    && (call.pc.Stored? || call.pc.Finished? ==> Real(s, call.key, call.pc.entry))
  }

  ghost predicate RequestOk(s: State, q: Request) {
    && (q.pc.Waiting? ==> q.pc.call < |s.calls| && s.calls[q.pc.call].key == q.key)
    && (q.pc.Hit? || q.pc.Got? ==> Real(s, q.key, q.pc.entry))
    && (q.pc.Hit? ==> q.pc.at <= s.now && q.pc.at < q.pc.entry.expires)
  }

  ghost predicate Inv(s: State) {
    && (forall k | k in s.cache :: Real(s, k, s.cache[k]))
    && (forall k | k in s.group :: s.group[k] < |s.calls| && s.calls[s.group[k]].key == k)
    && (forall c: nat | c < |s.calls| :: CallOk(s, c))
    && (forall r: nat | r < |s.requests| :: RequestOk(s, s.requests[r]))
  }

  /** What a later state keeps of an earlier one, as far as the invariant looks at it. */
  ghost predicate Later(s: State, t: State) {
    && s.now <= t.now && s.facts <= t.facts && |s.calls| <= |t.calls|
    && forall c: nat | c < |s.calls| :: t.calls[c].key == s.calls[c].key
  }

  lemma RealStays(s: State, t: State, key: string, entry: CacheEntry)
    requires Later(s, t) && Real(s, key, entry)
    ensures Real(t, key, entry)
  {
    var f: Fact, at: int :| StoredFrom(s, key, entry, f, at);
    assert StoredFrom(t, key, entry, f, at);
  }

  lemma RequestStays(s: State, t: State, q: Request)
    requires Later(s, t) && RequestOk(s, q)
    ensures RequestOk(t, q)
  {
    if q.pc.Hit? || q.pc.Got? { RealStays(s, t, q.key, q.pc.entry); }
  }

  ghost predicate Leads(s: State, key: string, c: nat) {
    key in s.group && s.group[key] == c
  }

  lemma CallStays(s: State, t: State, c: nat)
    requires Later(s, t) && c < |s.calls| && CallOk(s, c) && t.calls[c] == s.calls[c]
    requires Leads(s, s.calls[c].key, c) <==> Leads(t, s.calls[c].key, c)
    ensures CallOk(t, c)
  {
    var call := s.calls[c];
    if call.pc.Stored? || call.pc.Finished? { RealStays(s, t, call.key, call.pc.entry); }
  }

  lemma StepIsLater(s: State, step: Step)
    requires Enabled(s, step)
    ensures Later(s, Apply(s, step))
  {
  }

  /** A query under its own timeout, cut off from its request, can time out but not be canceled. */
  lemma SeveredIsNeverCanceled(s: State, ctx: Ctx)
    requires ctx.WithTimeout? && ctx.parent.WithoutCancel?
    ensures Err(s, ctx) != ErrCanceled
    ensures Err(s, ctx) == ErrDeadline <==> ctx.deadline <= s.now
  {
    assert Err(s, ctx.parent) == NoErr;
  }

  // ---- Every step keeps it ----

  lemma QuietStepRequest(s: State, step: Step, r: nat)
    requires Inv(s) && Enabled(s, step) && r < |s.requests|
    requires step.Tick? || step.Evict? || step.Arrive? || step.Cancel? || step.CacheGet? || step.GiveUp?
             || step.Receive? || step.Leave? || (step.DoChan? && s.requests[step.r].key in s.group)
    ensures RequestOk(Apply(s, step), Apply(s, step).requests[r])
  {
    var t := Apply(s, step);
    var q := s.requests[r];
    StepIsLater(s, step);
    RequestStays(s, t, q);
    if step.CacheGet? && step.r == r && q.key in s.cache {
      RealStays(s, t, q.key, s.cache[q.key]);
    } else if step.Receive? && step.r == r {
      assert CallOk(s, q.pc.call);
      RealStays(s, t, q.key, s.calls[q.pc.call].pc.entry);
    }
  }

  /** Steps of the environment and of requests that start no query. */
  lemma QuietStepKeepsInv(s: State, step: Step)
    requires Inv(s) && Enabled(s, step)
    requires step.Tick? || step.Evict? || step.Arrive? || step.Cancel? || step.CacheGet? || step.GiveUp?
             || step.Receive? || step.Leave? || (step.DoChan? && s.requests[step.r].key in s.group)
    ensures Inv(Apply(s, step))
  {
    var t := Apply(s, step);
    assert t.calls == s.calls && t.group == s.group && t.cache.Keys <= s.cache.Keys;
    StepIsLater(s, step);
    forall k | k in t.cache ensures Real(t, k, t.cache[k]) { RealStays(s, t, k, s.cache[k]); }
    forall c: nat | c < |t.calls| ensures CallOk(t, c) { CallStays(s, t, c); }
    forall r: nat | r < |t.requests| ensures RequestOk(t, t.requests[r]) {
      if r < |s.requests| {
        RequestStays(s, t, s.requests[r]);
        QuietStepRequest(s, step, r);
      }
    }
  }

  lemma NewFlightKeepsInv(s: State, r: nat)
    requires Inv(s) && Enabled(s, DoChan(r)) && s.requests[r].key !in s.group
    ensures Inv(Apply(s, DoChan(r)))
  {
    var t := Apply(s, DoChan(r));
    StepIsLater(s, DoChan(r));
    forall k | k in t.cache ensures Real(t, k, t.cache[k]) { RealStays(s, t, k, s.cache[k]); }
    forall c: nat | c < |t.calls| ensures CallOk(t, c) {
      if c < |s.calls| { CallStays(s, t, c); }
    }
    forall q: nat | q < |t.requests| ensures RequestOk(t, t.requests[q]) {
      RequestStays(s, t, s.requests[q]);
    }
  }

  function CallOf(step: Step): nat
    requires step.Begin? || step.Answers? || step.Store? || step.Finish?
  {
    step.c
  }

  lemma MovedCallOk(s: State, step: Step)
    requires Inv(s) && Enabled(s, step)
    requires step.Begin? || step.Answers? || step.Store? || step.Finish?
    ensures var t := Apply(s, step);
      var c := CallOf(step);
      && CallOk(t, c)
      && (step.Store? ==> Real(t, s.calls[c].key, t.cache[s.calls[c].key]))
  {
    var t := Apply(s, step);
    var c := CallOf(step);
    var key := s.calls[c].key;
    StepIsLater(s, step);
    assert CallOk(s, c);
    match step
    case Begin(_) =>
    case Answers(_, outcome) =>
      var f := Fact(key, outcome, s.now);
      assert f in t.facts && f.at <= t.now;
      SeveredIsNeverCanceled(s, s.calls[c].pc.ctx);
    case Store(_) =>
      var outcome := s.calls[c].pc.outcome;
      var f :| f in s.facts && f.key == key && f.outcome == outcome && f.at <= s.now;
      assert StoredFrom(t, key, EntryFor(outcome, s.now), f, s.now);
    case Finish(_) =>
      RealStays(s, t, key, s.calls[c].pc.entry);
  }

  /** Steps of a query. */
  lemma CallStepKeepsInv(s: State, step: Step)
    requires Inv(s) && Enabled(s, step)
    requires step.Begin? || step.Answers? || step.Store? || step.Finish?
    ensures Inv(Apply(s, step))
  {
    var t := Apply(s, step);
    var c := CallOf(step);
    StepIsLater(s, step);
    assert CallOk(s, c);
    MovedCallOk(s, step);
    forall k | k in t.cache ensures Real(t, k, t.cache[k]) {
      if k in s.cache && t.cache[k] == s.cache[k] { RealStays(s, t, k, s.cache[k]); }
    }
    forall d: nat | d < |t.calls| ensures CallOk(t, d) {
      if d != c { CallStays(s, t, d); }
    }
    forall r: nat | r < |t.requests| ensures RequestOk(t, t.requests[r]) {
      RequestStays(s, t, s.requests[r]);
    }
  }

  lemma StepKeepsInv(s: State, step: Step)
    requires Inv(s) && Enabled(s, step)
    ensures Inv(Apply(s, step))
  {
    if step.Begin? || step.Answers? || step.Store? || step.Finish? {
      CallStepKeepsInv(s, step);
    } else if step.DoChan? && s.requests[step.r].key !in s.group {
      NewFlightKeepsInv(s, step.r);
    } else {
      QuietStepKeepsInv(s, step);
    }
  }

  lemma {:induction false} RunKeepsInv(s: State, steps: seq<Step>, t: State)
    requires Inv(s) && Reaches(s, steps, t)
    ensures Inv(t)
    decreases |steps|
  {
    if steps != [] {
      StepKeepsInv(s, steps[0]);
      RunKeepsInv(Apply(s, steps[0]), steps[1..], t);
    }
  }

  // ---- Main results, over every run ----

  /** At most one query per name is in flight. */
  lemma OneQueryPerName(now: int, steps: seq<Step>, t: State, c: nat, d: nat)
    requires Reaches(Init(now), steps, t) && c < |t.calls| && d < |t.calls|
    requires Running(t.calls[c]) && Running(t.calls[d]) && t.calls[c].key == t.calls[d].key
    ensures c == d
  {
    RunKeepsInv(Init(now), steps, t);
    assert CallOk(t, c) && CallOk(t, d);
  }

  /** Every cached entry is a DNS outcome for its own name, never a cancellation. It expires five minutes after it was stored if it is an answer or a timeout, and
      fifteen if it is a hard failure or an empty answer. */
  lemma CacheHoldsRealOutcomes(now: int, steps: seq<Step>, t: State, key: string)
    requires Reaches(Init(now), steps, t) && key in t.cache
    ensures exists f, at: int :: f in t.facts && f.key == key && f.at <= at <= t.now && LeftBy(t.cache[key], f.outcome, at)
  {
    RunKeepsInv(Init(now), steps, t);
    var f: Fact, at: int :| StoredFrom(t, key, t.cache[key], f, at);
    assert f in t.facts && LeftBy(t.cache[key], f.outcome, at);
  }

  /** Looking at the cache is a hit exactly when the name is there and has not expired, and gives the
      entry as it is; only the request that looked is changed. */
  lemma CacheAnswersExactlyWhen(s: State, r: nat)
    requires Enabled(s, CacheGet(r))
    ensures var t := Apply(s, CacheGet(r));
      var key := s.requests[r].key;
      && t.cache == s.cache && t.group == s.group && t.calls == s.calls && t.facts == s.facts
      && (key in s.cache && s.now < s.cache[key].expires ==> t.requests[r].pc == Hit(s.cache[key], s.now))
      && (key in s.cache && s.cache[key].expires <= s.now ==> t.requests[r].pc == Missed)
      && (key !in s.cache ==> t.requests[r].pc == Missed)
  {
  }

  /** A query that DNS keeps waiting times out a second after it began, and not before. */
  lemma TimesOutAfterASecond(s: State, c: nat, later: State)
    requires Enabled(s, Begin(c)) && c < |later.calls| && later.calls[c] == Apply(s, Begin(c)).calls[c]
    ensures Enabled(later, Answers(c, TimedOut)) <==> s.now + 1 <= later.now
  {
    SeveredIsNeverCanceled(later, later.calls[c].pc.ctx);
  }

  /** What a request gets, from the cache or from a flight it joined, is a real outcome for the name it
      asked about, whoever started the query and whether or not that one is still there; what it gets
      from the cache had not expired when it got it. */
  lemma RequestsGetRealOutcomes(now: int, steps: seq<Step>, t: State, r: nat)
    requires Reaches(Init(now), steps, t) && r < |t.requests|
    requires t.requests[r].pc.Hit? || t.requests[r].pc.Got?
    ensures Real(t, t.requests[r].key, t.requests[r].pc.entry)
    ensures t.requests[r].pc.Hit? ==> t.requests[r].pc.at <= t.now && t.requests[r].pc.at < t.requests[r].pc.entry.expires
  {
    RunKeepsInv(Init(now), steps, t);
    assert RequestOk(t, t.requests[r]);
  }

  // ---- No waiter is lost ----

  /** The step that moves a query on, whoever is left to wait for it. */
  function Next(s: State, c: nat): Step
    requires c < |s.calls| && Running(s.calls[c])
  {
    match s.calls[c].pc
    case Spawned => Begin(c)
    case Querying(_) => Answers(c, HardFailure)
    case Returned(_) => Store(c)
    case Stored(_) => Finish(c)
  }

  /** How many steps of its own a query has left. */
  function StepsLeft(pc: CallPc): nat {
    match pc
    case Spawned => 4
    case Querying(_) => 3
    case Returned(_) => 2
    case Stored(_) => 1
    case Finished(_) => 0
  }

  predicate IsOf(step: Step, c: nat) {
    (step.Begin? || step.Answers? || step.Store? || step.Finish?) && CallOf(step) == c
  }

  function OwnSteps(steps: seq<Step>, c: nat): nat {
    if steps == [] then 0 else (if IsOf(steps[0], c) then 1 else 0) + OwnSteps(steps[1..], c)
  }

  lemma FlightMoves(s: State, step: Step, c: nat)
    requires Enabled(s, step) && c < |s.calls|
    ensures c < |Apply(s, step).calls|
    ensures StepsLeft(Apply(s, step).calls[c].pc) == StepsLeft(s.calls[c].pc) - if IsOf(step, c) then 1 else 0
  {
  }

  /** Nothing sets a query back, and each of its own steps takes it one further. */
  lemma {:induction false} FlightCountsDown(s: State, steps: seq<Step>, t: State, c: nat)
    requires Reaches(s, steps, t) && c < |s.calls|
    ensures c < |t.calls| && StepsLeft(t.calls[c].pc) + OwnSteps(steps, c) == StepsLeft(s.calls[c].pc) <= 4
    decreases |steps|
  {
    if steps != [] {
      FlightMoves(s, steps[0], c);
      FlightCountsDown(Apply(s, steps[0]), steps[1..], t, c);
    }
  }

  lemma {:induction false} ReachesOn(s: State, steps: seq<Step>, t: State, more: seq<Step>, u: State)
    requires Reaches(s, steps, t) && Reaches(t, more, u)
    ensures Reaches(s, steps + more, u)
    decreases |steps|
  {
    if steps == [] {
      assert steps + more == more;
    } else {
      ReachesOn(Apply(s, steps[0]), steps[1..], t, more, u);
      assert (steps + more)[1..] == steps[1..] + more;
    }
  }

  /** No waiter is lost: after four steps of the flight it waits for, at most, the result is there to
      receive; whatever else happens meanwhile takes none of them back, and until then the flight is the
      one others join, with a step to take that waits for nobody. */
  lemma WaitersAreServed(now: int, steps: seq<Step>, t: State, r: nat, more: seq<Step>, u: State)
    requires Reaches(Init(now), steps, t) && r < |t.requests| && t.requests[r].pc.Waiting?
    requires Reaches(t, more, u) && r < |u.requests| && u.requests[r].pc == t.requests[r].pc
    ensures var c := t.requests[r].pc.call;
      && c < |t.calls| && c < |u.calls| && u.calls[c].key == u.requests[r].key
      && StepsLeft(u.calls[c].pc) + OwnSteps(more, c) == StepsLeft(t.calls[c].pc) <= 4
      && (StepsLeft(u.calls[c].pc) == 0 ==> Enabled(u, Receive(r)))
      && (StepsLeft(u.calls[c].pc) > 0 ==> Leads(u, u.requests[r].key, c) && Enabled(u, Next(u, c)))
  {
    var c := t.requests[r].pc.call;
    RunKeepsInv(Init(now), steps, t);
    assert RequestOk(t, t.requests[r]);
    FlightCountsDown(t, more, u, c);
    ReachesOn(Init(now), steps, t, more, u);
    RunKeepsInv(Init(now), steps + more, u);
    assert RequestOk(u, u.requests[r]);
    assert CallOk(u, c);
  }

  /** With stable answers, the cache the protocol leaves is one the expansion may rely on. */
  lemma CacheIsConsistent(now: int, steps: seq<Step>, t: State, zone: string -> seq<Multiaddr>)
    requires Reaches(Init(now), steps, t)
    requires forall f | f in t.facts && f.outcome.Answer? :: f.outcome.addrs == zone(f.key)
    ensures Consistent(zone, t.cache)
  {
    forall k | k in t.cache ensures t.cache[k].addrs == if t.cache[k].ok then zone(k) else [] {
      CacheHoldsRealOutcomes(now, steps, t, k);
    }
  }
}
