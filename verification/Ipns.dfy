/** The first valid IPNS record of several routers that answer in any order. */
module Ipns {
  import opened Multiaddrs

  datatype ValidityType = EOL | OtherValidity

  /** `validityType` and `validity` are None where the record does not let them be read. */
  datatype IpnsRecord = IpnsRecord(validityType: Option<ValidityType>, validity: Option<int>, payload: string)

  datatype Error = ErrNotFound | ErrNotSupported | ErrOther(message: string)

  /** What a router returns: a record, possibly nil, or an error. */
  datatype Outcome = Value(rec: Option<IpnsRecord>) | Fails(error: Error)

  /** What the caller gets. `Joined` lists the errors in the order they came in. */
  datatype Result = Served(rec: Option<IpnsRecord>) | NotFound | Joined(errors: seq<Error>) | Single(error: Error) | ContextDone

  /** What `select` hands the loop: the answer of one more router, or the end of the context. */
  datatype Arrival = Answer(outcome: Outcome, ctxDone: bool) | Done

  predicate Expired(rec: Option<IpnsRecord>, now: int) {
    && rec.Some?
    && rec.value.validityType == Some(EOL)
    && rec.value.validity.Some?
    && now > rec.value.validity.value
  }

  predicate Missing(o: Outcome, now: int) {
    match o
    case Value(rec) => Expired(rec, now)
    case Fails(e) => e == ErrNotFound || e == ErrNotSupported
  }

  predicate Good(o: Outcome, now: int) {
    o.Value? && !Expired(o.rec, now)
  }

  /** A nil record, one that does not end at a time, one whose end cannot be read, or one whose end has
      not passed: the last nanosecond counts. */
  predicate Usable(rec: Option<IpnsRecord>, now: int) {
    || rec.None?
    || rec.value.validityType != Some(EOL)
    || rec.value.validity.None?
    || now <= rec.value.validity.value
  }

  /** "Not found", "not supported", or a record whose end has passed. */
  predicate NothingToServe(o: Outcome, now: int) {
    || o == Fails(ErrNotFound) || o == Fails(ErrNotSupported)
    || (o.Value? && o.rec.Some? && o.rec.value.validityType == Some(EOL) && o.rec.value.validity.Some?
        && o.rec.value.validity.value < now)
  }

  lemma ExpiredIsNotUsable(o: Outcome, now: int)
    ensures o.Value? ==> (Expired(o.rec, now) <==> !Usable(o.rec, now))
    ensures Good(o, now) <==> o.Value? && Usable(o.rec, now)
    ensures Missing(o, now) <==> NothingToServe(o, now)
  {
  }

  /** What the loop does with the answers that are still to come, having collected `errs`. */
  function Select(arrivals: seq<Arrival>, errs: seq<Error>, now: int): Result {
    if arrivals == [] then (if errs == [] then NotFound else Joined(errs))
    else if arrivals[0].Done? then ContextDone
    else
      var o := arrivals[0].outcome;
      if Good(o, now) then Served(o.rec)
      else if Missing(o, now) then Select(arrivals[1..], errs, now)
      else if arrivals[0].ctxDone then ContextDone
      else Select(arrivals[1..], errs + [o.error], now)
  }

  // ---- Under a live context ----

  /** The answers of all routers, in the order in which they come in. */
  function Live(outcomes: seq<Outcome>): seq<Arrival> {
    seq(|outcomes|, k requires 0 <= k < |outcomes| => Answer(outcomes[k], false))
  }

  function ErrorsOf(outcomes: seq<Outcome>, now: int): multiset<Error> {
    if outcomes == [] then multiset{}
    else ErrorsOf(outcomes[1..], now) + if outcomes[0].Fails? && !Missing(outcomes[0], now) then multiset{outcomes[0].error} else multiset{}
  }

  lemma {:induction false} SelectLive(outcomes: seq<Outcome>, errs: seq<Error>, now: int)
    ensures var r := Select(Live(outcomes), errs, now);
      && (r.Served? <==> exists o | o in outcomes :: Good(o, now))
      && (r.Served? ==> exists o | o in outcomes :: Good(o, now) && r.rec == o.rec)
      && (r == NotFound <==> errs == [] && forall o | o in outcomes :: Missing(o, now))
      && (r.Joined? ==> multiset(r.errors) == multiset(errs) + ErrorsOf(outcomes, now))
      && (r.Served? || r.NotFound? || r.Joined?)
  {
    if outcomes != [] {
      var o := outcomes[0];
      assert outcomes == [o] + outcomes[1..];
      assert Live(outcomes)[1..] == Live(outcomes[1..]);
      if !Good(o, now) {
        SelectLive(outcomes[1..], if Missing(o, now) then errs else errs + [o.error], now);
      }
    }
  }

  lemma {:induction false} ErrorsCount(outcomes: seq<Outcome>, now: int, e: Error)
    ensures ErrorsOf(outcomes, now)[e] == if Missing(Fails(e), now) then 0 else multiset(outcomes)[Fails(e)]
  {
    if outcomes != [] {
      ErrorsCount(outcomes[1..], now, e);
      assert outcomes == [outcomes[0]] + outcomes[1..];
    }
  }

  lemma ErrorsOfPermutation(a: seq<Outcome>, b: seq<Outcome>, now: int)
    requires multiset(a) == multiset(b)
    ensures ErrorsOf(a, now) == ErrorsOf(b, now)
  {
    forall e ensures ErrorsOf(a, now)[e] == ErrorsOf(b, now)[e] {
      ErrorsCount(a, now, e);
      ErrorsCount(b, now, e);
    }
  }

  /** The same answer whatever the order: a record exactly when some router gave one that has not
      expired, and then one of those; "not found" exactly when every outcome is a missing or expired
      record; otherwise the errors of all routers. */
  lemma OrderDoesNotMatter(a: seq<Outcome>, b: seq<Outcome>, now: int)
    requires multiset(a) == multiset(b)
    ensures var r, q := Select(Live(a), [], now), Select(Live(b), [], now);
      && (r.Served? <==> exists o | o in a :: Good(o, now))
      && (r.Served? ==> exists o | o in a :: Good(o, now) && r.rec == o.rec)
      && (r == NotFound <==> forall o | o in a :: Missing(o, now))
      && (r.Joined? ==> multiset(r.errors) == ErrorsOf(a, now))
      && (r.Served? <==> q.Served?) && (r.NotFound? <==> q.NotFound?) && (r.Joined? <==> q.Joined?)
      && (r.Joined? ==> multiset(r.errors) == multiset(q.errors))
  {
    SelectLive(a, [], now);
    SelectLive(b, [], now);
    ErrorsOfPermutation(a, b, now);
    assert forall o :: o in a <==> o in multiset(a);
    assert forall o :: o in b <==> o in multiset(b);
  }

  /** What the routers answered, as far as the loop gets to see it. */
  function Answers(arrivals: seq<Arrival>): seq<Outcome> {
    if arrivals == [] then []
    else (if arrivals[0].Answer? then [arrivals[0].outcome] else []) + Answers(arrivals[1..])
  }

  /** The context outlives every answer. */
  predicate AllLive(arrivals: seq<Arrival>) {
    forall a | a in arrivals :: a.Answer? && !a.ctxDone
  }

  lemma {:induction false} LiveAnswers(arrivals: seq<Arrival>)
    requires AllLive(arrivals)
    ensures arrivals == Live(Answers(arrivals))
  {
    if arrivals != [] {
      LiveAnswers(arrivals[1..]);
      assert arrivals == [arrivals[0]] + arrivals[1..];
      assert Live(Answers(arrivals))[1..] == Live(Answers(arrivals[1..]));
    }
  }

  /** As many answers as routers, each from a router of its own, are the answers of all of them. */
  lemma AllAnswered(arrivals: seq<Arrival>, routers: seq<Outcome>)
    requires |Answers(arrivals)| == |routers| && multiset(Answers(arrivals)) <= multiset(routers)
    ensures multiset(Answers(arrivals)) == multiset(routers)
  {
    var rest := multiset(routers) - multiset(Answers(arrivals));
    assert multiset(routers) == multiset(Answers(arrivals)) + rest;
    assert |rest| == 0;
  }

  lemma {:induction false} ServedWasAnswered(arrivals: seq<Arrival>, errs: seq<Error>, now: int)
    ensures var r := Select(arrivals, errs, now);
      r.Served? ==> Good(Value(r.rec), now) && Value(r.rec) in Answers(arrivals)
  {
    if arrivals != [] && arrivals[0].Answer? {
      var o := arrivals[0].outcome;
      if !Good(o, now) { ServedWasAnswered(arrivals[1..], if Missing(o, now) then errs else errs + [o.error], now); }
    }
  }

  lemma AnswersOfRouters(arrivals: seq<Arrival>, routers: seq<Outcome>)
    requires multiset(Answers(arrivals)) <= multiset(routers)
    ensures forall o | o in Answers(arrivals) :: o in routers
  {
    forall o | o in Answers(arrivals) ensures o in routers {
      assert multiset(Answers(arrivals))[o] > 0;
    }
  }

  /** The answer the routers' outcomes call for, in whatever order they come. */
  ghost predicate Decided(r: Result, routers: seq<Outcome>, now: int) {
    && (r.Served? <==> exists o | o in routers :: Good(o, now))
    && (r.Served? ==> Good(Value(r.rec), now) && Value(r.rec) in routers)
    && (r == NotFound <==> forall o | o in routers :: Missing(o, now))
    && (r.Joined? ==> multiset(r.errors) == ErrorsOf(routers, now))
    && (r.Served? || r.NotFound? || r.Joined?)
  }

  lemma LiveSelectsFromRouters(arrivals: seq<Arrival>, routers: seq<Outcome>, now: int)
    requires |arrivals| == |routers| && multiset(Answers(arrivals)) <= multiset(routers) && AllLive(arrivals)
    ensures Decided(Select(arrivals, [], now), routers, now)
  {
    LiveAnswers(arrivals);
    AllAnswered(arrivals, routers);
    SelectLive(Answers(arrivals), [], now);
    ServedWasAnswered(arrivals, [], now);
    ErrorsOfPermutation(Answers(arrivals), routers, now);
    AnswersOfRouters(arrivals, routers);
    forall o | o in routers ensures o in Answers(arrivals) { assert multiset(routers)[o] > 0; }
  }

  /** The loop of GetIpns. */
  method SelectFirst(arrivals: seq<Arrival>, now: int) returns (r: Result)
    ensures r == Select(arrivals, [], now)
  {
    var errs: seq<Error> := [];
    for i := 0 to |arrivals|
      invariant Select(arrivals, [], now) == Select(arrivals[i..], errs, now)
    {
      assert arrivals[i..][0] == arrivals[i] && arrivals[i..][1..] == arrivals[i + 1..];
      match arrivals[i]
      case Done => return ContextDone;
      case Answer(outcome, ctxDone) =>
        match outcome
        case Value(rec) =>
          if Expired(rec, now) { continue; }
          return Served(rec);
        case Fails(e) =>
          if e == ErrNotFound || e == ErrNotSupported { continue; }
          if ctxDone { return ContextDone; }
          errs := errs + [e];
    }
    r := if errs == [] then NotFound else Joined(errs);
  }

  /** The errors worth reporting, in the order the answers come in. */
  function ErrorList(outcomes: seq<Outcome>): seq<Error> {
    if outcomes == [] then []
    else
      var o := outcomes[0];
      (if o.Fails? && o.error != ErrNotFound && o.error != ErrNotSupported then [o.error] else []) + ErrorList(outcomes[1..])
  }

  lemma {:induction false} ErrorsComeInOrder(outcomes: seq<Outcome>, errs: seq<Error>, now: int)
    ensures var r := Select(Live(outcomes), errs, now); r.Joined? ==> r.errors == errs + ErrorList(outcomes)
  {
    if outcomes != [] {
      var o := outcomes[0];
      assert Live(outcomes)[1..] == Live(outcomes[1..]);
      if !Good(o, now) {
        ErrorsComeInOrder(outcomes[1..], if Missing(o, now) then errs else errs + [o.error], now);
      }
    }
  }

  /** The context ends the wait: if it is over before any answer that can be served, or found over when an
      error comes in, the caller gets the end of the context. */
  lemma {:induction false} ContextEndsTheWait(before: seq<Outcome>, end: Arrival, rest: seq<Arrival>, errs: seq<Error>, now: int)
    requires forall o | o in before :: o.Value? ==> !Usable(o.rec, now)
    requires end.Done? || (end.ctxDone && end.outcome.Fails? && end.outcome.error != ErrNotFound && end.outcome.error != ErrNotSupported)
    ensures Select(Live(before) + [end] + rest, errs, now) == ContextDone
    decreases |before|
  {
    if before == [] {
      assert Live(before) + [end] + rest == [end] + rest;
    } else {
      var o := before[0];
      ExpiredIsNotUsable(o, now);
      assert (Live(before) + [end] + rest)[1..] == Live(before[1..]) + [end] + rest;
      ContextEndsTheWait(before[1..], end, rest, if Missing(o, now) then errs else errs + [o.error], now);
    }
  }

  lemma DecidedMeans(r: Result, routers: seq<Outcome>, now: int)
    requires Decided(r, routers, now)
    ensures r == NotFound <==> forall o | o in routers :: NothingToServe(o, now)
    ensures r.Served? <==> exists o | o in routers :: o.Value? && Usable(o.rec, now)
  {
    forall o | o in routers
      ensures Good(o, now) <==> o.Value? && Usable(o.rec, now)
      ensures Missing(o, now) <==> NothingToServe(o, now)
    {
      ExpiredIsNotUsable(o, now);
    }
  }

  /** `routers` are the answers the routers will give, `arrivals` what the loop gets to see of them:
      answers of different routers, in any order, or the end of the context. */
  method GetIpns(routers: seq<Outcome>, arrivals: seq<Arrival>, now: int) returns (r: Result)
    requires |arrivals| == |routers| && multiset(Answers(arrivals)) <= multiset(routers)
    ensures |routers| == 0 ==> r == NotFound
    ensures |routers| == 1 && routers[0].Fails? ==> r == Single(routers[0].error)
    ensures |routers| == 1 && routers[0].Value? ==> r == if Expired(routers[0].rec, now) then NotFound else Served(routers[0].rec)
    ensures |routers| >= 2 ==> r == Select(arrivals, [], now)
    ensures |routers| >= 2 && AllLive(arrivals) ==> Decided(r, routers, now)
    ensures |routers| >= 2 && AllLive(arrivals) && r.Joined? ==> r.errors == ErrorList(Answers(arrivals))
    ensures r.Served? ==> Value(r.rec) in routers
    ensures r.Served? && r.rec.Some? && r.rec.value.validityType == Some(EOL) && r.rec.value.validity.Some? ==>
              now <= r.rec.value.validity.value
    ensures |routers| == 1 && routers[0].Value? && Usable(routers[0].rec, now) ==> r == Served(routers[0].rec)
    ensures |routers| >= 2 && AllLive(arrivals) ==> (r == NotFound <==> forall o | o in routers :: NothingToServe(o, now))
    ensures |routers| >= 2 && AllLive(arrivals) ==>
              (r.Served? <==> exists o | o in routers :: o.Value? && Usable(o.rec, now))
  {
    if |routers| == 0 { return NotFound; }
    if |routers| == 1 {
      if routers[0].Fails? { return Single(routers[0].error); }
      ExpiredIsNotUsable(routers[0], now);
      if Expired(routers[0].rec, now) { return NotFound; }
      return Served(routers[0].rec);
    }
    ServedWasAnswered(arrivals, [], now);
    AnswersOfRouters(arrivals, routers);
    r := SelectFirst(arrivals, now);
    if r.Served? { ExpiredIsNotUsable(Value(r.rec), now); }
    if AllLive(arrivals) {
      LiveSelectsFromRouters(arrivals, routers, now);
      DecidedMeans(r, routers, now);
      LiveAnswers(arrivals);
      ErrorsComeInOrder(Answers(arrivals), [], now);
    }
  }
}
