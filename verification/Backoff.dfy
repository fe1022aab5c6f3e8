/** The probe backoff in 64-bit nanoseconds, and the eviction rule that keeps it exact. */
module Backoff {
  import opened Multiaddrs

  const PEER_PROBE_THRESHOLD: int := 3_600_000_000_000
  const MAX_BACKOFF_DURATION: int := 48 * PEER_PROBE_THRESHOLD
  const TWO_63: int := 0x8000_0000_0000_0000
  const TWO_64: int := 0x1_0000_0000_0000_0000

  /** `lastFailed` is None until a failure is recorded; the zero time is that long ago. */
  datatype PeerState = PeerState(lastConn: Option<int>, lastFailed: Option<int>, failures: nat)

  function Wrap64(x: int): int {
    (x + TWO_63) % TWO_64 - TWO_63
  }

  function Pow2(n: nat): nat {
    if n == 0 then 1 else 2 * Pow2(n - 1)
  }

  /** 1 << n on a 64-bit integer. */
  function ShiftOne(n: nat): int {
    if n >= 64 then 0 else Wrap64(Pow2(n))
  }

  function Min(a: int, b: int): int {
    if a < b then a else b
  }

  function MachineBackoff(failures: nat): int {
    if failures > 0 then Min(Wrap64(PEER_PROBE_THRESHOLD * ShiftOne(failures - 1)), MAX_BACKOFF_DURATION)
    else PEER_PROBE_THRESHOLD
  }

  predicate Elapsed(since: Option<int>, now: int, d: int) {
    since.None? || now - since.value > d
  }

  predicate ShouldProbe(st: Option<PeerState>, now: int) {
    st.None? || Elapsed(st.value.lastFailed, now, MachineBackoff(st.value.failures))
  }

  /** A peer whose last failure is more than the maximum backoff old is given up. */
  predicate Evicts(st: Option<PeerState>, now: int) {
    st.Some? && st.value.failures > 1 && Elapsed(st.value.lastFailed, now, MAX_BACKOFF_DURATION)
  }

  function RecordFailure(st: Option<PeerState>, now: int): Option<PeerState> {
    if Evicts(st, now) then None
    else
      var p := if st.Some? then st.value else PeerState(None, None, 0);
      Some(p.(lastFailed := Some(now), failures := p.failures + 1))
  }

  function RecordIdentify(st: Option<PeerState>, now: int): Option<PeerState> {
    Some(PeerState(Some(now), None, 0))
  }

  // ---- What the arithmetic promises ----

  /** The documented backoff: it doubles from an hour and stops at 48. */
  function IdealBackoff(failures: nat): int
    requires failures >= 1
  {
    Min(PEER_PROBE_THRESHOLD * Pow2(failures - 1), MAX_BACKOFF_DURATION)
  }

  lemma {:induction false} Pow2Grows(a: nat, b: nat)
    requires a <= b
    ensures 1 <= Pow2(a) <= Pow2(b)
    decreases b
  {
    if a < b { Pow2Grows(a, b - 1); } else if a > 0 { Pow2Grows(a - 1, b - 1); }
  }

  lemma IdealGrows(m: nat, n: nat)
    requires 1 <= m <= n
    ensures PEER_PROBE_THRESHOLD <= IdealBackoff(m) <= IdealBackoff(n) <= MAX_BACKOFF_DURATION
  {
    Pow2Grows(m - 1, n - 1);
  }

  lemma {:induction false} Pow2Adds(a: nat, b: nat)
    ensures Pow2(a + b) == Pow2(a) * Pow2(b)
  {
    if a > 0 {
      Pow2Adds(a - 1, b);
      assert Pow2(a + b) == 2 * Pow2(a - 1 + b);
    }
  }

  lemma SmallPowers()
    ensures Pow2(6) == 64 && Pow2(13) == 8192 && Pow2(21) == 2_097_152
    ensures Pow2(51) == 0x8_0000_0000_0000 && Pow2(63) == TWO_63
  {
    assert Pow2(6) == 64;
    Pow2Adds(6, 6);
    Pow2Adds(1, 12);
    Pow2Adds(12, 12);
    assert Pow2(9) == 512;
    Pow2Adds(12, 9);
    Pow2Adds(24, 24);
    Pow2Adds(48, 3);
    Pow2Adds(51, 12);
  }

  lemma IdealIsMax(n: nat)
    requires n >= 7
    ensures IdealBackoff(n) == MAX_BACKOFF_DURATION
  {
    SmallPowers();
    Pow2Grows(6, n - 1);
  }

  /** The product before it is clamped. */
  function Product(shift: nat): int {
    Wrap64(PEER_PROBE_THRESHOLD * ShiftOne(shift))
  }

  lemma ShiftIsPow2(shift: nat)
    requires shift < 63
    ensures ShiftOne(shift) == Pow2(shift)
  {
    SmallPowers();
    Pow2Grows(shift + 1, 63);
    assert Pow2(shift + 1) == 2 * Pow2(shift);
  }

  lemma FitsIn64(shift: nat)
    requires shift <= 21
    ensures 0 < PEER_PROBE_THRESHOLD * Pow2(shift) < TWO_63
  {
    SmallPowers();
    Pow2Grows(shift, 21);
  }

  /** Up to 22 failures nothing wraps. */
  lemma ExactUpTo22(n: nat)
    requires 1 <= n <= 22
    ensures MachineBackoff(n) == IdealBackoff(n)
  {
    ShiftIsPow2(n - 1);
    FitsIn64(n - 1);
  }

  lemma WrapPeriod(x: int, k: int)
    ensures Wrap64(x + k * TWO_64) == Wrap64(x)
  {
    var y := x + TWO_63;
    assert y + k * TWO_64 == (y / TWO_64 + k) * TWO_64 + y % TWO_64;
  }

  lemma WrapDoubles(x: int)
    ensures Wrap64(2 * x) == Wrap64(2 * Wrap64(x))
  {
    var k := (x + TWO_63) / TWO_64;
    assert x == Wrap64(x) + k * TWO_64;
    WrapPeriod(2 * Wrap64(x), 2 * k);
  }

  lemma ProductDoubles(shift: nat)
    requires shift < 62
    ensures Product(shift + 1) == Wrap64(2 * Product(shift))
  {
    ShiftIsPow2(shift);
    ShiftIsPow2(shift + 1);
    WrapDoubles(PEER_PROBE_THRESHOLD * Pow2(shift));
    assert PEER_PROBE_THRESHOLD * Pow2(shift + 1) == 2 * (PEER_PROBE_THRESHOLD * Pow2(shift));
  }

  /** The products for shifts 21 to 51, as they come out of the machine. */
  const PRODUCTS: seq<int> := [
    7549747200000000000, -3347249673709551616, -6694499347419103232,
    5057745378871345152, -8331253315966861312, 1784237441775828992,
    3568474883551657984, 7136949767103315968, -4172844539502919680,
    -8345689079005839360, 1755365915697872896, 3510731831395745792,
    7021463662791491584, -4403816748126568448, -8807633496253136896,
    831477081203277824, 1662954162406555648, 3325908324813111296,
    6651816649626222592, -5143110774457106432, 8160522524795338752,
    -2125699024118874112, -4251398048237748224, -8502796096475496448,
    1441151880758558720, 2882303761517117440, 5764607523034234880,
    -6917529027641081856, 4611686018427387904, -9223372036854775808,
    0
  ]

  lemma ProductsDouble(k: nat)
    requires k < 30
    ensures |PRODUCTS| == 31 && PRODUCTS[k + 1] == Wrap64(2 * PRODUCTS[k])
  {
  }

  lemma {:induction false} ProductIs(k: nat)
    requires k <= 30
    ensures |PRODUCTS| == 31 && Product(21 + k) == PRODUCTS[k]
  {
    if k == 0 {
      SmallPowers();
      ShiftIsPow2(21);
    } else {
      ProductIs(k - 1);
      ProductDoubles(20 + k);
      ProductsDouble(k - 1);
    }
  }

  /** From a shift of 51 on the product is zero. */
  lemma {:induction false} ProductVanishes(shift: nat)
    requires shift >= 51
    ensures Product(shift) == 0
  {
    if shift == 51 {
      ProductIs(30);
    } else if shift <= 62 {
      ProductVanishes(shift - 1);
      ProductDoubles(shift - 1);
    } else if shift == 63 {
      SmallPowers();
    }
  }

  /** The counts past 22 where the wrapped product happens to be large. */
  predicate LuckyWrap(n: nat) {
    n in {25, 27, 28, 29, 32, 33, 34, 37, 38, 39, 40, 42, 46, 47, 48, 50}
  }

  lemma LuckyProducts(k: nat)
    requires 1 <= k <= 30
    ensures |PRODUCTS| == 31
    ensures PRODUCTS[k] >= MAX_BACKOFF_DURATION <==> LuckyWrap(22 + k)
    ensures PRODUCTS[k] < 0 <==> !LuckyWrap(22 + k) && k < 30
  {
  }

  /** The machine result is the documented backoff up to 22 failures, for the few counts after that
      where the wrapped product happens to be large, and never again. */
  lemma ExactExactlyWhen(n: nat)
    requires n >= 1
    ensures MachineBackoff(n) == IdealBackoff(n) <==> n <= 22 || LuckyWrap(n)
  {
    if n <= 22 {
      ExactUpTo22(n);
    } else {
      IdealIsMax(n);
      if n <= 52 {
        ProductIs(n - 22);
        LuckyProducts(n - 22);
      } else {
        ProductVanishes(n - 1);
      }
    }
  }

  // ---- Runs ----

  /** What happens to one peer's entry. A gated failure is recorded at `now` after `ShouldProbe` said
      yes at `checked`; the LRU may drop the entry. */
  datatype Event = Identify(now: int) | GatedFailure(checked: int, now: int) | Drop

  predicate Allowed(st: Option<PeerState>, e: Event) {
    e.GatedFailure? ==> e.checked <= e.now && ShouldProbe(st, e.checked)
  }

  function Handle(st: Option<PeerState>, e: Event): Option<PeerState> {
    match e
    case Identify(now) => RecordIdentify(st, now)
    case GatedFailure(_, now) => RecordFailure(st, now)
    case Drop => None
  }

  predicate Run(st: Option<PeerState>, events: seq<Event>)
    decreases |events|
  {
    events == [] || (Allowed(st, events[0]) && Run(Handle(st, events[0]), events[1..]))
  }

  function After(st: Option<PeerState>, events: seq<Event>): Option<PeerState>
    decreases |events|
  {
    if events == [] then st else After(Handle(st, events[0]), events[1..])
  }

  predicate Gated(st: Option<PeerState>) {
    st.Some? ==> st.value.failures <= 7 && (st.value.failures > 0 ==> st.value.lastFailed.Some?)
  }

  /** The seventh failure waits the full 48 hours, so the eighth finds the peer evictable. */
  lemma EighthFailureEvicts(st: Option<PeerState>, checked: int, now: int)
    requires st.Some? && st.value.failures == 7
    requires checked <= now && ShouldProbe(st, checked)
    ensures RecordFailure(st, now) == None
  {
    ExactUpTo22(7);
    IdealIsMax(7);
  }

  lemma {:induction false} RunStaysGated(st: Option<PeerState>, events: seq<Event>)
    requires Gated(st) && Run(st, events)
    ensures Gated(After(st, events))
    decreases |events|
  {
    if events != [] {
      var e := events[0];
      if e.GatedFailure? && st.Some? && st.value.failures == 7 {
        EighthFailureEvicts(st, e.checked, e.now);
      }
      RunStaysGated(Handle(st, e), events[1..]);
    }
  }

  /** As long as every failure goes through the gate, a peer never has more than seven, its backoff is
      the documented one and at least an hour. */
  lemma GatedRunsStayExact(events: seq<Event>)
    requires Run(None, events)
    ensures var st := After(None, events);
      st.Some? ==>
        && st.value.failures <= 7
        && (st.value.failures > 0 ==> MachineBackoff(st.value.failures) == IdealBackoff(st.value.failures))
        && PEER_PROBE_THRESHOLD <= MachineBackoff(st.value.failures) <= MAX_BACKOFF_DURATION
  {
    RunStaysGated(None, events);
    var st := After(None, events);
    if st.Some? && st.value.failures > 0 {
      ExactUpTo22(st.value.failures);
      IdealGrows(1, st.value.failures);
    }
  }

  /** The entry after failures recorded at the times `ts` without asking the gate, as the peer endpoint
      does. */
  function Ungated(ts: seq<int>): Option<PeerState> {
    if ts == [] then None else RecordFailure(Ungated(ts[..|ts| - 1]), ts[|ts| - 1])
  }

  /** No two failures in a row are further apart than the maximum backoff. */
  predicate Steady(ts: seq<int>) {
    forall i | 0 < i < |ts| :: ts[i - 1] <= ts[i] <= ts[i - 1] + MAX_BACKOFF_DURATION
  }

  /** Past the gate the counter has no bound. */
  lemma {:induction false} UngatedCounts(ts: seq<int>)
    requires ts != [] && Steady(ts)
    ensures Ungated(ts) == Some(PeerState(None, Some(ts[|ts| - 1]), |ts|))
  {
    if |ts| > 1 { UngatedCounts(ts[..|ts| - 1]); }
  }

  /** When the gate of a peer with `n` failures is open, `d` after the last one: when the documented
      backoff is over, and also, for the counts past 22 that do not happen to wrap to something large,
      at once. At the very instant of the failure it is open while the wrapped product is negative. */
  lemma GateOpensExactlyWhen(st: PeerState, last: int, d: nat)
    requires st.failures >= 1 && st.lastFailed == Some(last)
    ensures d > 0 ==> (ShouldProbe(Some(st), last + d) <==> (st.failures >= 23 && !LuckyWrap(st.failures)) || d > IdealBackoff(st.failures))
    ensures ShouldProbe(Some(st), last) <==> 23 <= st.failures <= 51 && !LuckyWrap(st.failures)
  {
    var n := st.failures;
    IdealGrows(1, n);
    if n <= 22 {
      ExactUpTo22(n);
    } else {
      IdealIsMax(n);
      if n <= 52 {
        ProductIs(n - 22);
        LuckyProducts(n - 22);
      } else {
        ProductVanishes(n - 1);
      }
    }
  }

  /** Failures recorded without the gate reopen it: from the 23rd on, but for a few counts, the peer may
      be probed a nanosecond later, and so at any time within the hour the gate is meant to hold. */
  lemma UngatedFailuresReopenTheGate(ts: seq<int>, d: nat)
    requires ts != [] && Steady(ts) && 1 <= d <= PEER_PROBE_THRESHOLD
    ensures ShouldProbe(Ungated(ts), ts[|ts| - 1] + d) <==> |ts| >= 23 && !LuckyWrap(|ts|)
  {
    UngatedCounts(ts);
    IdealGrows(1, |ts|);
    GateOpensExactlyWhen(Ungated(ts).value, ts[|ts| - 1], d);
  }
}
