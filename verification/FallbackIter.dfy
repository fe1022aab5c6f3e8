/** The cache-fallback iterator as an interleaving machine: any number of iterators, each with a
    consumer and detached lookups, over one pool of slots. One step per atomic action. */
module FallbackIter {
  import opened Multiaddrs

  const BUFFER_SIZE: nat := 100

  /** A source record: a peer with its addresses, or anything that is passed through. */
  datatype Record = Peer(addrs: seq<Multiaddr>) | Other

  /** What Next handed to the client: the i-th source record, or what lookup l found. */
  datatype Delivery =
    | FromSource(i: nat, record: Record)
    | FromLookup(l: nat, addrs: seq<Multiaddr>)

  /** What became of the i-th source record. */
  datatype Verdict = Kept | Skipped | Dispatched(l: nat) | Deciding

  /** What became of what a lookup found. */
  datatype Fate = Pending | Buffered | Delivered | Discarded | Dropped | Abandoned

  datatype LookupPc = Searching | Sending | Releasing | Uncounting | Exited

  /** A lookup for source record `i`. `found` is what it had to send, once it came to sending it. */
  datatype Lookup = Lookup(i: nat, pc: LookupPc, fate: Fate, found: seq<Multiaddr>)

  /** Where the consumer is. Between two calls of Next it is `Ready`; after one that returned false,
      `Ended`, from where it may be called again. */
  datatype Pc =
    | Ready
    | AtSource
    | Gate(i: nat)
    | Slotted(i: nat)
    | Counted(i: nat)
    | Checking
    | Waiting
    | Ended(canceled: bool)

  datatype Item = Item(l: nat, addrs: seq<Multiaddr>)

  /** `seen` is what the cache held for each source record at the time it was read. */
  datatype Iter = Iter(
    src: seq<Record>,
    pos: nat,
    pc: Pc,
    canceled: bool,
    ongoing: int,
    buffer: seq<Item>,
    lookups: seq<Lookup>,
    verdicts: seq<Verdict>,
    seen: seq<seq<Multiaddr>>,
    out: seq<Delivery>)

  datatype Step =
    | CallNext
    | SourceNext(cached: seq<Multiaddr>)
    | Refuse
    | Acquire
    | Count
    | Spawn
    | Load
    | Receive
    | SeeDone
    | Timer
    | Cancel
    | CheckCtx(l: nat)
    | Send(l: nat, found: seq<Multiaddr>)
    | GiveUp(l: nat, found: seq<Multiaddr>)
    | Release(l: nat)
    | Uncount(l: nat)

  predicate At(it: Iter, l: nat, pc: LookupPc) {
    l < |it.lookups| && it.lookups[l].pc == pc
  }

  /** Whether a step can be taken, as far as the iterator itself goes. */
  predicate Enabled(it: Iter, step: Step) {
    match step
    case CallNext => it.pc.Ready? || it.pc.Ended?
    case SourceNext(_) => it.pc.AtSource? && |it.verdicts| == it.pos <= |it.src|
    case Refuse => it.pc.Gate? && it.pc.i < |it.verdicts|
    case Acquire => it.pc.Gate?
    case Count => it.pc.Slotted?
    case Spawn => it.pc.Counted? && it.pc.i < |it.verdicts|
    case Load => it.pc.Checking?
    case Receive => it.pc.Waiting? && it.buffer != [] && it.buffer[0].l < |it.lookups|
    case SeeDone => it.pc.Waiting? && it.canceled
    case Timer => it.pc.Waiting?
    case Cancel => true
    case CheckCtx(l) => At(it, l, Searching)
    case Send(l, _) => At(it, l, Sending) && (|it.buffer| < BUFFER_SIZE || !it.canceled)
    case GiveUp(l, _) => At(it, l, Sending) && it.canceled
    case Release(l) => At(it, l, Releasing)
    case Uncount(l) => At(it, l, Uncounting)
  }

  function SetLookup(it: Iter, l: nat, pc: LookupPc, fate: Fate, found: seq<Multiaddr>): Iter
    requires l < |it.lookups|
  {
    it.(lookups := it.lookups[l := it.lookups[l].(pc := pc, fate := fate, found := found)])
  }

  /** One record read from the source; `cached` is what the cache holds for its peer. */
  function ReadSource(it: Iter, cached: seq<Multiaddr>): Iter
    requires Enabled(it, SourceNext(cached))
  {
    if it.pos == |it.src| then it.(pc := Checking)
    else
      var next := it.(pos := it.pos + 1, seen := it.seen + [cached]);
      match it.src[it.pos]
      case Other => next.(pc := Ready, verdicts := it.verdicts + [Kept], out := it.out + [FromSource(it.pos, Other)])
      case Peer(addrs) =>
        var addrs := if |addrs| > 0 then addrs else cached;
        if |addrs| > 0 then
          next.(pc := Ready, verdicts := it.verdicts + [Kept], out := it.out + [FromSource(it.pos, Peer(addrs))])
        else
          next.(pc := Gate(it.pos), verdicts := it.verdicts + [Deciding])
  }

  function Apply(it: Iter, step: Step): Iter
    requires Enabled(it, step)
  {
    match step
    case CallNext => it.(pc := AtSource)
    case SourceNext(cached) => ReadSource(it, cached)
    case Refuse => it.(pc := AtSource, verdicts := it.verdicts[it.pc.i := Skipped])
    case Acquire => it.(pc := Slotted(it.pc.i))
    case Count => it.(pc := Counted(it.pc.i), ongoing := it.ongoing + 1)
    case Spawn =>
      it.(pc := AtSource, verdicts := it.verdicts[it.pc.i := Dispatched(|it.lookups|)],
          lookups := it.lookups + [Lookup(it.pc.i, Searching, Pending, [])])
    case Load => it.(pc := if it.ongoing == 0 then Ended(false) else Waiting)
    case Receive =>
      var item := it.buffer[0];
      var rest := it.(buffer := it.buffer[1..]);
      var x := it.lookups[item.l];
      if |item.addrs| > 0 then
        SetLookup(rest, item.l, x.pc, Delivered, x.found).(pc := Ready, out := it.out + [FromLookup(item.l, item.addrs)])
      else
        SetLookup(rest, item.l, x.pc, Discarded, x.found).(pc := AtSource)
    case SeeDone => it.(pc := Ended(true))
    case Timer => it.(pc := AtSource)
    case Cancel => it.(canceled := true)
    case CheckCtx(l) =>
      if it.canceled then SetLookup(it, l, Releasing, Abandoned, []) else SetLookup(it, l, Sending, Pending, [])
    case Send(l, found) =>
      if |it.buffer| < BUFFER_SIZE then
        SetLookup(it, l, Releasing, Buffered, found).(buffer := it.buffer + [Item(l, found)])
      else
        SetLookup(it, l, Releasing, Dropped, found)
    case GiveUp(l, found) => SetLookup(it, l, Releasing, Abandoned, found)
    case Release(l) => SetLookup(it, l, Uncounting, it.lookups[l].fate, it.lookups[l].found)
    case Uncount(l) => SetLookup(it, l, Exited, it.lookups[l].fate, it.lookups[l].found).(ongoing := it.ongoing - 1)
  }

  function NewIter(src: seq<Record>): Iter {
    Iter(src, 0, Ready, false, 0, [], [], [], [], [])
  }

  // ---- All iterators, and the slots they share ----

  datatype System = System(cap: nat, slots: int, iters: seq<Iter>)

  datatype Move = Open(src: seq<Record>) | Take(n: nat, step: Step)

  /** The slot pool is a channel: taking a slot never blocks but may be refused, giving one back would
      block on an empty pool. */
  predicate Allowed(s: System, m: Move) {
    match m
    case Open(_) => true
    case Take(n, step) =>
      && n < |s.iters| && Enabled(s.iters[n], step)
      && (step.Acquire? ==> s.slots < s.cap)
      && (step.Release? ==> s.slots > 0)
  }

  function SlotDelta(step: Step): int {
    if step.Acquire? then 1 else if step.Release? then -1 else 0
  }

  function Do(s: System, m: Move): System
    requires Allowed(s, m)
  {
    match m
    case Open(src) => s.(iters := s.iters + [NewIter(src)])
    case Take(n, step) => s.(slots := s.slots + SlotDelta(step), iters := s.iters[n := Apply(s.iters[n], step)])
  }

  ghost predicate Reaches(s: System, moves: seq<Move>, t: System)
    decreases |moves|
  {
    if moves == [] then s == t
    else Allowed(s, moves[0]) && Reaches(Do(s, moves[0]), moves[1..], t)
  }

  function Start(cap: nat): System {
    System(cap, 0, [])
  }
}
