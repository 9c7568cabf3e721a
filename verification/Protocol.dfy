/** The disruptor as a step machine.

    Every step is one access to shared memory by one thread (or a purely local one), so that a run
    is an arbitrary interleaving of the accesses of any number of producers and consumers. The
    multi-producer machine works on the real words of the availability bitmap; the single-producer
    machine has one producer handle and a published cursor in place of the bitmap. */
module Protocol {
  import opened Bits
  import opened Availability
  import opened RingBuffers
  import opened Wiring

  /** A disruptor as built: ring size, kind of producer, wiring, which consumers are pollers (the
      others are processors with a thread of their own) and the number of gates. */
  datatype Config = Config(capacity: nat, multi: bool, graph: Graph, poller: seq<bool>, gates: nat)

  ghost predicate ValidConfig(cfg: Config) {
    && PowerOfTwo(cfg.capacity)
    && (cfg.multi ==> cfg.capacity >= 64)
    && |cfg.poller| == |cfg.graph.barriers|
    && GatesBelow(cfg.graph, cfg.gates)
    && exists stage: seq<nat>, last: nat :: Layered(cfg.graph, stage, last)
  }

  // --- state -----------------------------------------------------------------------------------

  /** Where a producer is. In `Claiming` and before, `current` is the cursor value it last saw. */
  datatype ProducerPc =
    | Idle
    | Comparing(n: nat, current: int)
    | ReadingRear(n: nat, current: int, read: nat, least: int)
    | Claiming(n: nat, current: int)
    | Writing(lower: int, upper: int)
    | Publishing(next: int, upper: int)
    | LoadingTotal
    | StoringShutdown(total: int)
    | Dropped

  /** `clear` is the cached `sequence_clear_of_consumers`. */
  datatype Producer = Producer(pc: ProducerPc, clear: int)

  /** What a consumer asks of its barrier: wait for events, or poll for at most `limit` of them. */
  datatype Call = WaitFor | PollTake(limit: nat)

  datatype ConsumerPc =
    | Resting
    | CheckingFirst(limit: nat)
    | Scanning(call: Call, sequence: int)
    | LoadingPublished(call: Call)
    | ReadingMin(call: Call, read: nat, least: int)
    | CheckingShutdown
    | Handling(next: int, available: int)

  datatype Delivery = Delivery(sequence: int, event: Event, endOfBatch: bool)

  /** `handled` and `stored` record what the handler was given and which values the cursor was set to;
      `stopped` records that the consumer has been told of the shutdown. */
  datatype Consumer = Consumer(pc: ConsumerPc, cursor: int, handled: seq<Delivery>, stored: set<int>, stopped: bool)

  /** `claimed` is the producers' cursor (for the single producer: the last sequence it has reserved);
      `published` is the single producer's cursor. `log`, `owner` and `gatePeaks` are histories: the
      event of every claimed sequence as its claimer left it, who claimed it, and the largest value
      each gate has held. */
  datatype State = State(
    claimed: int,
    published: int,
    words: seq<nat>,
    slots: seq<Event>,
    producers: seq<Producer>,
    consumers: seq<Consumer>,
    gates: seq<int>,
    shutdown: int,
    refCount: int,
    log: seq<Event>,
    owner: seq<nat>,
    gatePeaks: seq<int>)

  predicate IsInitial(cfg: Config, s: State) {
    && s.claimed == -1 && s.published == -1
    && s.words == seq(if cfg.multi then cfg.capacity / 64 else 0, _ => Not(0))
    && |s.slots| == cfg.capacity
    && s.producers == [Producer(Idle, cfg.capacity - 1)]
    && s.consumers == seq(|cfg.graph.barriers|, _ => Consumer(Resting, -1, [], {}, false))
    && s.gates == seq(cfg.gates, _ => -1) && s.gatePeaks == s.gates
    && s.shutdown == -1 && s.refCount == 1
    && s.log == [] && s.owner == []
  }

  // --- steps -----------------------------------------------------------------------------------

  datatype ProducerAction =
    | LoadCursor(n: nat)
    | CompareWithCached
    | ReadRearCursor
    | ComputeCapacity
    | CompareExchange
    | Write(sequence: int, event: Event)
    | FinishWriting
    | Publish
    | Clone
    | Release
    | LoadTotal
    | StoreShutdown

  datatype ConsumerAction =
    | BeginWait
    | BeginPoll(limit: nat)
    | CheckShutdownFirst
    | ScanAvailability
    | LoadPublished
    | ReadDependency
    | CompleteMinimum
    | CheckShutdown
    | Handle
    | StoreCursor

  datatype Step =
    | ByProducer(p: nat, producerAction: ProducerAction)
    | ByConsumer(c: nat, consumerAction: ConsumerAction)
    | SetGate(g: nat, value: int)

  function Max(a: int, b: int): int {
    if a <= b then b else a
  }

  predicate Enabled(cfg: Config, s: State, step: Step) {
    match step
    case ByProducer(p, action) => p < |s.producers| && ProducerEnabled(cfg, s, s.producers[p].pc, action)
    case ByConsumer(c, action) =>
      c < |s.consumers| && c < |cfg.poller| && c < |cfg.graph.barriers| && ConsumerEnabled(cfg, s, c, action)
    case SetGate(g, _) => g < |s.gates| && g < |s.gatePeaks|
  }

  predicate ProducerEnabled(cfg: Config, s: State, pc: ProducerPc, action: ProducerAction) {
    match action
    case LoadCursor(_) => pc.Idle?
    case CompareWithCached => pc.Comparing?
    case ReadRearCursor =>
      pc.ReadingRear? && pc.read < |cfg.graph.rear| && cfg.graph.rear[pc.read] < |s.consumers|
    case ComputeCapacity => pc.ReadingRear? && pc.read == |cfg.graph.rear|
    case CompareExchange => pc.Claiming? && 0 <= s.claimed + 1 && 0 < cfg.capacity == |s.slots|
    case Write(q, _) => pc.Writing? && pc.lower <= q <= pc.upper && 0 <= q < |s.log| && 0 < cfg.capacity == |s.slots|
    case FinishWriting => pc.Writing?
    case Publish => pc.Publishing? && 0 <= pc.next && (cfg.multi ==> 0 < cfg.capacity == 64 * |s.words|)
    case Clone => pc.Idle? && cfg.multi
    case Release => pc.Idle?
    case LoadTotal => pc.LoadingTotal?
    case StoreShutdown => pc.StoringShutdown?
  }

  predicate ConsumerEnabled(cfg: Config, s: State, c: nat, action: ConsumerAction)
    requires c < |s.consumers| && c < |cfg.poller| && c < |cfg.graph.barriers|
  {
    var x := s.consumers[c];
    var b := cfg.graph.barriers[c];
    match action
    case BeginWait => x.pc.Resting? && (cfg.poller[c] || !x.stopped)
    case BeginPoll(_) => x.pc.Resting? && cfg.poller[c]
    case CheckShutdownFirst => x.pc.CheckingFirst?
    case ScanAvailability =>
      x.pc.Scanning? && 0 <= x.pc.sequence && 0 < cfg.capacity == 64 * |s.words| && AreWords(s.words)
    case LoadPublished => x.pc.LoadingPublished?
    case ReadDependency =>
      x.pc.ReadingMin? && b.Stage? &&
      if x.pc.read < |b.cursors| then b.cursors[x.pc.read] < |s.consumers|
      else x.pc.read < |b.cursors| + |b.gates| && b.gates[x.pc.read - |b.cursors|] < |s.gates|
    case CompleteMinimum => x.pc.ReadingMin? && b.Stage? && x.pc.read == |b.cursors| + |b.gates|
    case CheckShutdown => x.pc.CheckingShutdown?
    case Handle => x.pc.Handling? && x.pc.next <= x.pc.available && 0 < cfg.capacity == |s.slots|
    case StoreCursor => x.pc.Handling? && (x.pc.next > x.pc.available || cfg.poller[c])
  }

  function Apply(cfg: Config, s: State, step: Step): State
    requires Enabled(cfg, s, step)
  {
    match step
    case ByProducer(p, action) => ApplyProducer(cfg, s, p, action)
    case ByConsumer(c, action) => s.(consumers := s.consumers[c := ConsumerAfter(cfg, s, c, action)])
    case SetGate(g, v) => s.(gates := s.gates[g := v], gatePeaks := s.gatePeaks[g := Max(s.gatePeaks[g], v)])
  }

  function Continue(s: State, p: nat, pc: ProducerPc): State
    requires p < |s.producers|
  {
    s.(producers := s.producers[p := s.producers[p].(pc := pc)])
  }

  function ApplyProducer(cfg: Config, s: State, p: nat, action: ProducerAction): State
    requires p < |s.producers| && ProducerEnabled(cfg, s, s.producers[p].pc, action)
  {
    var pc := s.producers[p].pc;
    match action
    case LoadCursor(n) => Continue(s, p, Comparing(n, s.claimed))
    case CompareWithCached =>
      Continue(s, p, if s.producers[p].clear < pc.current + pc.n
                     then ReadingRear(pc.n, pc.current, 0, 0)
                     else Claiming(pc.n, pc.current))
    case ReadRearCursor =>
      var value := s.consumers[cfg.graph.rear[pc.read]].cursor;
      Continue(s, p, pc.(read := pc.read + 1, least := if pc.read == 0 then value else Min(pc.least, value)))
    case ComputeCapacity =>
      var availableCapacity := FreeAfter(cfg.capacity, pc.current, pc.least);
      if availableCapacity < pc.n then Continue(s, p, Idle)
      else s.(producers := s.producers[p := Producer(Claiming(pc.n, pc.current), pc.current + availableCapacity)])
    case CompareExchange =>
      if s.claimed == pc.current then ClaimNext(cfg, s, p, pc.n)
      else Continue(s, p, Comparing(pc.n, s.claimed))
    case Write(q, event) => s.(slots := s.slots[q % cfg.capacity := event], log := s.log[q := event])
    case FinishWriting => Continue(s, p, Publishing(pc.lower, pc.upper))
    case Publish =>
      if !cfg.multi then Continue(s.(published := pc.upper), p, Idle)
      else if pc.next > pc.upper then Continue(s, p, Idle)
      else
        var take := Take(cfg.capacity, pc.next, pc.upper - pc.next + 1);
        var words := PublishChunk(s.words, cfg.capacity, pc.next, take);
        Continue(s.(words := words), p,
                 if pc.next + take > pc.upper then Idle else Publishing(pc.next + take, pc.upper))
    case Clone => s.(producers := s.producers + [Producer(Idle, 0)], refCount := s.refCount + 1)
    case Release => Continue(s.(refCount := s.refCount - 1), p, if s.refCount == 1 then LoadingTotal else Dropped)
    case LoadTotal => Continue(s, p, StoringShutdown(s.claimed + 1))
    case StoreShutdown => Continue(s.(shutdown := pc.total), p, Dropped)
  }

  /** The interval `]claimed; claimed + n]` becomes the producer's; its events are whatever the slots
      hold until the producer updates them. */
  function ClaimNext(cfg: Config, s: State, p: nat, n: nat): State
    requires p < |s.producers| && 0 <= s.claimed + 1 && 0 < cfg.capacity == |s.slots|
  {
    Continue(s.(claimed := s.claimed + n,
                log := s.log + Contents(s.slots, s.claimed + 1, n),
                owner := s.owner + seq(n, _ => p)),
             p, Writing(s.claimed + 1, s.claimed + n))
  }

  function Contents(slots: seq<Event>, from: nat, n: nat): (r: seq<Event>)
    requires |slots| > 0
    ensures |r| == n
    ensures forall i :: 0 <= i < n ==> r[i] == slots[(from + i) % |slots|]
  {
    seq(n, i requires 0 <= i < n => slots[(from + i) % |slots|])
  }

  /** Where a call to the barrier of consumer `c` begins. */
  function StartBarrier(cfg: Config, c: nat, x: Consumer, call: Call): ConsumerPc
    requires c < |cfg.graph.barriers|
  {
    if cfg.graph.barriers[c].Stage? then ReadingMin(call, 0, 0)
    else if cfg.multi then Scanning(call, x.cursor + 1)
    else LoadingPublished(call)
  }

  /** What a consumer does with the answer of its barrier. */
  function Offer(x: Consumer, call: Call, available: int): ConsumerPc {
    if available >= x.cursor + 1 then
      match call
      case WaitFor => Handling(x.cursor + 1, available)
      case PollTake(limit) => Handling(x.cursor + 1, Min(available, x.cursor + limit))
    else
      match call
      case WaitFor => CheckingShutdown
      case PollTake(_) => Resting
  }

  function ConsumerAfter(cfg: Config, s: State, c: nat, action: ConsumerAction): Consumer
    requires c < |s.consumers| && c < |cfg.poller| && c < |cfg.graph.barriers|
    requires ConsumerEnabled(cfg, s, c, action)
  {
    var x := s.consumers[c];
    var b := cfg.graph.barriers[c];
    match action
    case BeginWait => x.(pc := StartBarrier(cfg, c, x, WaitFor))
    case BeginPoll(limit) => x.(pc := CheckingFirst(limit))
    case CheckShutdownFirst =>
      if s.shutdown == x.cursor + 1 then x.(pc := Resting, stopped := true)
      else x.(pc := StartBarrier(cfg, c, x, PollTake(x.pc.limit)))
    case ScanAvailability =>
      var sequence := x.pc.sequence;
      var slot := sequence % cfg.capacity;
      (match ScanWord(s.words[slot / 64], slot % 64, OddRound(sequence, cfg.capacity))
       case Some(m) => x.(pc := Offer(x, x.pc.call, sequence + m - 1))
       case None => x.(pc := Scanning(x.pc.call, sequence + (64 - slot % 64))))
    case LoadPublished => x.(pc := Offer(x, x.pc.call, s.published))
    case ReadDependency =>
      var i := x.pc.read;
      var value := if i < |b.cursors| then s.consumers[b.cursors[i]].cursor else s.gates[b.gates[i - |b.cursors|]];
      x.(pc := ReadingMin(x.pc.call, i + 1, if i == 0 then value else Min(x.pc.least, value)))
    case CompleteMinimum => x.(pc := Offer(x, x.pc.call, x.pc.least))
    case CheckShutdown => x.(pc := Resting, stopped := x.stopped || s.shutdown == x.cursor + 1)
    case Handle =>
      var next := x.pc.next;
      x.(pc := Handling(next + 1, x.pc.available),
         handled := x.handled + [Delivery(next, s.slots[next % cfg.capacity], next == x.pc.available)])
    case StoreCursor => x.(pc := Resting, cursor := x.pc.available, stored := x.stored + {x.pc.available})
  }

  // --- runs ------------------------------------------------------------------------------------

  predicate IsRun(cfg: Config, s: State, steps: seq<Step>)
    decreases |steps|
  {
    steps == [] || (Enabled(cfg, s, steps[0]) && IsRun(cfg, Apply(cfg, s, steps[0]), steps[1..]))
  }

  function After(cfg: Config, s: State, steps: seq<Step>): State
    requires IsRun(cfg, s, steps)
    decreases |steps|
  {
    if steps == [] then s else After(cfg, Apply(cfg, s, steps[0]), steps[1..])
  }

  /** The state of a run after its first `i` steps. */
  function StateAt(cfg: Config, s: State, steps: seq<Step>, i: nat): State
    requires IsRun(cfg, s, steps) && i <= |steps|
    decreases i
  {
    if i == 0 then s else StateAt(cfg, Apply(cfg, s, steps[0]), steps[1..], i - 1)
  }

  ghost predicate Reachable(cfg: Config, s: State) {
    exists start: State, steps: seq<Step> :: IsInitial(cfg, start) && IsRun(cfg, start, steps) && After(cfg, start, steps) == s
  }

  // --- what a state means ----------------------------------------------------------------------

  /** Does producer `x` hold sequence `q`: claimed by it and not yet published? */
  predicate Holds(x: Producer, q: int) {
    match x.pc
    case Writing(lower, upper) => lower <= q <= upper
    case Publishing(next, upper) => next <= q <= upper
    case _ => false
  }

  /** Has sequence `q` been claimed and published? */
  predicate Published(s: State, q: int) {
    && 0 <= q <= s.claimed && q < |s.owner| && s.owner[q] < |s.producers|
    && !Holds(s.producers[s.owner[q]], q)
  }

  /** The last sequence a consumer may currently be reading, or has finished with. */
  function Horizon(x: Consumer): int {
    match x.pc
    case Handling(_, available) => available
    case _ => x.cursor
  }

  /** The sequences the consumer holds for reading. */
  predicate Reads(x: Consumer, q: int) {
    x.pc.Handling? && x.cursor < q <= x.pc.available
  }
}
