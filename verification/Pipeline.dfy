/**
 The whole gateway as a transition system: pollers, aggregator, publisher, MQTT event loop and
 the main task that wires them and shuts them down (src/lib.rs, src/aggregator.rs, src/mqtt.rs,
 src/modbus/poller.rs, src/modbus/supervisor.rs). Each action is one step of one task between
 two await points; any interleaving of enabled actions is a run.
 */
module Pipeline {
  import opened Types
  import opened Aggregator

  const READING_CAPACITY: nat := 1024
  const BATCH_CAPACITY: nat := 64
  const QUEUE_CAPACITY: nat := 100
  const SHUTDOWN_GRACE: nat := 2_000_000_000
  const RECONNECT_DELAY: nat := 500_000_000

  // ---------------------------------------------------------------- state

  /** A connection task: at an await point, or part-way through offering a block's readings. `Dying` has been aborted. */
  datatype Poller = Awaiting | Offering(rest: seq<Reading>) | Dying(rest: seq<Reading>) | Dead

  datatype AggregatorPhase = Selecting | Sending(rest: seq<AggregatedBatch>) | Exited

  datatype PublisherPhase = Receiving | SendingOffline | SendingDisconnect | AwaitingLoop | Returned

  datatype Request = Publish(batch: AggregatedBatch) | Online | Offline | Disconnect

  datatype Link = Down(until: int) | Connecting | Up

  /** `Failed`: the aggregator or the publisher exited before a shutdown was requested. */
  datatype Main = Running | Draining(graceEnd: int) | Done(clean: bool) | Failed

  /** What has happened so far; no task reads it. */
  datatype Log = Log(
    offered: seq<Reading>, dropped: seq<Reading>, ignored: seq<Reading>, live: seq<Reading>,
    windows: seq<seq<Reading>>, ends: seq<int>, flushes: seq<seq<AggregatedBatch>>,
    droppedBatches: seq<AggregatedBatch>, taken: seq<Request>)

  datatype State = State(
    now: int, pollers: seq<Poller>, readings: seq<Reading>,
    agg: Accumulators, aggregator: AggregatorPhase, windowEnd: int, deadline: int,
    batches: seq<AggregatedBatch>, publisher: PublisherPhase,
    queue: seq<Request>, link: Link, onlineTasks: nat, loopDone: bool, main: Main, log: Log)

  /** The configured points with their units, the window in seconds, and monotonic minus Unix time at start in nanoseconds. */
  datatype Conf = Conf(units: map<PointId, string>, window: nat, offset: int)

  // ---------------------------------------------------------------- actions

  datatype Action =
    | Load(poller: nat, values: seq<Reading>)
    | Crash(poller: nat)
    | Offer(poller: nat)
    | Park(poller: nat)
    | Receive
    | Tick(flush: seq<AggregatedBatch>)
    | Send
    | Rearm
    | ExitAggregator
    | TryPublish
    | InputClosed
    | PublishOffline
    | PublishDisconnect
    | ReturnPublisher
    | Take
    | TakeFailed
    | ConnAck
    | LinkError
    | Retry
    | SendOnline
    | FailOnline
    | Shutdown
    | Fail
    | Elapse(time: nat)
    | Finish
    | GiveUp

  ghost predicate AllDead(pollers: seq<Poller>) {
    forall i :: 0 <= i < |pollers| ==> pollers[i].Dead?
  }

  predicate Finished(s: State) {
    s.aggregator.Exited? && s.publisher.Returned?
  }

  ghost predicate Enabled(c: Conf, s: State, a: Action) {
    && !s.main.Done? && !s.main.Failed?
    && match a
       // Block reads succeeded and were decoded: what the task offers before it next awaits.
       case Load(i, _) => i < |s.pollers| && s.pollers[i].Awaiting? && s.main.Running?
       // A panic: the supervisor respawns the task, what it had not offered yet is gone.
       case Crash(i) => i < |s.pollers| && (s.pollers[i].Offering? || s.pollers[i].Dying?)
       case Offer(i) => i < |s.pollers| && (s.pollers[i].Offering? || s.pollers[i].Dying?) && s.pollers[i].rest != []
       case Park(i) => i < |s.pollers| && (s.pollers[i].Offering? || s.pollers[i].Dying?) && s.pollers[i].rest == []
       case Receive => s.aggregator.Selecting? && s.readings != []
       case Tick(flush) =>
         s.aggregator.Selecting? && s.now >= s.deadline && IsFlush(s.agg, s.windowEnd - c.window, s.windowEnd, flush)
       case Send => s.aggregator.Sending? && s.aggregator.rest != [] && |s.batches| < BATCH_CAPACITY
       case Rearm => s.aggregator.Sending? && s.aggregator.rest == []
       case ExitAggregator => s.aggregator.Selecting? && s.readings == [] && AllDead(s.pollers)
       case TryPublish => s.publisher.Receiving? && s.batches != []
       case InputClosed => s.publisher.Receiving? && s.batches == [] && s.aggregator.Exited?
       case PublishOffline => s.publisher.SendingOffline? && |s.queue| < QUEUE_CAPACITY
       case PublishDisconnect => s.publisher.SendingDisconnect? && |s.queue| < QUEUE_CAPACITY
       case ReturnPublisher => s.publisher.AwaitingLoop? && s.loopDone
       case Take => s.link.Up? && !s.loopDone && s.queue != []
       // The request left the queue, but writing it failed.
       case TakeFailed => s.link.Up? && !s.loopDone && s.queue != []
       case ConnAck => s.link.Connecting? && !s.loopDone
       case LinkError => !s.link.Down? && !s.loopDone
       case Retry => s.link.Down? && s.now >= s.link.until && !s.loopDone
       case SendOnline => s.onlineTasks > 0 && !s.loopDone && |s.queue| < QUEUE_CAPACITY
       case FailOnline => s.onlineTasks > 0 && s.loopDone
       case Shutdown => s.main.Running?
       case Fail => s.main.Running? && (s.aggregator.Exited? || s.publisher.Returned?)
       // Window and reconnect timers may be late; the grace timer is not.
       case Elapse(time) => time > 0 && (s.main.Draining? ==> s.now + time <= s.main.graceEnd)
       case Finish => s.main.Draining? && Finished(s)
       case GiveUp => s.main.Draining? && s.now >= s.main.graceEnd && !Finished(s)
  }

  function Abort(p: Poller): Poller {
    if p.Awaiting? then Dead else if p.Offering? then Dying(p.rest) else p
  }

  function Aborted(pollers: seq<Poller>): seq<Poller> {
    seq(|pollers|, i requires 0 <= i < |pollers| => Abort(pollers[i]))
  }

  /** Back at an await point: an aborted task goes no further. */
  function Stopped(p: Poller): Poller {
    if p.Offering? then Awaiting else Dead
  }

  /** `try_send` on the reading channel. */
  function Offered(s: State, i: nat): State
    requires i < |s.pollers| && (s.pollers[i].Offering? || s.pollers[i].Dying?) && s.pollers[i].rest != []
  {
    var p := s.pollers[i];
    var r := p.rest[0];
    var s' := s.(pollers := s.pollers[i := p.(rest := p.rest[1..])]);
    if |s.readings| < READING_CAPACITY then s'.(readings := s.readings + [r], log := s.log.(offered := s.log.offered + [r]))
    else s'.(log := s.log.(offered := s.log.offered + [r], dropped := s.log.dropped + [r]))
  }

  function Received(s: State): State
    requires s.readings != []
  {
    var r := s.readings[0];
    s.(readings := s.readings[1..], agg := Recorded(s.agg, r),
       log := if r.pointId in s.agg then s.log.(live := s.log.live + [r]) else s.log.(ignored := s.log.ignored + [r]))
  }

  function Flushed(c: Conf, s: State, flush: seq<AggregatedBatch>): State {
    s.(agg := Cleared(s.agg), aggregator := Sending(flush),
       log := s.log.(live := [], windows := s.log.windows + [s.log.live], flushes := s.log.flushes + [flush],
                     ends := s.log.ends + [s.windowEnd + c.window]))
  }

  function Sent(s: State): State
    requires s.aggregator.Sending? && s.aggregator.rest != []
  {
    s.(batches := s.batches + [s.aggregator.rest[0]], aggregator := Sending(s.aggregator.rest[1..]))
  }

  /** `try_publish` on the client's request queue. */
  function TriedPublish(s: State): State
    requires s.batches != []
  {
    var b := s.batches[0];
    var s' := s.(batches := s.batches[1..]);
    if |s.queue| < QUEUE_CAPACITY then s'.(queue := s.queue + [Publish(b)])
    else s'.(log := s.log.(droppedBatches := s.log.droppedBatches + [b]))
  }

  function Taken(s: State): State
    requires s.queue != []
  {
    s.(queue := s.queue[1..], loopDone := s.queue[0].Disconnect?, log := s.log.(taken := s.log.taken + [s.queue[0]]))
  }

  ghost function Next(c: Conf, s: State, a: Action): State
    requires Enabled(c, s, a)
  {
    match a
    case Load(i, values) => s.(pollers := s.pollers[i := Offering(values)])
    case Crash(i) => s.(pollers := s.pollers[i := Stopped(s.pollers[i])])
    case Offer(i) => Offered(s, i)
    case Park(i) => s.(pollers := s.pollers[i := Stopped(s.pollers[i])])
    case Receive => Received(s)
    case Tick(flush) => Flushed(c, s, flush)
    case Send => Sent(s)
    case Rearm => s.(aggregator := Selecting, windowEnd := s.windowEnd + c.window, deadline := s.deadline + c.window * NANOS)
    case ExitAggregator => s.(aggregator := Exited)
    case TryPublish => TriedPublish(s)
    case InputClosed => s.(publisher := SendingOffline)
    case PublishOffline => s.(queue := s.queue + [Offline], publisher := SendingDisconnect)
    case PublishDisconnect => s.(queue := s.queue + [Disconnect], publisher := AwaitingLoop)
    case ReturnPublisher => s.(publisher := Returned)
    case Take => Taken(s)
    case TakeFailed => Taken(s).(loopDone := false, link := Down(s.now + RECONNECT_DELAY))
    case ConnAck => s.(link := Up, onlineTasks := s.onlineTasks + 1)
    case LinkError => s.(link := Down(s.now + RECONNECT_DELAY))
    case Retry => s.(link := Connecting)
    case SendOnline => s.(queue := s.queue + [Online], onlineTasks := s.onlineTasks - 1)
    case FailOnline => s.(onlineTasks := s.onlineTasks - 1)
    case Shutdown => s.(pollers := Aborted(s.pollers), main := Draining(s.now + SHUTDOWN_GRACE))
    case Fail => s.(pollers := Aborted(s.pollers), main := Failed)
    case Elapse(time) => s.(now := s.now + time)
    case Finish => s.(main := Done(true))
    case GiveUp => s.(main := Done(false))
  }

  /** The state once every task is spawned. */
  ghost predicate Init(c: Conf, s: State) {
    && c.window > 0 && s.windowEnd % c.window == 0 && s.deadline == s.windowEnd * NANOS + c.offset
    && (forall i :: 0 <= i < |s.pollers| ==> s.pollers[i].Awaiting?)
    && s.readings == [] && s.batches == [] && s.queue == []
    && s.agg == AggOf(c.units, []) && s.aggregator.Selecting? && s.publisher.Receiving?
    && s.link.Connecting? && s.onlineTasks == 0 && !s.loopDone && s.main.Running?
    && s.log == Log.Log([], [], [], [], [], [s.windowEnd], [], [], [])
  }

  ghost predicate IsRun(c: Conf, states: seq<State>, actions: seq<Action>) {
    && |states| == |actions| + 1 && Init(c, states[0])
    && forall k :: 0 <= k < |actions| ==> Enabled(c, states[k], actions[k]) && states[k + 1] == Next(c, states[k], actions[k])
  }

  // ---------------------------------------------------------------- invariants

  ghost predicate WithinCapacity(s: State) {
    |s.readings| <= READING_CAPACITY && |s.batches| <= BATCH_CAPACITY && |s.queue| <= QUEUE_CAPACITY
  }

  /** The accumulators summarise exactly the readings of the live window, all of configured points. */
  ghost predicate Refined(c: Conf, s: State) {
    s.agg == AggOf(c.units, s.log.live)
  }

  /** Every reading ever offered is in exactly one place. */
  ghost predicate ReadingsConserved(s: State) {
    multiset(s.log.offered) ==
    multiset(s.log.dropped) + multiset(s.readings) + multiset(s.log.ignored) + multiset(s.log.live) + multiset(Flatten(s.log.windows))
  }

  ghost predicate AllKnown(c: Conf, readings: seq<Reading>) {
    forall r :: r in readings ==> r.pointId in c.units
  }

  /** A received reading is ignored iff its point is not configured. */
  ghost predicate IgnoredAreUnknown(c: Conf, s: State) {
    && (forall r :: r in s.log.ignored ==> r.pointId !in c.units)
    && AllKnown(c, s.log.live) && forall w :: w in s.log.windows ==> AllKnown(c, w)
  }

  function Rest(s: State): seq<AggregatedBatch> {
    if s.aggregator.Sending? then s.aggregator.rest else []
  }

  function Requests(s: State): seq<Request> {
    s.log.taken + s.queue
  }

  /** The batches among requests, in order. */
  function BatchesOf(requests: seq<Request>): seq<AggregatedBatch> {
    if requests == [] then []
    else BatchesOf(requests[..|requests| - 1])
         + if requests[|requests| - 1].Publish? then [requests[|requests| - 1].batch] else []
  }

  /** Every batch ever emitted is in exactly one place. */
  ghost predicate BatchesConserved(s: State) {
    multiset(Flatten(s.log.flushes)) ==
    multiset(Rest(s)) + multiset(s.batches) + multiset(BatchesOf(Requests(s))) + multiset(s.log.droppedBatches)
  }

  /** Each flush emitted the means of its window's readings under its window's label; windows tile time. */
  ghost predicate WindowsEmitted(c: Conf, s: State) {
    && EmittedFor(c.units, s.log.windows, s.log.ends, c.window, s.log.flushes)
    && s.log.ends[|s.log.ends| - 1] == NextEnd(c, s)
  }

  /** The timer stays on the boundary that labels the window, by the clock offset at start, however late ticks fire. */
  ghost predicate Aligned(c: Conf, s: State) {
    c.window > 0 && s.deadline == s.windowEnd * NANOS + c.offset && s.windowEnd % c.window == 0
  }

  /** The end of the window now being filled. */
  function NextEnd(c: Conf, s: State): int {
    s.windowEnd + if s.aggregator.Sending? then c.window else 0
  }

  /** Batches on their way, oldest first: handed over or queued, in the channel, being sent. */
  function Pipe(s: State): seq<AggregatedBatch> {
    BatchesOf(Requests(s)) + s.batches + Rest(s)
  }

  ghost predicate Ordered(batches: seq<AggregatedBatch>) {
    forall i, j :: 0 <= i < j < |batches| && batches[i].deviceId == batches[j].deviceId ==>
      batches[i].windowStart < batches[j].windowStart
  }

  ghost predicate PipeOrdered(c: Conf, s: State) {
    && Ordered(Pipe(s))
    && forall b :: b in Pipe(s) ==> b.windowStart < NextEnd(c, s) - c.window
  }

  /** The publisher's own requests: those no "online" task put in. */
  function Own(requests: seq<Request>): seq<Request> {
    if requests == [] then []
    else Own(requests[..|requests| - 1]) + if requests[|requests| - 1].Online? then [] else [requests[|requests| - 1]]
  }

  function Published(batches: seq<AggregatedBatch>): seq<Request> {
    seq(|batches|, i requires 0 <= i < |batches| => Publish(batches[i]))
  }

  function Farewell(p: PublisherPhase): seq<Request> {
    match p
    case Receiving | SendingOffline => []
    case SendingDisconnect => [Offline]
    case AwaitingLoop | Returned => [Offline, Disconnect]
  }

  /** The publisher requests its batches, then one "offline", then one disconnect. */
  ghost predicate FarewellLast(s: State) {
    && Own(Requests(s)) == Published(BatchesOf(Requests(s))) + Farewell(s.publisher)
    && (s.loopDone ==> Disconnect in s.log.taken)
  }

  /** Tasks stop in order: the pollers, the aggregator, the publisher. */
  ghost predicate PhasesAgree(s: State) {
    && (s.aggregator.Exited? ==> AllDead(s.pollers) && s.readings == [])
    && (!s.publisher.Receiving? ==> s.aggregator.Exited? && s.batches == [])
    && (s.publisher.Returned? ==> s.loopDone)
    && (s.main.Draining? ==> s.now <= s.main.graceEnd)
    && (s.main.Done? && s.main.clean ==> Finished(s))
  }

  /** Pollers run until shutdown, and only wind down after it. */
  ghost predicate PollersAgree(s: State) {
    && (s.main.Running? ==> forall i :: 0 <= i < |s.pollers| ==> s.pollers[i].Awaiting? || s.pollers[i].Offering?)
    && (!s.main.Running? ==> forall i :: 0 <= i < |s.pollers| ==> s.pollers[i].Dying? || s.pollers[i].Dead?)
    && (s.main.Failed? ==> |s.pollers| == 0)
  }

  ghost predicate Inv(c: Conf, s: State) {
    && WithinCapacity(s) && Refined(c, s) && ReadingsConserved(s) && IgnoredAreUnknown(c, s)
    && BatchesConserved(s) && WindowsEmitted(c, s) && PipeOrdered(c, s) && FarewellLast(s) && PhasesAgree(s)
    && PollersAgree(s) && Aligned(c, s)
  }

  // ---------------------------------------------------------------- every step keeps them

  lemma StepCapacity(c: Conf, s: State, a: Action)
    requires WithinCapacity(s) && Enabled(c, s, a)
    ensures WithinCapacity(Next(c, s, a))
  {
  }

  lemma StepRefined(c: Conf, s: State, a: Action)
    requires Refined(c, s) && IgnoredAreUnknown(c, s) && Enabled(c, s, a)
    ensures Refined(c, Next(c, s, a)) && IgnoredAreUnknown(c, Next(c, s, a))
  {
    hide AggOf, Recorded, Cleared, IsFlush, AllDead;
    if a.Receive? {
      AggOfKeys(c.units, s.log.live);
      RecordRefines(c.units, s.log.live, s.readings[0]);
      UnknownIsNoOp(s.agg, s.readings[0]);
    } else if a.Tick? {
      ClearRefines(c.units, s.log.live);
    } else if a.Offer? {
    } else {
      hide Enabled, Next;
      ReadingsFrame(c, s, a);
    }
  }

  lemma AggOfKeys(units: map<PointId, string>, readings: seq<Reading>)
    ensures AggOf(units, readings).Keys == units.Keys
  {
  }

  lemma UnknownIsNoOp(agg: Accumulators, r: Reading)
    ensures r.pointId !in agg ==> Recorded(agg, r) == agg
  {
  }

  lemma FlattenOne<T>(ss: seq<seq<T>>, s: seq<T>)
    ensures Flatten(ss + [s]) == Flatten(ss) + s
  {
    assert (ss + [s])[..|ss|] == ss;
  }

  lemma Uncons<T>(s: seq<T>)
    requires s != []
    ensures s == [s[0]] + s[1..] && multiset(s) == multiset{s[0]} + multiset(s[1..])
  {
  }

  /** Who writes what: readings are moved by three actions, batches by three. */
  lemma ReadingsFrame(c: Conf, s: State, a: Action)
    requires Enabled(c, s, a) && !a.Offer? && !a.Receive? && !a.Tick?
    ensures var s' := Next(c, s, a);
      && s'.readings == s.readings && s'.log.offered == s.log.offered && s'.log.dropped == s.log.dropped
      && s'.log.ignored == s.log.ignored && s'.log.live == s.log.live && s'.log.windows == s.log.windows
      && s'.agg == s.agg
  {
    hide AllDead, Aborted, Stopped;
  }

  lemma BatchesFrame(c: Conf, s: State, a: Action)
    requires Enabled(c, s, a) && !a.Tick? && !a.TryPublish? && !a.Send?
    ensures var s' := Next(c, s, a);
      && s'.log.flushes == s.log.flushes && s'.log.droppedBatches == s.log.droppedBatches
      && s'.batches == s.batches && Rest(s') == Rest(s)
  {
    hide AllDead, Aborted, Stopped, Recorded;
  }

  lemma OfferConserves(s: State, i: nat)
    requires ReadingsConserved(s)
    requires i < |s.pollers| && (s.pollers[i].Offering? || s.pollers[i].Dying?) && s.pollers[i].rest != []
    ensures ReadingsConserved(Offered(s, i))
  {
  }

  lemma ReceiveConserves(s: State)
    requires ReadingsConserved(s) && s.readings != []
    ensures ReadingsConserved(Received(s))
  {
    hide Recorded, Flatten;
    Uncons(s.readings);
  }

  lemma FlushConserves(c: Conf, s: State, flush: seq<AggregatedBatch>)
    requires ReadingsConserved(s)
    ensures ReadingsConserved(Flushed(c, s, flush))
  {
    hide Cleared, Flatten;
    FlattenOne(s.log.windows, s.log.live);
  }

  lemma StepReadings(c: Conf, s: State, a: Action)
    requires ReadingsConserved(s) && Enabled(c, s, a)
    ensures ReadingsConserved(Next(c, s, a))
    ensures Next(c, s, a).log.dropped != s.log.dropped ==> a.Offer? && |s.readings| >= 1024
  {
    if a.Offer? {
      hide ReadingsConserved;
      OfferConserves(s, a.poller);
    } else if a.Receive? {
      hide ReadingsConserved, Recorded;
      ReceiveConserves(s);
    } else if a.Tick? {
      hide ReadingsConserved, IsFlush, Cleared;
      FlushConserves(c, s, a.flush);
    } else {
      hide Next, Enabled, Flatten;
      ReadingsFrame(c, s, a);
    }
  }

  lemma BatchesOfOne(requests: seq<Request>, r: Request)
    ensures BatchesOf(requests + [r]) == BatchesOf(requests) + if r.Publish? then [r.batch] else []
    ensures Own(requests + [r]) == Own(requests) + if r.Online? then [] else [r]
  {
    assert (requests + [r])[..|requests|] == requests;
  }

  /** What an action appends to the requests. */
  function Appended(s: State, a: Action): seq<Request> {
    match a
    case TryPublish => if s.batches != [] && |s.queue| < QUEUE_CAPACITY then [Publish(s.batches[0])] else []
    case PublishOffline => [Offline]
    case PublishDisconnect => [Disconnect]
    case SendOnline => [Online]
    case _ => []
  }

  lemma TakeMoves(s: State)
    requires s.queue != []
    ensures Requests(Taken(s)) == Requests(s)
  {
    Uncons(s.queue);
    assert (s.log.taken + [s.queue[0]]) + s.queue[1..] == s.log.taken + ([s.queue[0]] + s.queue[1..]);
  }

  /** Requests only grow at the end; handing one to the broker moves it without changing the order. */
  lemma RequestsGrow(c: Conf, s: State, a: Action)
    requires Enabled(c, s, a)
    ensures Requests(Next(c, s, a)) == Requests(s) + Appended(s, a)
  {
    hide IsFlush, Recorded, Cleared, AllDead, Aborted, Stopped;
    assert Requests(s) + [] == Requests(s);
    if a.Take? || a.TakeFailed? {
      TakeMoves(s);
    }
  }

  lemma {:induction false} PublishConserves(s: State)
    requires BatchesConserved(s) && s.batches != []
    ensures BatchesConserved(TriedPublish(s))
  {
    Uncons(s.batches);
    PublishedBatches(s);
    hide Flatten, BatchesOf, Requests;
  }

  lemma PublishedBatches(s: State)
    requires s.batches != []
    ensures BatchesOf(Requests(TriedPublish(s))) ==
            BatchesOf(Requests(s)) + if |s.queue| < QUEUE_CAPACITY then [s.batches[0]] else []
  {
    hide BatchesOf;
    var requests := Requests(s);
    assert BatchesOf(requests) + [] == BatchesOf(requests);
    BatchesOfOne(requests, Publish(s.batches[0]));
    assert s.log.taken + (s.queue + [Publish(s.batches[0])]) == requests + [Publish(s.batches[0])];
  }

  lemma FlushedConserves(c: Conf, s: State, flush: seq<AggregatedBatch>)
    requires BatchesConserved(s) && s.aggregator.Selecting?
    ensures BatchesConserved(Flushed(c, s, flush))
  {
    hide Flatten, BatchesOf, Cleared;
    FlattenOne(s.log.flushes, flush);
  }

  lemma SendConserves(s: State)
    requires BatchesConserved(s) && s.aggregator.Sending? && s.aggregator.rest != []
    ensures BatchesConserved(Sent(s))
  {
    hide Flatten, BatchesOf;
    Uncons(s.aggregator.rest);
  }

  /** Requests other than batches do not disturb the batches among them. */
  lemma BatchesAmongRequests(c: Conf, s: State, a: Action)
    requires Enabled(c, s, a) && !a.TryPublish?
    ensures BatchesOf(Requests(Next(c, s, a))) == BatchesOf(Requests(s))
  {
    hide Next, Enabled, Requests, BatchesOf;
    RequestsGrow(c, s, a);
    var requests, done := Requests(s), BatchesOf(Requests(s));
    assert requests + [] == requests && done + [] == done;
    BatchesOfOne(requests, Offline);
    BatchesOfOne(requests, Disconnect);
    BatchesOfOne(requests, Online);
  }

  lemma StepBatches(c: Conf, s: State, a: Action)
    requires BatchesConserved(s) && Enabled(c, s, a)
    ensures BatchesConserved(Next(c, s, a))
  {
    if a.TryPublish? {
      hide BatchesConserved, TriedPublish;
      PublishConserves(s);
    } else if a.Tick? {
      hide BatchesConserved, Flushed, IsFlush;
      FlushedConserves(c, s, a.flush);
    } else if a.Send? {
      hide BatchesConserved, Sent;
      SendConserves(s);
    } else {
      hide Next, Enabled, Flatten, BatchesOf, Requests, Rest;
      BatchesFrame(c, s, a);
      BatchesAmongRequests(c, s, a);
    }
  }

  lemma StepWindows(c: Conf, s: State, a: Action)
    requires WindowsEmitted(c, s) && Refined(c, s) && Enabled(c, s, a)
    ensures WindowsEmitted(c, Next(c, s, a))
  {
    hide IsFlush, Recorded, Cleared, AggOf, EmittedFor, AllDead, Aborted, Stopped;
    assert EmittedFor(c.units, s.log.windows, s.log.ends, c.window, s.log.flushes);
    if a.Tick? {
      EmittedShape(c, s);
      OneMoreWindow(c.units, s.log.windows, s.log.ends, c.window, s.log.flushes, s.log.live, a.flush);
    }
  }

  lemma StepAligned(c: Conf, s: State, a: Action)
    requires Aligned(c, s) && Enabled(c, s, a)
    ensures Aligned(c, Next(c, s, a))
  {
    hide IsFlush, Recorded, Cleared, AllDead, Aborted, Stopped;
    if a.Rearm? {
      NextMultiple(s.windowEnd, c.window);
      assert (s.windowEnd + c.window) * NANOS == s.windowEnd * NANOS + c.window * NANOS;
    }
  }

  lemma EmittedShape(c: Conf, s: State)
    requires EmittedFor(c.units, s.log.windows, s.log.ends, c.window, s.log.flushes)
    ensures |s.log.flushes| == |s.log.ends| - 1
  {
  }

  lemma OrderedAppend(a: seq<AggregatedBatch>, b: seq<AggregatedBatch>, start: int)
    requires Ordered(a) && DevicesDistinct(b)
    requires (forall x :: x in a ==> x.windowStart < start) && forall x :: x in b ==> x.windowStart == start
    ensures Ordered(a + b)
  {
    var all := a + b;
    forall i, j | 0 <= i < j < |all| && all[i].deviceId == all[j].deviceId
      ensures all[i].windowStart < all[j].windowStart
    {
      if i < |a| && j >= |a| {
        assert a[i] in a && b[j - |a|] in b;
      }
    }
  }

  lemma OrderedWithout(a: seq<AggregatedBatch>, x: AggregatedBatch, b: seq<AggregatedBatch>)
    requires Ordered(a + [x] + b)
    ensures Ordered(a + b)
    ensures forall y :: y in a + b ==> y in a + [x] + b
  {
    var all := a + [x] + b;
    forall i, j | 0 <= i < j < |a + b| && (a + b)[i].deviceId == (a + b)[j].deviceId
      ensures (a + b)[i].windowStart < (a + b)[j].windowStart
    {
      var i', j' := if i < |a| then i else i + 1, if j < |a| then j else j + 1;
      assert all[i'] == (a + b)[i] && all[j'] == (a + b)[j];
    }
  }

  lemma Regroup<T>(a: seq<T>, x: T, b: seq<T>, d: seq<T>)
    ensures a + ([x] + b) + d == a + [x] + (b + d) && (a + [x]) + b + d == a + [x] + (b + d) && a + b + d == a + (b + d)
  {
  }

  lemma PipeOnPublish(s: State)
    requires s.batches != []
    ensures var done, later := BatchesOf(Requests(s)), s.batches[1..] + Rest(s);
      && Pipe(s) == done + [s.batches[0]] + later
      && Pipe(TriedPublish(s)) == if |s.queue| < QUEUE_CAPACITY then done + [s.batches[0]] + later else done + later
  {
    Uncons(s.batches);
    PublishedBatches(s);
    Regroup(BatchesOf(Requests(s)), s.batches[0], s.batches[1..], Rest(s));
    hide BatchesOf, Requests;
    assert BatchesOf(Requests(s)) + [] == BatchesOf(Requests(s));
  }

  lemma PipeOnSend(s: State)
    requires s.aggregator.Sending? && s.aggregator.rest != []
    ensures Pipe(Sent(s)) == Pipe(s)
  {
    hide BatchesOf;
    Uncons(s.aggregator.rest);
  }

  lemma PipeOnFlush(c: Conf, s: State, flush: seq<AggregatedBatch>)
    requires s.aggregator.Selecting?
    ensures Pipe(Flushed(c, s, flush)) == Pipe(s) + flush
  {
    hide BatchesOf, Cleared;
    assert BatchesOf(Requests(s)) + s.batches + [] == BatchesOf(Requests(s)) + s.batches;
  }

  /** How a step changes the batches on their way: not at all, by a flush appended, or by one dropped at a full queue. */
  lemma PipeStep(c: Conf, s: State, a: Action)
    requires Enabled(c, s, a)
    ensures var s' := Next(c, s, a);
      && (a.Tick? ==> Pipe(s') == Pipe(s) + a.flush)
      && (!a.Tick? && !a.TryPublish? ==> Pipe(s') == Pipe(s))
  {
    if a.TryPublish? {
    } else if a.Tick? {
      hide Pipe, Flushed, IsFlush;
      PipeOnFlush(c, s, a.flush);
    } else if a.Send? {
      hide Pipe, Sent;
      PipeOnSend(s);
    } else {
      hide Next, Enabled, BatchesOf, Requests, Rest;
      BatchesFrame(c, s, a);
      BatchesAmongRequests(c, s, a);
    }
  }

  lemma StepOrder(c: Conf, s: State, a: Action)
    requires PipeOrdered(c, s) && Enabled(c, s, a) && c.window > 0
    ensures PipeOrdered(c, Next(c, s, a))
  {
    hide Recorded, Cleared, BatchesOf, Requests, Pipe, Ordered, IsFlush, AllDead;
    PipeStep(c, s, a);
    if a.Tick? {
      FlushShape(s.agg, s.windowEnd - c.window, s.windowEnd, a.flush);
      OrderedAppend(Pipe(s), a.flush, s.windowEnd - c.window);
    } else if a.TryPublish? {
      PipeOnPublish(s);
      OrderedWithout(BatchesOf(Requests(s)), s.batches[0], s.batches[1..] + Rest(s));
    }
  }

  lemma FlushShape(agg: Accumulators, start: int, end: int, flush: seq<AggregatedBatch>)
    requires IsFlush(agg, start, end, flush)
    ensures DevicesDistinct(flush) && forall b :: b in flush ==> b.windowStart == start
  {
  }

  lemma PublishedOne(batches: seq<AggregatedBatch>, b: AggregatedBatch)
    ensures Published(batches + [b]) == Published(batches) + [Publish(b)]
  {
  }

  /** The event loop ends only by writing the disconnect. */
  lemma LoopEndsByDisconnect(c: Conf, s: State, a: Action)
    requires Enabled(c, s, a) && (s.loopDone ==> Disconnect in s.log.taken)
    ensures var s' := Next(c, s, a); s'.loopDone ==> Disconnect in s'.log.taken
  {
    hide IsFlush, Recorded, Cleared, AllDead, Aborted, Stopped;
  }

  /** What an action makes the publisher request. */
  lemma FarewellStep(c: Conf, s: State, a: Action)
    requires Enabled(c, s, a)
    ensures Farewell(Next(c, s, a).publisher) == Farewell(s.publisher) + match a
      case PublishOffline => [Offline]
      case PublishDisconnect => [Disconnect]
      case _ => []
    ensures a.TryPublish? || a.PublishOffline? ==> Farewell(s.publisher) == []
    ensures a.TryPublish? ==> s.batches != []
  {
    hide IsFlush, Recorded, Cleared, AllDead, Aborted, Stopped;
  }

  lemma StepFarewell(c: Conf, s: State, a: Action)
    requires FarewellLast(s) && Enabled(c, s, a)
    ensures FarewellLast(Next(c, s, a))
  {
    hide Enabled, Next, BatchesOf, Own, Requests, Published, Farewell;
    LoopEndsByDisconnect(c, s, a);
    RequestsGrow(c, s, a);
    FarewellStep(c, s, a);
    var requests, batches, farewell := Requests(s), BatchesOf(Requests(s)), Farewell(s.publisher);
    assert requests + [] == requests && batches + [] == batches && farewell + [] == farewell;
    var published := Published(batches);
    assert published + [] == published && Own(requests) + [] == Own(requests);
    match a {
      case TryPublish =>
        BatchesOfOne(requests, Publish(s.batches[0]));
        PublishedOne(batches, s.batches[0]);
        assert (published + [Publish(s.batches[0])]) + [] == published + [Publish(s.batches[0])];
      case PublishOffline =>
        BatchesOfOne(requests, Offline);
        assert (published + farewell) + [Offline] == published + (farewell + [Offline]);
      case PublishDisconnect =>
        BatchesOfOne(requests, Disconnect);
        assert (published + farewell) + [Disconnect] == published + (farewell + [Disconnect]);
      case SendOnline => BatchesOfOne(requests, Online);
      case _ =>
    }
  }

  lemma DeadStayDead(pollers: seq<Poller>)
    requires AllDead(pollers)
    ensures AllDead(Aborted(pollers))
  {
  }

  lemma DeadTakeNoStep(c: Conf, s: State, a: Action)
    requires Enabled(c, s, a) && AllDead(s.pollers)
    ensures !a.Load? && !a.Crash? && !a.Offer? && !a.Park?
  {
  }

  lemma StepPhases(c: Conf, s: State, a: Action)
    requires PhasesAgree(s) && Enabled(c, s, a)
    ensures PhasesAgree(Next(c, s, a))
  {
    if AllDead(s.pollers) {
      DeadTakeNoStep(c, s, a);
      DeadStayDead(s.pollers);
    }
    hide IsFlush, Recorded, Cleared, AllDead, Aborted, Stopped;
  }

  lemma OneAlive(pollers: seq<Poller>)
    requires |pollers| > 0 && forall i :: 0 <= i < |pollers| ==> pollers[i].Awaiting? || pollers[i].Offering?
    ensures !AllDead(pollers)
  {
    assert !pollers[0].Dead?;
  }

  lemma AbortedWindDown(pollers: seq<Poller>)
    requires forall i :: 0 <= i < |pollers| ==> pollers[i].Awaiting? || pollers[i].Offering?
    ensures |Aborted(pollers)| == |pollers|
    ensures forall i :: 0 <= i < |pollers| ==> Aborted(pollers)[i].Dying? || Aborted(pollers)[i].Dead?
  {
  }

  /** No task behind the pollers exits while there is a poller and no shutdown. */
  lemma NoEarlyExit(s: State)
    requires PhasesAgree(s) && PollersAgree(s) && s.main.Running? && (s.aggregator.Exited? || s.publisher.Returned?)
    ensures |s.pollers| == 0
  {
    if |s.pollers| > 0 {
      OneAlive(s.pollers);
    }
  }

  predicate Winding(p: Poller) {
    p.Dying? || p.Dead?
  }

  /** Only the main task turns running pollers into winding ones. */
  lemma PollersKeepSide(c: Conf, s: State, a: Action)
    requires Enabled(c, s, a) && !a.Shutdown? && !a.Fail?
    ensures var s' := Next(c, s, a);
      && |s'.pollers| == |s.pollers|
      && (forall i :: 0 <= i < |s.pollers| ==> Winding(s'.pollers[i]) == Winding(s.pollers[i]))
      && (s'.main == s.main || (s.main.Draining? && s'.main.Done?))
  {
    hide IsFlush, Recorded, Cleared, AllDead;
  }

  lemma StepPollers(c: Conf, s: State, a: Action)
    requires PollersAgree(s) && PhasesAgree(s) && Enabled(c, s, a)
    ensures PollersAgree(Next(c, s, a))
  {
    if a.Shutdown? {
      hide IsFlush, AllDead, Aborted, PhasesAgree;
      AbortedWindDown(s.pollers);
    } else if a.Fail? {
      NoEarlyExit(s);
    } else {
      hide Enabled, Next, AllDead;
      PollersKeepSide(c, s, a);
    }
  }

  lemma StepKeepsInv(c: Conf, s: State, a: Action)
    requires Inv(c, s) && Enabled(c, s, a)
    ensures Inv(c, Next(c, s, a))
  {
    hide *;
    StepKeepsInvUnfolded(c, s, a);
  }

  lemma StepKeepsInvUnfolded(c: Conf, s: State, a: Action)
    requires Inv(c, s) && Enabled(c, s, a)
    ensures Inv(c, Next(c, s, a))
  {
    hide Enabled, Next, WithinCapacity, Refined, ReadingsConserved, IgnoredAreUnknown, BatchesConserved, WindowsEmitted, PipeOrdered,
      FarewellLast, PhasesAgree, PollersAgree;
    StepCapacity(c, s, a);
    StepRefined(c, s, a);
    StepReadings(c, s, a);
    StepBatches(c, s, a);
    StepWindows(c, s, a);
    StepOrder(c, s, a);
    StepFarewell(c, s, a);
    StepPhases(c, s, a);
    StepPollers(c, s, a);
    StepAligned(c, s, a);
  }

  lemma InitRequests(s: State)
    requires s.batches == [] && s.queue == [] && s.log.taken == [] && s.publisher.Receiving? && !s.loopDone && s.aggregator.Selecting?
    ensures BatchesOf(Requests(s)) == [] && FarewellLast(s) && Pipe(s) == []
  {
    assert Published([]) + [] == [];
  }

  lemma InitIsInv(c: Conf, s: State)
    requires Init(c, s)
    ensures Inv(c, s)
  {
    hide AggOf, BatchesOf, Own, FarewellLast, Requests, IsFlush;
    InitRequests(s);
  }

  /** Every reachable state keeps every invariant. */
  lemma {:induction false} RunKeepsInv(c: Conf, states: seq<State>, actions: seq<Action>, k: nat)
    requires IsRun(c, states, actions) && k < |states|
    ensures Inv(c, states[k])
  {
    hide Inv, Enabled, Next;
    if k == 0 {
      InitIsInv(c, states[0]);
    } else {
      RunKeepsInv(c, states, actions, k - 1);
      StepKeepsInv(c, states[k - 1], actions[k - 1]);
    }
  }

  /** Two consecutive states of a run are one action apart. */
  lemma RunStep(c: Conf, states: seq<State>, actions: seq<Action>, k: nat)
    requires IsRun(c, states, actions) && (k < |actions| || k + 1 < |states|)
    ensures k + 1 < |states| == |actions| + 1 && Enabled(c, states[k], actions[k]) && states[k + 1] == Next(c, states[k], actions[k])
  {
    hide Enabled, Next, Init;
  }
}
