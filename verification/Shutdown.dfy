/**
 What every run of the gateway guarantees about its data and its end (src/lib.rs:117-148,
 src/mqtt.rs:107-161): every reading and batch is accounted for, no batch is handed over twice or
 out of order, and draining after a shutdown request ends, whatever the broker does.
 */
module Shutdown {
  import opened Types
  import opened Aggregator
  import opened Pipeline
  import opened Traffic

  // ---------------------------------------------------------------- what reaches the broker

  lemma {:induction false} InFlatten<T>(ss: seq<seq<T>>, x: T) returns (k: nat)
    requires x in Flatten(ss)
    ensures k < |ss| && x in ss[k]
  {
    var n := |ss| - 1;
    if x in ss[n] {
      k := n;
    } else {
      k := InFlatten(ss[..n], x);
    }
  }

  /**
   End to end: every value in every batch handed to the MQTT client comes from exactly the readings
   of that point the aggregator received in the window the batch is labelled with: their sum over
   their 32-bit count, which is their mean iff the count did not wrap or the sum is zero.
   */
  lemma HandedOverIsMeasured(c: Conf, states: seq<State>, actions: seq<Action>, k: nat, b: AggregatedBatch, p: AggregatedPoint)
    returns (w: nat)
    requires IsRun(c, states, actions) && k < |states|
    requires b in BatchesOf(Requests(states[k])) && p in b.points
    ensures var log := states[k].log;
      && w < |log.windows| && w < |log.ends| && b.windowEnd == log.ends[w] && b.windowStart == b.windowEnd - c.window
      && var id := PointId(b.deviceId, p.name);
         var vs := Values(log.windows[w], id);
         && IsSampledMean(c.units, log.windows[w], id, p)
         && vs != [] && (p.mean == Mean(vs) <==> |vs| < COUNT_MODULUS || Sum(vs) == 0.0)
  {
    hide AggOf, IsSampledMean, BatchesOf, Flatten, Requests, Next, Enabled, Values, Sum, Mean;
    RunKeepsInv(c, states, actions, k);
    var s := states[k];
    BatchIsEmitted(s, b);
    w := InFlatten(s.log.flushes, b);
    FlushIsGroupedMeans(c.units, s.log.windows[w], s.log.ends[w] - c.window, s.log.ends[w], s.log.flushes[w]);
    assert Appears(s.log.flushes[w], PointId(b.deviceId, p.name), p);
    SampledMeanExactly(c.units, s.log.windows[w], PointId(b.deviceId, p.name), p);
  }

  lemma BatchIsEmitted(s: State, b: AggregatedBatch)
    requires BatchesConserved(s) && b in BatchesOf(Requests(s))
    ensures b in Flatten(s.log.flushes)
  {
    hide BatchesOf, Flatten, Requests, Rest;
    assert b in multiset(BatchesOf(Requests(s)));
    assert b in multiset(Flatten(s.log.flushes));
  }

  /** Windows tile time: the k-th ends k windows after the first, on a multiple of the window. */
  lemma {:induction false} WindowLabels(c: Conf, states: seq<State>, actions: seq<Action>, k: nat, w: nat)
    requires IsRun(c, states, actions) && k < |states| && w < |states[k].log.ends|
    ensures states[k].log.ends[w] == states[0].windowEnd + w * c.window
    ensures states[k].log.ends[w] % c.window == 0
  {
    hide EmittedFor, AggOf, BatchesOf, Flatten, Next, Enabled, Own, IsFlush;
    FirstEnd(c, states, actions, k);
    RunKeepsInv(c, states, actions, k);
    TilesOf(c, states[k]);
    TilesAligned(states[k].log.ends, c.window, w);
  }

  lemma TilesOf(c: Conf, s: State)
    requires WindowsEmitted(c, s)
    ensures Tiles(s.log.ends, c.window)
  {
  }

  lemma {:induction false} TilesAligned(ends: seq<int>, window: nat, w: nat)
    requires window > 0 && Tiles(ends, window) && w < |ends| && ends[0] % window == 0
    ensures ends[w] == ends[0] + w * window && ends[w] % window == 0
  {
    if w > 0 {
      TilesAligned(ends, window, w - 1);
      assert ends[w] == ends[w - 1] + window;
      assert w * window == (w - 1) * window + window;
      NextMultiple(ends[w - 1], window);
    }
  }

  lemma EndsGrow(c: Conf, s: State, a: Action)
    requires Enabled(c, s, a)
    ensures var s' := Next(c, s, a); s.log.ends <= s'.log.ends
  {
    hide IsFlush, AllDead, Recorded, Cleared, Aborted, Stopped;
  }

  lemma {:induction false} FirstEnd(c: Conf, states: seq<State>, actions: seq<Action>, k: nat)
    requires IsRun(c, states, actions) && k < |states|
    ensures |states[k].log.ends| > 0 && states[k].log.ends[0] == states[0].windowEnd
  {
    hide Enabled, Next, IsRun, Init;
    if k == 0 {
      RunStarts(c, states, actions);
    } else {
      FirstEnd(c, states, actions, k - 1);
      RunStep(c, states, actions, k - 1);
      EndsGrow(c, states[k - 1], actions[k - 1]);
    }
  }

  lemma RunStarts(c: Conf, states: seq<State>, actions: seq<Action>)
    requires IsRun(c, states, actions)
    ensures |states| == |actions| + 1 && states[0].log.ends == [states[0].windowEnd]
  {
    hide Enabled, Next, AggOf;
  }

  /** No window is closed before its end has passed on a wall clock that keeps its offset to the monotonic one. */
  lemma NoEarlyTick(c: Conf, s: State, flush: seq<AggregatedBatch>)
    requires Inv(c, s) && Enabled(c, s, Tick(flush))
    ensures s.now - c.offset >= s.windowEnd * NANOS
    ensures forall b :: b in flush ==> b.windowEnd == s.windowEnd
  {
  }

  // ---------------------------------------------------------------- requests in order

  lemma {:induction false} OwnSplits(a: seq<Request>, b: seq<Request>)
    ensures Own(a + b) == Own(a) + Own(b)
    ensures BatchesOf(a + b) == BatchesOf(a) + BatchesOf(b)
  {
    if b == [] {
      assert a + b == a;
    } else {
      var init, last := b[..|b| - 1], b[|b| - 1];
      OwnSplits(a, init);
      assert a + b == (a + init) + [last] && b == init + [last];
      BatchesOfOne(a + init, last);
      BatchesOfOne(init, last);
    }
  }

  lemma {:induction false} OwnHolds(requests: seq<Request>, r: Request)
    requires !r.Online?
    ensures r in requests <==> r in Own(requests)
  {
    if requests != [] {
      var init, last := requests[..|requests| - 1], requests[|requests| - 1];
      assert requests == init + [last];
      OwnHolds(init, r);
    }
  }

  /** Once the disconnect was handed over, everything the publisher ever requested was. */
  lemma DisconnectIsLast(taken: seq<Request>, queue: seq<Request>, batches: seq<AggregatedBatch>, p: PublisherPhase)
    requires Own(taken + queue) == Published(batches) + Farewell(p)
    requires Disconnect in taken
    ensures Farewell(p) == [Offline, Disconnect] && Own(queue) == [] && Own(taken) == Published(batches) + [Offline, Disconnect]
  {
    OwnSplits(taken, queue);
    OwnHolds(taken, Disconnect);
    hide Own;
    var all := Published(batches) + Farewell(p);
    var i :| 0 <= i < |Own(taken)| && Own(taken)[i] == Disconnect;
    assert all[i] == Disconnect;
    if Own(queue) == [] {
      assert Own(taken) + [] == Own(taken);
    } else {
      assert i < |all| - 1;
      OnlyLastIsDisconnect(batches, p, i);
      assert false;
    }
  }

  lemma OnlyLastIsDisconnect(batches: seq<AggregatedBatch>, p: PublisherPhase, i: nat)
    requires i < |Published(batches) + Farewell(p)| && (Published(batches) + Farewell(p))[i] == Disconnect
    ensures i == |Published(batches) + Farewell(p)| - 1
  {
  }

  lemma {:induction false} NoOwnNoBatches(requests: seq<Request>)
    requires Own(requests) == []
    ensures BatchesOf(requests) == []
  {
    if requests != [] {
      NoOwnNoBatches(requests[..|requests| - 1]);
    }
  }

  /** Each device's batches reach the broker's queue once, with strictly increasing windows, despite drops. */
  lemma HandedOverInOrder(c: Conf, states: seq<State>, actions: seq<Action>, k: nat)
    requires IsRun(c, states, actions) && k < |states|
    ensures Ordered(BatchesOf(states[k].log.taken)) && Ordered(BatchesOf(Requests(states[k])))
  {
    hide Inv, Enabled, Next, BatchesOf, Ordered;
    RunKeepsInv(c, states, actions, k);
    var s := states[k];
    PipeIsOrdered(c, s);
    OwnSplits(s.log.taken, s.queue);
    assert Pipe(s) == BatchesOf(Requests(s)) + (s.batches + Rest(s));
    OrderedPrefix(BatchesOf(Requests(s)), s.batches + Rest(s));
    OrderedPrefix(BatchesOf(s.log.taken), BatchesOf(s.queue));
  }

  lemma PipeIsOrdered(c: Conf, s: State)
    requires Inv(c, s)
    ensures Ordered(Pipe(s))
  {
  }

  lemma OrderedPrefix(a: seq<AggregatedBatch>, b: seq<AggregatedBatch>)
    requires Ordered(a + b)
    ensures Ordered(a)
  {
    forall i, j | 0 <= i < j < |a| && a[i].deviceId == a[j].deviceId ensures a[i].windowStart < a[j].windowStart {
      assert (a + b)[i] == a[i] && (a + b)[j] == a[j];
    }
  }

  // ---------------------------------------------------------------- how a run ends

  /**
   At every point of every run, whether it goes on, ended or was given up: each reading offered
   and each batch flushed is in exactly one place, and exactly the readings of unknown points
   are ignored among those received.
   */
  lemma NothingVanishes(c: Conf, states: seq<State>, actions: seq<Action>, k: nat)
    requires IsRun(c, states, actions) && k < |states|
    ensures var s := states[k]; var log := s.log;
      && multiset(log.offered) ==
         multiset(log.dropped) + multiset(s.readings) + multiset(log.ignored) + multiset(log.live) + multiset(Flatten(log.windows))
      && multiset(Flatten(log.flushes)) ==
         multiset(Rest(s)) + multiset(s.batches) + multiset(BatchesOf(s.queue)) + multiset(BatchesOf(log.taken)) + multiset(log.droppedBatches)
      && (forall r :: r in log.ignored ==> r.pointId !in c.units)
      && (forall r :: r in log.live || r in Flatten(log.windows) ==> r.pointId in c.units)
  {
    hide BatchesOf, Own, Flatten, WindowsEmitted, PipeOrdered, Ordered, FarewellLast, AggOf, Enabled, Next, IsRun;
    RunKeepsInv(c, states, actions, k);
    var s := states[k];
    OwnSplits(s.log.taken, s.queue);
    forall r | r in Flatten(s.log.windows) ensures r.pointId in c.units {
      var w := InFlatten(s.log.windows, r);
      assert AllKnown(c, s.log.windows[w]);
    }
  }

  /**
   A clean end: every reading offered was dropped, unknown, received in exactly one flushed window,
   or lost with the partial one; every batch flushed was handed to the MQTT client or dropped;
   "offline" then the disconnect came last. What was dropped is what the actions offered to a full
   channel or queue, and all else that was offered was received, in order.
   */
  lemma CleanExit(c: Conf, states: seq<State>, actions: seq<Action>, k: nat)
    requires IsRun(c, states, actions) && k < |states| && states[k].main == Done(true)
    ensures k <= |actions|
    ensures var log := states[k].log;
      && multiset(log.offered) == multiset(log.dropped) + multiset(log.ignored) + multiset(log.live) + multiset(Flatten(log.windows))
      && multiset(Flatten(log.flushes)) == multiset(BatchesOf(log.taken)) + multiset(log.droppedBatches)
      && Own(log.taken) == Published(BatchesOf(log.taken)) + [Offline, Disconnect]
    ensures var n, log := NotesOf(c, states, actions, k), states[k].log;
      && log.offered == n.offered && log.dropped == n.dropped && log.droppedBatches == n.droppedBatches
      && n.received == n.accepted && n.windows == log.windows && n.current == log.live && n.unknown == log.ignored
      && BatchesOf(log.taken) == n.queued && n.tried == Flatten(log.flushes)
  {
    hide *;
    CleanAccount(c, states, actions, k);
    CleanNotes(c, states, actions, k);
  }

  lemma CleanAccount(c: Conf, states: seq<State>, actions: seq<Action>, k: nat)
    requires IsRun(c, states, actions) && k < |states| && states[k].main == Done(true)
    ensures var s := states[k]; var log := s.log;
      && multiset(log.offered) == multiset(log.dropped) + multiset(log.ignored) + multiset(log.live) + multiset(Flatten(log.windows))
      && multiset(Flatten(log.flushes)) == multiset(BatchesOf(log.taken)) + multiset(log.droppedBatches)
      && Own(log.taken) == Published(BatchesOf(log.taken)) + [Offline, Disconnect]
      && BatchesOf(Requests(s)) == BatchesOf(log.taken)
  {
    hide BatchesOf, Own, Flatten, Published, Refined, WindowsEmitted, PipeOrdered, Ordered, Enabled, Next, IsRun;
    RunKeepsInv(c, states, actions, k);
    var s := states[k];
    hide Requests;
    FarewellFacts(s);
    OwnSplits(s.log.taken, s.queue);
    NoOwnNoBatches(s.queue);
    assert BatchesOf(s.log.taken) + [] == BatchesOf(s.log.taken);
  }

  lemma CleanNotes(c: Conf, states: seq<State>, actions: seq<Action>, k: nat)
    requires IsRun(c, states, actions) && k < |states| && states[k].main == Done(true)
    ensures k <= |actions|
    ensures var n, s := NotesOf(c, states, actions, k), states[k];
      && s.log.offered == n.offered && s.log.dropped == n.dropped && s.log.droppedBatches == n.droppedBatches
      && n.received == n.accepted && n.windows == s.log.windows && n.current == s.log.live && n.unknown == s.log.ignored
      && BatchesOf(Requests(s)) == n.queued && n.tried == Flatten(s.log.flushes)
  {
    hide BatchesOf, Own, Flatten, Published, Refined, WindowsEmitted, PipeOrdered, Ordered, Enabled, Next, Requests, LoadsTold, LinkTold, NotesOf;
    RunTold(c, states, actions, k);
    RunKeepsInv(c, states, actions, k);
    var n, s := NotesOf(c, states, actions, k), states[k];
    assert n.received + [] == n.received && n.tried + [] == n.tried && n.sent + [] == n.sent;
  }

  lemma FarewellFacts(s: State)
    requires FarewellLast(s) && s.loopDone
    ensures Requests(s) == s.log.taken + s.queue && Own(s.queue) == []
    ensures Own(s.log.taken) == Published(BatchesOf(Requests(s))) + [Offline, Disconnect]
    ensures !s.publisher.Receiving? && !s.publisher.SendingOffline? && !s.publisher.SendingDisconnect?
  {
    hide Own, BatchesOf, Published;
    DisconnectIsLast(s.log.taken, s.queue, BatchesOf(Requests(s)), s.publisher);
  }

  /**
   Draining ends after at most the grace period, and is given up only when all of it has passed.
   This rests on the grace timer being served in time: `Elapse` does not pass `graceEnd`.
   */
  lemma {:induction false} WithinGrace(c: Conf, states: seq<State>, actions: seq<Action>, j: nat, k: nat)
    requires IsRun(c, states, actions) && j < k < |states| && j < |actions| && actions[j].Shutdown?
    ensures var graceEnd := states[j].now + 2_000_000_000;
      && states[k].now <= graceEnd
      && (states[k].main == Draining(graceEnd) || states[k].main == Done(true) || (states[k].main == Done(false) && states[k].now == graceEnd))
  {
    hide IsRun, Next, Enabled;
    RunStep(c, states, actions, k - 1);
    if k == j + 1 {
      GraceStarts(c, states[j], actions[j]);
    } else {
      WithinGrace(c, states, actions, j, k - 1);
      GraceStep(c, states[k - 1], actions[k - 1], states[j].now + SHUTDOWN_GRACE);
    }
  }

  lemma GraceStarts(c: Conf, s: State, a: Action)
    requires Enabled(c, s, a) && a.Shutdown?
    ensures Next(c, s, a).main == Draining(s.now + SHUTDOWN_GRACE) && Next(c, s, a).now == s.now
  {
  }

  lemma GraceStep(c: Conf, s: State, a: Action, graceEnd: int)
    requires Enabled(c, s, a) && s.now <= graceEnd && (s.main == Draining(graceEnd) || s.main.Done?)
    ensures var s' := Next(c, s, a);
      && s'.now <= graceEnd
      && (s'.main == Draining(graceEnd) || s'.main == Done(true) || (s'.main == Done(false) && s'.now == graceEnd))
  {
    hide IsFlush, Recorded, Cleared, AllDead, Aborted, Stopped;
  }

  // ---------------------------------------------------------------- no deadlock

  /** The aggregator's blocking send is never stuck: if the channel is full the publisher can make room at once. */
  lemma SendNeverBlocks(c: Conf, s: State)
    requires Inv(c, s) && !s.main.Done? && !s.main.Failed? && s.aggregator.Sending? && s.aggregator.rest != []
    ensures Enabled(c, s, Send) <==> |s.batches| < 64
    ensures Enabled(c, s, Send) || (Enabled(c, s, TryPublish) && Enabled(c, Next(c, s, TryPublish), Send))
  {
    hide Refined, ReadingsConserved, BatchesConserved, WindowsEmitted, PipeOrdered, FarewellLast, PollersAgree, IgnoredAreUnknown;
  }

  /** Steps the gateway's own tasks take without waiting for time to pass or for the broker. */
  predicate OwnStep(a: Action) {
    match a
    case Offer(_) => true
    case Park(_) => true
    case Receive => true
    case Send => true
    case Rearm => true
    case ExitAggregator => true
    case TryPublish => true
    case InputClosed => true
    case PublishOffline => true
    case PublishDisconnect => true
    case ReturnPublisher => true
    case Finish => true
    case _ => false
  }

  /** Everything upstream is done, and the publisher needs the event loop to take requests. */
  predicate WaitsForBroker(s: State) {
    && s.aggregator.Exited? && !s.loopDone
    && match s.publisher
       case Receiving => false
       case SendingOffline => |s.queue| >= QUEUE_CAPACITY
       case SendingDisconnect => |s.queue| >= QUEUE_CAPACITY
       case AwaitingLoop => true
       case Returned => false
  }

  lemma SomeoneDying(pollers: seq<Poller>) returns (i: nat)
    requires (forall i :: 0 <= i < |pollers| ==> pollers[i].Dying? || pollers[i].Dead?) && !AllDead(pollers)
    ensures i < |pollers| && pollers[i].Dying?
  {
    i :| 0 <= i < |pollers| && !pollers[i].Dead?;
  }

  /** A step that is enabled while draining, as long as the broker is not what is waited for. */
  lemma OwnStepEnabled(c: Conf, s: State) returns (a: Action)
    requires Inv(c, s) && s.main.Draining? && !WaitsForBroker(s)
    ensures OwnStep(a) && Enabled(c, s, a)
  {
    hide Refined, ReadingsConserved, BatchesConserved, WindowsEmitted, PipeOrdered, Ordered, FarewellLast, IgnoredAreUnknown, AllDead;
    if s.loopDone {
      FarewellFacts(s);
    }
    match s.aggregator {
      case Selecting =>
        if s.readings != [] {
          a := Receive;
        } else if AllDead(s.pollers) {
          a := ExitAggregator;
        } else {
          var i := SomeoneDying(s.pollers);
          a := if s.pollers[i].rest == [] then Park(i) else Offer(i);
        }
      case Sending(rest) =>
        if rest == [] {
          a := Rearm;
        } else if |s.batches| < BATCH_CAPACITY {
          a := Send;
        } else {
          a := TryPublish;
        }
      case Exited =>
        match s.publisher {
          case Receiving => a := if s.batches != [] then TryPublish else InputClosed;
          case SendingOffline => a := PublishOffline;
          case SendingDisconnect => a := PublishDisconnect;
          case AwaitingLoop => a := ReturnPublisher;
          case Returned => a := Finish;
        }
    }
  }

  /** While draining, the gateway's tasks are stuck exactly when only the broker can move on. */
  lemma StuckOnlyOnBroker(c: Conf, s: State)
    requires Inv(c, s) && s.main.Draining?
    ensures (exists a :: OwnStep(a) && Enabled(c, s, a)) <==> !WaitsForBroker(s)
  {
    if WaitsForBroker(s) {
      forall a | OwnStep(a) ensures !Enabled(c, s, a) {
        WaitingIsStuck(c, s, a);
      }
    } else {
      var a := OwnStepEnabled(c, s);
    }
  }

  lemma WaitingIsStuck(c: Conf, s: State, a: Action)
    requires Inv(c, s) && s.main.Draining? && WaitsForBroker(s) && OwnStep(a)
    ensures !Enabled(c, s, a)
  {
    hide Refined, ReadingsConserved, BatchesConserved, WindowsEmitted, PipeOrdered, Ordered, FarewellLast, IgnoredAreUnknown;
  }

  /** Draining itself is never stuck: at worst time passes until the grace period ends it. */
  lemma AlwaysAStep(c: Conf, s: State)
    requires Inv(c, s) && s.main.Draining?
    ensures exists a :: Enabled(c, s, a)
  {
    hide Refined, ReadingsConserved, BatchesConserved, WindowsEmitted, PipeOrdered, Ordered, FarewellLast, IgnoredAreUnknown, AllDead;
    var a := if s.now < s.main.graceEnd then Elapse(1) else if Finished(s) then Finish else GiveUp;
    assert Enabled(c, s, a);
  }

  // ---------------------------------------------------------------- termination

  function PollerWork(p: Poller): nat {
    if p.Offering? || p.Dying? then |p.rest| + 1 else 0
  }

  function Work(pollers: seq<Poller>): nat {
    if pollers == [] then 0 else Work(pollers[..|pollers| - 1]) + PollerWork(pollers[|pollers| - 1])
  }

  lemma {:induction false} WorkAt(pollers: seq<Poller>, i: nat, p: Poller)
    requires i < |pollers|
    ensures Work(pollers[i := p]) + PollerWork(pollers[i]) == Work(pollers) + PollerWork(p)
  {
    var n := |pollers| - 1;
    if i == n {
      assert pollers[i := p][..n] == pollers[..n];
    } else {
      assert pollers[i := p][..n] == pollers[..n][i := p];
      WorkAt(pollers[..n], i, p);
    }
  }

  /** How far the clock is past the next tick to come. */
  function Overdue(c: Conf, s: State): nat {
    var due := s.deadline + if s.aggregator.Sending? then c.window * NANOS else 0;
    if s.now >= due then s.now - due + 1 else 0
  }

  function PublisherRank(p: PublisherPhase): nat {
    match p
    case Receiving => 4
    case SendingOffline => 3
    case SendingDisconnect => 2
    case AwaitingLoop => 1
    case Returned => 0
  }

  function LinkRank(link: Link, now: int): nat {
    match link
    case Down(until) => if now >= until then 3 else 0
    case Connecting => 2
    case Up => 1
  }

  /** What is left to do, most significant part first. */
  datatype Remaining = Remaining(
    grace: nat, work: nat, overdue: nat, readings: nat, sending: nat, batches: nat, link: nat, online: nat, queue: nat)

  function Left(c: Conf, s: State): Remaining
    requires s.main.Draining? && s.now <= s.main.graceEnd
  {
    Remaining(
      s.main.graceEnd - s.now,
      Work(s.pollers),
      Overdue(c, s),
      |s.readings| + if s.aggregator.Exited? then 0 else 1,
      if s.aggregator.Sending? then |s.aggregator.rest| + 1 else 0,
      |s.batches| + PublisherRank(s.publisher),
      LinkRank(s.link, s.now),
      s.onlineTasks,
      |s.queue|)
  }

  predicate Smaller(a: Remaining, b: Remaining) {
    a.grace < b.grace || (a.grace == b.grace && (
      a.work < b.work || (a.work == b.work && (
        a.overdue < b.overdue || (a.overdue == b.overdue && (
          a.readings < b.readings || (a.readings == b.readings && (
            a.sending < b.sending || (a.sending == b.sending && (
              a.batches < b.batches || (a.batches == b.batches && (
                a.link < b.link || (a.link == b.link && (
                  a.online < b.online || (a.online == b.online && a.queue < b.queue)))))))))))))))
  }

  predicate PollerStep(a: Action) {
    a.Crash? || a.Park? || a.Offer?
  }

  lemma PollerProgresses(c: Conf, s: State, a: Action)
    requires PollerStep(a) && Enabled(c, s, a)
    ensures var s' := Next(c, s, a); Work(s'.pollers) < Work(s.pollers) && s'.main == s.main && s'.now == s.now
  {
    hide AllDead, IsFlush, Work;
    var p := s.pollers[a.poller];
    WorkAt(s.pollers, a.poller, if a.Offer? then p.(rest := p.rest[1..]) else Stopped(p));
  }

  /** Every step while draining ends the run or leaves less to do. */
  lemma StepProgresses(c: Conf, s: State, a: Action)
    requires s.main.Draining? && s.now <= s.main.graceEnd && c.window > 0 && Enabled(c, s, a)
    ensures var s' := Next(c, s, a);
      s'.main.Done? || (s'.main == s.main && s'.now <= s'.main.graceEnd && Smaller(Left(c, s'), Left(c, s)))
  {
    hide IsFlush, Recorded, Cleared, AllDead, Work;
    if PollerStep(a) {
      hide Next, Enabled;
      PollerProgresses(c, s, a);
    }
  }

  /** The state after `n` steps of a schedule; an action that is not enabled does nothing. */
  ghost function Follow(c: Conf, s: State, acts: int -> Action, n: nat): State {
    if n == 0 then s
    else
      var t := Follow(c, s, acts, n - 1);
      if Enabled(c, t, acts(n - 1)) then Next(c, t, acts(n - 1)) else t
  }

  lemma {:induction false} EndsFrom(c: Conf, s: State, acts: int -> Action, k: nat, left: Remaining) returns (n: nat)
    requires c.window > 0
    requires var t := Follow(c, s, acts, k); t.main.Draining? && t.now <= t.main.graceEnd && left == Left(c, t)
    ensures n >= k && (Follow(c, s, acts, n).main.Done? || !Enabled(c, Follow(c, s, acts, n), acts(n)))
    decreases left.grace, left.work, left.overdue, left.readings, left.sending, left.batches, left.link, left.online, left.queue
  {
    hide Enabled, Next, Left;
    var t := Follow(c, s, acts, k);
    if !Enabled(c, t, acts(k)) {
      n := k;
    } else {
      StepProgresses(c, t, acts(k));
      var t' := Follow(c, s, acts, k + 1);
      assert t' == Next(c, t, acts(k));
      if t'.main.Done? {
        n := k + 1;
      } else {
        n := EndsFrom(c, s, acts, k + 1, Left(c, t'));
      }
    }
  }

  /**
   Once a shutdown was requested the run ends, whatever the other tasks, the broker and the
   clock do: a schedule that only takes enabled steps reaches the end after finitely many.
   */
  lemma ShutdownEnds(c: Conf, s: State, acts: int -> Action) returns (n: nat)
    requires Inv(c, s) && s.main.Draining?
    requires forall k: nat :: !Follow(c, s, acts, k).main.Done? ==> Enabled(c, Follow(c, s, acts, k), acts(k))
    ensures Follow(c, s, acts, n).main.Done?
  {
    hide Refined, ReadingsConserved, BatchesConserved, WindowsEmitted, PipeOrdered, FarewellLast, IgnoredAreUnknown, Enabled, Next, Left;
    n := EndsFrom(c, s, acts, 0, Left(c, s));
  }

  // ---------------------------------------------------------------- with a broker that keeps up

  /** Neither time passes nor the connection fails. */
  predicate Healthy(a: Action) {
    !a.Elapse? && !a.LinkError? && !a.TakeFailed?
  }

  /** The event loop is connected and has not lost the disconnect. */
  ghost predicate Serving(s: State) {
    s.link.Up? && (Disconnect in s.log.taken ==> s.loopDone)
  }

  ghost predicate DrainingInTime(c: Conf, s: State) {
    Inv(c, s) && Serving(s) && s.main.Draining? && s.now < s.main.graceEnd
  }

  /** A healthy step is always at hand: the gateway's own, or the event loop taking a request. */
  lemma HealthyStepEnabled(c: Conf, s: State) returns (a: Action)
    requires DrainingInTime(c, s)
    ensures Healthy(a) && Enabled(c, s, a)
  {
    hide Refined, ReadingsConserved, BatchesConserved, WindowsEmitted, PipeOrdered, Ordered, IgnoredAreUnknown, AllDead, PollersAgree, Own;
    if WaitsForBroker(s) {
      if s.publisher.AwaitingLoop? {
        DisconnectQueued(s);
      }
      a := Take;
    } else {
      a := OwnStepEnabled(c, s);
    }
  }

  lemma DisconnectQueued(s: State)
    requires FarewellLast(s) && s.publisher.AwaitingLoop? && Disconnect !in s.log.taken
    ensures s.queue != []
  {
    hide Own, BatchesOf, Published;
    var own, published := Own(Requests(s)), Published(BatchesOf(Requests(s)));
    assert own[|published| + 1] == Disconnect;
    OwnHolds(Requests(s), Disconnect);
  }

  lemma HealthyKeepsServing(c: Conf, s: State, a: Action)
    requires DrainingInTime(c, s) && Enabled(c, s, a) && Healthy(a)
    ensures Next(c, s, a).main == Done(true) || DrainingInTime(c, Next(c, s, a))
  {
    StepKeepsInv(c, s, a);
    hide Inv;
    ServingStep(c, s, a);
  }

  lemma ServingStep(c: Conf, s: State, a: Action)
    requires Serving(s) && s.main.Draining? && s.now < s.main.graceEnd && Enabled(c, s, a) && Healthy(a)
    ensures var s' := Next(c, s, a);
      Serving(s') && s'.now == s.now && (s'.main == s.main || s'.main == Done(true))
  {
    hide IsFlush, Recorded, Cleared, AllDead, Stopped;
  }

  ghost predicate HealthySchedule(c: Conf, s: State, acts: int -> Action) {
    forall k: nat :: !Follow(c, s, acts, k).main.Done? ==> Healthy(acts(k)) && Enabled(c, Follow(c, s, acts, k), acts(k))
  }

  lemma ScheduleAt(c: Conf, s: State, acts: int -> Action, k: nat)
    requires HealthySchedule(c, s, acts)
    ensures var t := Follow(c, s, acts, k); !t.main.Done? ==> Healthy(acts(k)) && Enabled(c, t, acts(k))
  {
    hide Follow, Enabled, Healthy;
  }

  lemma FollowStep(c: Conf, s: State, acts: int -> Action, k: nat)
    ensures var t := Follow(c, s, acts, k);
      Follow(c, s, acts, k + 1) == if Enabled(c, t, acts(k)) then Next(c, t, acts(k)) else t
  {
    hide Enabled, Next;
  }

  lemma {:induction false} HealthyPrefix(c: Conf, s: State, acts: int -> Action, n: nat)
    requires DrainingInTime(c, s) && HealthySchedule(c, s, acts)
    ensures var t := Follow(c, s, acts, n); t.main == Done(true) || DrainingInTime(c, t)
  {
    hide Enabled, Next, DrainingInTime, Healthy, HealthySchedule;
    if n > 0 {
      hide Follow;
      HealthyPrefix(c, s, acts, n - 1);
      FollowStep(c, s, acts, n - 1);
      var t := Follow(c, s, acts, n - 1);
      if t.main == Done(true) {
        DoneIsFinal(c, t, acts(n - 1));
      } else {
        StillDraining(c, t);
        ScheduleAt(c, s, acts, n - 1);
        HealthyKeepsServing(c, t, acts(n - 1));
      }
    }
  }

  lemma DoneIsFinal(c: Conf, s: State, a: Action)
    requires s.main.Done?
    ensures !Enabled(c, s, a)
  {
  }

  lemma StillDraining(c: Conf, s: State)
    requires DrainingInTime(c, s)
    ensures s.main.Draining? && Inv(c, s)
  {
  }

  /**
   With a connected broker that keeps up, a shutdown always ends cleanly: any schedule of healthy
   steps, of which there always is one, drains everything and ends without giving up.
   */
  lemma HealthyShutdownIsClean(c: Conf, s: State, acts: int -> Action) returns (n: nat)
    requires DrainingInTime(c, s) && HealthySchedule(c, s, acts)
    ensures Follow(c, s, acts, n).main == Done(true)
  {
    hide Enabled, Next, DrainingInTime, Healthy, Inv;
    StillDraining(c, s);
    n := ShutdownEnds(c, s, acts);
    HealthyPrefix(c, s, acts, n);
    if Follow(c, s, acts, n).main != Done(true) {
      StillDraining(c, Follow(c, s, acts, n));
    }
  }

  // ---------------------------------------------------------------- unexpected exits

  lemma {:induction false} PollersKept(c: Conf, states: seq<State>, actions: seq<Action>, k: nat)
    requires IsRun(c, states, actions) && k < |states|
    ensures |states[k].pollers| == |states[0].pollers|
  {
    hide Enabled, Next, IsRun;
    if k > 0 {
      PollersKept(c, states, actions, k - 1);
      RunStep(c, states, actions, k - 1);
      OnePollerEach(c, states[k - 1], actions[k - 1]);
    }
  }

  lemma OnePollerEach(c: Conf, s: State, a: Action)
    requires Enabled(c, s, a)
    ensures |Next(c, s, a).pollers| == |s.pollers|
  {
    hide IsFlush, Recorded, Cleared, AllDead;
  }

  ghost predicate FailingRun(c: Conf, s: State, states: seq<State>, actions: seq<Action>) {
    IsRun(c, states, actions) && states[0] == s && states[|actions|].main.Failed?
  }

  /** The gateway can fail on an unexpected task exit if and only if it has no connections at all. */
  lemma FailsOnlyWithoutConnections(c: Conf, s: State)
    requires Init(c, s)
    ensures (exists states, actions: seq<Action> :: FailingRun(c, s, states, actions)) <==> s.pollers == []
  {
    if s.pollers == [] {
      EmptyFails(c, s);
    } else {
      forall states, actions | IsRun(c, states, actions) && states[0] == s ensures !FailingRun(c, s, states, actions) {
        RunKeepsInv(c, states, actions, |actions|);
        PollersKept(c, states, actions, |actions|);
      }
    }
  }

  lemma EmptyFails(c: Conf, s: State)
    requires Init(c, s) && s.pollers == []
    ensures exists states, actions :: FailingRun(c, s, states, actions)
  {
    var exited := s.(aggregator := Exited);
    var failed := exited.(pollers := [], main := Failed);
    assert Next(c, s, ExitAggregator) == exited && Next(c, exited, Fail) == failed;
    var states, actions := [s, exited, failed], [ExitAggregator, Fail];
    assert FailingRun(c, s, states, actions);
  }
}
