/**
 What an observer of the channels sees in a run, action by action, and that the gateway's state
 agrees with it: what is dropped, and when; that channels keep their order; that every reading
 decoded is offered; that each connect asserts "online" once (src/lib.rs:27-32,
 src/modbus/poller.rs:220-235, src/aggregator.rs:80-103, src/mqtt.rs:133-212).
 */
module Traffic {
  import opened Types
  import opened Aggregator
  import opened Pipeline

  /**
   The observer's notes. A reading received goes to `unknown` or to the `current` window, which a tick
   moves to `windows`; `errorAt` is when the link last failed.
   */
  datatype Notes = Notes(
    loaded: seq<Reading>, crashed: seq<Reading>, offered: seq<Reading>, dropped: seq<Reading>, accepted: seq<Reading>,
    received: seq<Reading>, current: seq<Reading>, unknown: seq<Reading>, windows: seq<seq<Reading>>,
    sent: seq<AggregatedBatch>, tried: seq<AggregatedBatch>, queued: seq<AggregatedBatch>, droppedBatches: seq<AggregatedBatch>,
    connects: nat, failedOnline: nat, errorAt: int)

  /** One more action, seen in the state in which it is taken. */
  ghost function Noted(c: Conf, n: Notes, s: State, a: Action): Notes
    requires Enabled(c, s, a)
  {
    match a
    case Load(_, values) => n.(loaded := n.loaded + values)
    case Crash(i) => n.(crashed := n.crashed + s.pollers[i].rest)
    case Offer(i) =>
      var r := s.pollers[i].rest[0];
      if |s.readings| < 1024 then n.(offered := n.offered + [r], accepted := n.accepted + [r])
      else n.(offered := n.offered + [r], dropped := n.dropped + [r])
    case Receive =>
      var r := s.readings[0];
      if r.pointId in c.units then n.(received := n.received + [r], current := n.current + [r])
      else n.(received := n.received + [r], unknown := n.unknown + [r])
    case Tick(_) => n.(windows := n.windows + [n.current], current := [])
    case Send => n.(sent := n.sent + [s.aggregator.rest[0]])
    case TryPublish =>
      var b := s.batches[0];
      if |s.queue| < 100 then n.(tried := n.tried + [b], queued := n.queued + [b])
      else n.(tried := n.tried + [b], droppedBatches := n.droppedBatches + [b])
    case ConnAck => n.(connects := n.connects + 1)
    case FailOnline => n.(failedOnline := n.failedOnline + 1)
    case LinkError => n.(errorAt := s.now)
    case TakeFailed => n.(errorAt := s.now)
    case _ => n
  }

  ghost function NotesOf(c: Conf, states: seq<State>, actions: seq<Action>, k: nat): Notes
    requires IsRun(c, states, actions) && k <= |actions|
  {
    if k == 0 then Notes([], [], [], [], [], [], [], [], [], [], [], [], [], 0, 0, 0)
    else Noted(c, NotesOf(c, states, actions, k - 1), states[k - 1], actions[k - 1])
  }

  // ---------------------------------------------------------------- what the notes say about the state

  function Rests(pollers: seq<Poller>): multiset<Reading> {
    if pollers == [] then multiset{}
    else Rests(pollers[..|pollers| - 1]) + multiset(RestOf(pollers[|pollers| - 1]))
  }

  function RestOf(p: Poller): seq<Reading> {
    if p.Offering? || p.Dying? then p.rest else []
  }

  /** Every reading decoded was offered, is still to be offered by its task, or was lost when its task panicked. */
  ghost predicate LoadsTold(n: Notes, s: State) {
    multiset(n.loaded) == multiset(n.offered) + Rests(s.pollers) + multiset(n.crashed)
  }

  /** Readings are dropped only at a full channel, and leave the channel in the order they entered it. */
  ghost predicate ReadingsTold(n: Notes, s: State) {
    && s.log.offered == n.offered && s.log.dropped == n.dropped
    && n.accepted == n.received + s.readings
  }

  /** A window holds the known readings received since the tick before it, in order. */
  ghost predicate WindowsTold(n: Notes, s: State) {
    s.log.ignored == n.unknown && s.log.windows == n.windows && s.log.live == n.current
  }

  /** Batches are dropped only at a full queue, and pass channel and queue in order. */
  ghost predicate BatchesTold(n: Notes, s: State) {
    && Flatten(s.log.flushes) == n.sent + Rest(s)
    && n.sent == n.tried + s.batches
    && BatchesOf(Requests(s)) == n.queued
    && s.log.droppedBatches == n.droppedBatches
  }

  function CountOnline(requests: seq<Request>): nat {
    if requests == [] then 0
    else CountOnline(requests[..|requests| - 1]) + if requests[|requests| - 1].Online? then 1 else 0
  }

  /** Each connect asks for one "online"; a link that failed stays down for 500 ms. */
  ghost predicate LinkTold(n: Notes, s: State) {
    && CountOnline(Requests(s)) + s.onlineTasks + n.failedOnline == n.connects
    && (s.link.Down? ==> s.link.until == n.errorAt + 500_000_000)
  }

  // ---------------------------------------------------------------- every action keeps them

  lemma AlsoWith(a': multiset<Reading>, x: multiset<Reading>, a: multiset<Reading>, y: multiset<Reading>, z: multiset<Reading>)
    requires a' + x == a + y
    ensures a' + z + x == a + z + y
  {
    assert a' + z + x == (a' + x) + z;
    assert a + z + y == (a + y) + z;
  }

  lemma {:induction false} RestsAt(pollers: seq<Poller>, i: nat, p: Poller)
    requires i < |pollers|
    ensures Rests(pollers[i := p]) + multiset(RestOf(pollers[i])) == Rests(pollers) + multiset(RestOf(p))
  {
    hide RestOf;
    var n := |pollers| - 1;
    if i == n {
      assert pollers[i := p][..n] == pollers[..n];
      AlsoWith(Rests(pollers[..n]), multiset{}, Rests(pollers[..n]), multiset{}, multiset(RestOf(p)) + multiset(RestOf(pollers[n])));
    } else {
      assert pollers[i := p][..n] == pollers[..n][i := p] && pollers[i := p][n] == pollers[n];
      RestsAt(pollers[..n], i, p);
      AlsoWith(Rests(pollers[..n][i := p]), multiset(RestOf(pollers[i])), Rests(pollers[..n]), multiset(RestOf(p)),
               multiset(RestOf(pollers[n])));
    }
  }

  lemma {:induction false} AbortKeepsRests(pollers: seq<Poller>)
    ensures Rests(Aborted(pollers)) == Rests(pollers)
  {
    if pollers != [] {
      var n := |pollers| - 1;
      AbortKeepsRests(pollers[..n]);
      assert Aborted(pollers)[..n] == Aborted(pollers[..n]);
    }
  }

  /** Readings that move between the parts of an account keep its balance. */
  lemma Balance(loaded: multiset<Reading>, offered: multiset<Reading>, rests: multiset<Reading>, crashed: multiset<Reading>,
                held: multiset<Reading>, rests': multiset<Reading>, left: multiset<Reading>,
                more: multiset<Reading>, out: multiset<Reading>, lost: multiset<Reading>)
    requires loaded == offered + rests + crashed
    requires rests' + held == rests + left && held + more == left + out + lost
    ensures loaded + more == (offered + out) + rests' + (crashed + lost)
  {
    forall r: Reading ensures (loaded + more)[r] == ((offered + out) + rests' + (crashed + lost))[r] {
      assert (rests' + held)[r] == (rests + left)[r] && (held + more)[r] == (left + out + lost)[r];
    }
  }

  /** How one poller's step moves its readings: what it loads, offers and loses. */
  lemma PollerMove(c: Conf, s: State, a: Action, n: Notes)
    requires Enabled(c, s, a) && (a.Load? || a.Crash? || a.Park? || a.Offer?)
    ensures a.poller < |s.pollers| && (a.Offer? ==> RestOf(s.pollers[a.poller]) != [])
    ensures var p' := Next(c, s, a).pollers[a.poller]; var p := s.pollers[a.poller]; var n' := Noted(c, n, s, a);
      && Next(c, s, a).pollers == s.pollers[a.poller := p']
      && n'.loaded == n.loaded + (if a.Load? then a.values else [])
      && n'.offered == n.offered + (if a.Offer? then RestOf(p)[..1] else [])
      && n'.crashed == n.crashed + (if a.Crash? then RestOf(p) else [])
      && RestOf(p) + (if a.Load? then a.values else [])
         == (if a.Offer? then RestOf(p)[..1] else []) + (if a.Crash? then RestOf(p) else []) + RestOf(p')
  {
    hide IsFlush, AllDead, Recorded, Cleared, Aborted;
  }

  lemma OtherMoves(c: Conf, s: State, a: Action, n: Notes)
    requires Enabled(c, s, a) && !a.Load? && !a.Crash? && !a.Park? && !a.Offer?
    ensures var s', n' := Next(c, s, a), Noted(c, n, s, a);
      && (s'.pollers == s.pollers || s'.pollers == Aborted(s.pollers))
      && n'.loaded == n.loaded && n'.offered == n.offered && n'.crashed == n.crashed
  {
    hide IsFlush, AllDead, Recorded, Cleared, Aborted;
  }

  lemma LoadsBalance(n: Notes, s: State)
    ensures LoadsTold(n, s) <==> multiset(n.loaded) == multiset(n.offered) + Rests(s.pollers) + multiset(n.crashed)
  {
  }

  lemma LoadStep(c: Conf, s: State, a: Action, n: Notes)
    requires Enabled(c, s, a) && LoadsTold(n, s)
    ensures LoadsTold(Noted(c, n, s, a), Next(c, s, a))
  {
    hide Enabled, Next, Noted, Rests, RestOf;
    if a.Load? || a.Crash? || a.Park? || a.Offer? {
      PollerMove(c, s, a, n);
      hide LoadsTold;
      LoadsBalance(n, s);
      var p, p' := s.pollers[a.poller], Next(c, s, a).pollers[a.poller];
      var more, out, lost := if a.Load? then a.values else [], if a.Offer? then RestOf(p)[..1] else [], if a.Crash? then RestOf(p) else [];
      RestsAt(s.pollers, a.poller, p');
      assert multiset(RestOf(p) + more) == multiset(out + lost + RestOf(p'));
      Balance(multiset(n.loaded), multiset(n.offered), Rests(s.pollers), multiset(n.crashed), multiset(RestOf(p)),
              Rests(Next(c, s, a).pollers), multiset(RestOf(p')), multiset(more), multiset(out), multiset(lost));
      LoadsBalance(Noted(c, n, s, a), Next(c, s, a));
    } else {
      OtherMoves(c, s, a, n);
      AbortKeepsRests(s.pollers);
    }
  }

  lemma ReadingStep(c: Conf, s: State, a: Action, n: Notes)
    requires Enabled(c, s, a) && ReadingsTold(n, s)
    ensures ReadingsTold(Noted(c, n, s, a), Next(c, s, a))
  {
    hide IsFlush, AllDead, Recorded, Cleared, Aborted, Stopped;
    if a.Receive? {
      Uncons(s.readings);
      assert (n.received + [s.readings[0]]) + s.readings[1..] == n.received + ([s.readings[0]] + s.readings[1..]);
    } else if a.Offer? {
      var r := s.pollers[a.poller].rest[0];
      assert (n.received + s.readings) + [r] == n.received + (s.readings + [r]);
    } else if !a.Tick? {
      ReadingsFrame(c, s, a);
    }
  }

  lemma WindowStep(c: Conf, s: State, a: Action, n: Notes)
    requires Enabled(c, s, a) && WindowsTold(n, s) && s.agg.Keys == c.units.Keys
    ensures WindowsTold(Noted(c, n, s, a), Next(c, s, a))
  {
    hide IsFlush, AllDead, Recorded, Cleared, Aborted, Stopped;
    if !a.Receive? && !a.Tick? && !a.Offer? {
      ReadingsFrame(c, s, a);
    }
  }

  lemma FlushStep(c: Conf, s: State, flush: seq<AggregatedBatch>, n: Notes)
    requires BatchesTold(n, s) && s.aggregator.Selecting?
    ensures BatchesTold(n, Flushed(c, s, flush))
  {
    hide Flatten, BatchesOf, Cleared;
    FlattenOne(s.log.flushes, flush);
    assert n.sent + [] == n.sent;
  }

  lemma SendStep(c: Conf, s: State, n: Notes)
    requires BatchesTold(n, s) && Enabled(c, s, Send)
    ensures BatchesTold(n.(sent := n.sent + [s.aggregator.rest[0]]), Sent(s))
  {
    hide Flatten, BatchesOf, IsFlush, AllDead;
    var b, rest := s.aggregator.rest[0], s.aggregator.rest[1..];
    Uncons(s.aggregator.rest);
    assert (n.sent + [b]) + rest == n.sent + ([b] + rest);
    assert (n.tried + s.batches) + [b] == n.tried + (s.batches + [b]);
  }

  lemma BatchNotes(c: Conf, s: State, a: Action, n: Notes)
    requires Enabled(c, s, a) && !a.Send? && !a.TryPublish?
    ensures var n' := Noted(c, n, s, a);
      n'.sent == n.sent && n'.tried == n.tried && n'.queued == n.queued && n'.droppedBatches == n.droppedBatches
  {
    hide IsFlush, AllDead;
  }

  lemma BatchStep(c: Conf, s: State, a: Action, n: Notes)
    requires Enabled(c, s, a) && BatchesTold(n, s)
    ensures BatchesTold(Noted(c, n, s, a), Next(c, s, a))
  {
    if a.TryPublish? {
      hide *;
      TryPublishStep(c, s, n);
    } else if a.Send? {
      hide BatchesTold, Sent, IsFlush, AllDead, Recorded, Cleared, Aborted, Stopped;
      SendStep(c, s, n);
    } else if a.Tick? {
      hide BatchesTold, Flushed, IsFlush, AllDead, Recorded, Cleared, Aborted, Stopped;
      FlushStep(c, s, a.flush, n);
    } else {
      hide Enabled, Next, Noted, Flatten, BatchesOf, Requests, Rest;
      BatchNotes(c, s, a, n);
      BatchesFrame(c, s, a);
      BatchesAmongRequests(c, s, a);
    }
  }

  lemma TryPublishStep(c: Conf, s: State, n: Notes)
    requires Enabled(c, s, TryPublish) && BatchesTold(n, s)
    ensures BatchesTold(Noted(c, n, s, TryPublish), Next(c, s, TryPublish))
  {
    hide IsFlush, AllDead, Flatten, BatchesOf;
    PublishedBatches(s);
    hide Requests;
    Uncons(s.batches);
    assert (n.tried + [s.batches[0]]) + s.batches[1..] == n.tried + ([s.batches[0]] + s.batches[1..]);
    assert n.queued + [] == n.queued;
  }

  lemma CountOnlineOne(requests: seq<Request>, r: Request)
    ensures CountOnline(requests + [r]) == CountOnline(requests) + if r.Online? then 1 else 0
  {
    assert (requests + [r])[..|requests|] == requests;
  }

  lemma OnlineGrows(c: Conf, s: State, a: Action)
    requires Enabled(c, s, a)
    ensures CountOnline(Requests(Next(c, s, a))) == CountOnline(Requests(s)) + if a.SendOnline? then 1 else 0
  {
    hide Enabled, Next, Requests, CountOnline;
    RequestsGrow(c, s, a);
    assert Requests(s) + [] == Requests(s);
    if Appended(s, a) != [] {
      assert Appended(s, a) == [Appended(s, a)[0]];
      CountOnlineOne(Requests(s), Appended(s, a)[0]);
    }
  }

  lemma DownStep(c: Conf, s: State, a: Action, n: Notes)
    requires Enabled(c, s, a) && (s.link.Down? ==> s.link.until == n.errorAt + 500_000_000)
    ensures var s' := Next(c, s, a); s'.link.Down? ==> s'.link.until == Noted(c, n, s, a).errorAt + 500_000_000
  {
    hide IsFlush, AllDead, Recorded, Cleared, Aborted, Stopped;
  }

  lemma OnlineStep(c: Conf, s: State, a: Action, n: Notes)
    requires Enabled(c, s, a)
    ensures var s', n' := Next(c, s, a), Noted(c, n, s, a);
      s'.onlineTasks + n'.failedOnline + (if a.SendOnline? then 1 else 0) - n'.connects == s.onlineTasks + n.failedOnline - n.connects
  {
    hide IsFlush, AllDead, Recorded, Cleared, Aborted, Stopped;
  }

  lemma LinkStep(c: Conf, s: State, a: Action, n: Notes)
    requires Enabled(c, s, a) && LinkTold(n, s)
    ensures LinkTold(Noted(c, n, s, a), Next(c, s, a))
  {
    hide Enabled, Next, Noted, Requests, CountOnline;
    OnlineGrows(c, s, a);
    OnlineStep(c, s, a, n);
    DownStep(c, s, a, n);
  }

  ghost predicate Told(n: Notes, s: State) {
    LoadsTold(n, s) && ReadingsTold(n, s) && WindowsTold(n, s) && BatchesTold(n, s) && LinkTold(n, s)
  }

  lemma {:induction false} NoRests(pollers: seq<Poller>)
    requires forall i :: 0 <= i < |pollers| ==> pollers[i].Awaiting?
    ensures Rests(pollers) == multiset{}
  {
    if pollers != [] {
      NoRests(pollers[..|pollers| - 1]);
    }
  }

  lemma InitTold(c: Conf, s: State)
    requires Init(c, s)
    ensures Told(Notes([], [], [], [], [], [], [], [], [], [], [], [], [], 0, 0, 0), s)
  {
    hide AggOf, Rests;
    NoRests(s.pollers);
  }

  /** In every run the state agrees with what the actions so far imply. */
  lemma {:induction false} RunTold(c: Conf, states: seq<State>, actions: seq<Action>, k: nat)
    requires IsRun(c, states, actions) && k <= |actions|
    ensures k < |states| && Told(NotesOf(c, states, actions, k), states[k])
  {
    hide LoadsTold, ReadingsTold, WindowsTold, BatchesTold, LinkTold, Enabled, Next, Noted;
    if k == 0 {
      InitTold(c, states[0]);
    } else {
      hide IsRun;
      RunStep(c, states, actions, k - 1);
      RunTold(c, states, actions, k - 1);
      var s, a, n := states[k - 1], actions[k - 1], NotesOf(c, states, actions, k - 1);
      KeysKept(c, states, actions, k - 1);
      LoadStep(c, s, a, n);
      ReadingStep(c, s, a, n);
      WindowStep(c, s, a, n);
      BatchStep(c, s, a, n);
      LinkStep(c, s, a, n);
    }
  }

  lemma KeysKept(c: Conf, states: seq<State>, actions: seq<Action>, k: nat)
    requires IsRun(c, states, actions) && k < |states|
    ensures states[k].agg.Keys == c.units.Keys
  {
    hide Enabled, Next, IsRun, AggOf, EmittedFor, Flatten;
    RunKeepsInv(c, states, actions, k);
    AggOfKeys(c.units, states[k].log.live);
  }

  // ---------------------------------------------------------------- drops

  /** A reading is dropped exactly by an offer at a full channel; with room it joins the back of the channel. */
  lemma DroppedOnlyWhenFull(c: Conf, states: seq<State>, actions: seq<Action>, j: nat)
    requires IsRun(c, states, actions) && j < |actions|
    ensures var s, s', a := states[j], states[j + 1], actions[j];
      && (s'.log.dropped != s.log.dropped <==> a.Offer? && |s.readings| == 1024)
      && (a.Offer? ==>
            && a.poller < |s.pollers| && RestOf(s.pollers[a.poller]) != []
            && var r := RestOf(s.pollers[a.poller])[0];
               && s'.log.offered == s.log.offered + [r]
               && RestOf(s'.pollers[a.poller]) == RestOf(s.pollers[a.poller])[1..]
               && if |s.readings| < 1024 then s'.readings == s.readings + [r]
                  else s'.readings == s.readings && s'.log.dropped == s.log.dropped + [r])
  {
    hide IsRun, Init;
    RunStep(c, states, actions, j);
    CapacityAt(c, states, actions, j);
    hide IsFlush, AllDead, Recorded, Cleared, Aborted, Stopped;
    OnePollerEachStep(c, states[j], actions[j]);
  }

  lemma OnePollerEachStep(c: Conf, s: State, a: Action)
    requires Enabled(c, s, a)
    ensures |Next(c, s, a).pollers| == |s.pollers|
  {
    hide IsFlush, Recorded, Cleared, AllDead;
  }

  lemma CapacityAt(c: Conf, states: seq<State>, actions: seq<Action>, j: nat)
    requires IsRun(c, states, actions) && j < |states|
    ensures |states[j].readings| <= 1024 && |states[j].batches| <= 64 && |states[j].queue| <= 100
  {
    hide IsRun, Enabled, Next, AggOf, EmittedFor, Flatten, BatchesOf, Own;
    RunKeepsInv(c, states, actions, j);
  }

  /** A batch is dropped exactly by a publish at a full queue; with room it joins the back of the queue. */
  lemma BatchDroppedOnlyWhenFull(c: Conf, states: seq<State>, actions: seq<Action>, j: nat)
    requires IsRun(c, states, actions) && j < |actions|
    ensures var s, s', a := states[j], states[j + 1], actions[j];
      && (s'.log.droppedBatches != s.log.droppedBatches <==> a.TryPublish? && |s.queue| == 100)
      && (a.TryPublish? ==>
            && s.batches != [] && s'.batches == s.batches[1..]
            && if |s.queue| < 100 then s'.queue == s.queue + [Publish(s.batches[0])]
               else s'.queue == s.queue && s'.log.droppedBatches == s.log.droppedBatches + [s.batches[0]])
  {
    hide IsRun, Init;
    RunStep(c, states, actions, j);
    CapacityAt(c, states, actions, j);
    hide IsFlush, AllDead, Recorded, Cleared, Aborted, Stopped;
  }

  /** A request is handed to the broker's connection only while it is up, oldest first. */
  lemma TakenWhileConnected(c: Conf, s: State, a: Action)
    requires Enabled(c, s, a)
    ensures var s' := Next(c, s, a);
      s'.log.taken != s.log.taken ==> s.link.Up? && s.queue != [] && s'.log.taken == s.log.taken + [s.queue[0]] && s'.queue == s.queue[1..]
  {
    hide IsFlush, AllDead, Recorded, Cleared, Aborted, Stopped;
  }

  /** After a failure the next connect begins no sooner than 500 ms later. */
  lemma ReconnectWaits(c: Conf, states: seq<State>, actions: seq<Action>, j: nat)
    requires IsRun(c, states, actions) && j < |actions| && actions[j].Retry?
    ensures states[j].now >= NotesOf(c, states, actions, j).errorAt + 500_000_000
  {
    hide LoadsTold, ReadingsTold, WindowsTold, BatchesTold, CountOnline, Requests, IsRun;
    RunTold(c, states, actions, j);
    RunStep(c, states, actions, j);
  }
}
