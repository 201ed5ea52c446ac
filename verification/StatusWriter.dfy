/**
 The status writer's loop (src/status.rs): debounced and heartbeat-driven writes of a state that
 events keep changing. Which branch of the select runs, when, and how long a write takes are
 inputs. Time never passes an armed deadline without the timer running.
 */
module StatusWriter {
  import opened Types
  import opened Status

  /** One write: when it started and ended, and the view it wrote out. */
  datatype Write = Write(start: int, end: int, shown: View)

  datatype Policy = Policy(debounce: nat, heartbeat: nat)

  /** `pending` says when a change that is not yet in the file must be written. `atClose` counts the final write. */
  datatype Loop = Loop(
    now: int, state: State, pending: Option<int>, nextHeartbeat: int, writes: seq<Write>, closed: bool, atClose: nat)
  {
    function Deadline(): int {
      if pending.Some? && pending.value < nextHeartbeat then pending.value else nextHeartbeat
    }
  }

  datatype Input =
    | Wait(time: nat)
    | Event(event: StatusEvent, wall: Time)
    | Timer(took: nat)
    | Closed(took: nat)

  predicate Enabled(l: Loop, i: Input) {
    && !l.closed
    && match i
       case Wait(time) => l.now + time <= l.Deadline()
       case Timer(_) => l.now >= l.Deadline()
       case _ => true
  }

  function Written(l: Loop, took: nat): seq<Write> {
    l.writes + [Write(l.now, l.now + took, ViewOf(l.state))]
  }

  function Next(p: Policy, l: Loop, i: Input): Loop {
    match i
    case Wait(time) => l.(now := l.now + time)
    case Event(event, wall) =>
      var state := Applied(l.state, event, wall);
      l.(state := state, pending := if ViewOf(state) != ViewOf(l.state) && l.pending.None? then Some(l.now + p.debounce) else l.pending)
    case Timer(took) =>
      l.(now := l.now + took, writes := Written(l, took), pending := None, nextHeartbeat := l.now + took + p.heartbeat)
    case Closed(took) =>
      if l.pending.Some? then l.(now := l.now + took, writes := Written(l, took), closed := true, atClose := 1)
      else l.(closed := true)
  }

  /** The loop after its first write, which starts at `now`. */
  function Start(p: Policy, state: State, now: int, took: nat): Loop {
    Loop(now + took, state, None, now + took + p.heartbeat, [Write(now, now + took, ViewOf(state))], false, 0)
  }

  // ---------------------------------------------------------------- the task

  class StatusWriter {
    const policy: Policy
    const state: StatusState
    var now: int
    var pending: Option<int>
    var nextHeartbeat: int
    var writes: seq<Write>
    var closed: bool
    ghost var atClose: nat

    ghost function Model(): Loop
      reads this, state
    {
      Loop(now, state.Snapshot(), pending, nextHeartbeat, writes, closed, atClose)
    }

    constructor (policy: Policy, state: StatusState, now: int, took: nat)
      ensures this.policy == policy && this.state == state
      ensures Model() == Start(policy, state.Snapshot(), now, took)
    {
      this.policy, this.state := policy, state;
      this.now := now + took;
      writes := [Write(now, now + took, ViewOf(state.Snapshot()))];
      pending, nextHeartbeat := None, now + took + policy.heartbeat;
      closed, atClose := false, 0;
    }

    method WriteOut(took: nat)
      modifies this`now, this`writes
      ensures now == old(now) + took && writes == old(writes) + [Write(old(now), now, ViewOf(state.Snapshot()))]
    {
      writes := writes + [Write(now, now + took, ViewOf(state.Snapshot()))];
      now := now + took;
    }

    /** One iteration of the select loop. */
    method Step(i: Input)
      requires Enabled(Model(), i)
      modifies this, state
      ensures Model() == Next(policy, old(Model()), i)
    {
      match i {
        case Wait(time) =>
          now := now + time;
        case Event(event, wall) =>
          var changed := state.Apply(event, wall);
          if changed && pending.None? {
            pending := Some(now + policy.debounce);
          }
        case Timer(took) =>
          WriteOut(took);
          pending := None;
          nextHeartbeat := now + policy.heartbeat;
        case Closed(took) =>
          if pending.Some? {
            WriteOut(took);
            atClose := 1;
          }
          closed := true;
      }
    }

    /** The loop over a schedule, until the channel closes or the schedule ends. */
    method RunLoop(inputs: seq<Input>)
      requires Possible(policy, Model(), inputs)
      modifies this, state
      ensures Model() == Run(policy, old(Model()), inputs)
    {
      ghost var start := Model();
      for k := 0 to |inputs|
        invariant Model() == Run(policy, start, inputs[..k])
      {
        assert inputs[..k + 1][..k] == inputs[..k];
        Step(inputs[k]);
      }
      assert inputs[..|inputs|] == inputs;
    }
  }

  // ---------------------------------------------------------------- whole runs

  function Run(p: Policy, l: Loop, inputs: seq<Input>): Loop {
    if inputs == [] then l else Next(p, Run(p, l, inputs[..|inputs| - 1]), inputs[|inputs| - 1])
  }

  ghost predicate Possible(p: Policy, l: Loop, inputs: seq<Input>) {
    forall k :: 0 <= k < |inputs| ==> Enabled(Run(p, l, inputs[..k]), inputs[k])
  }

  function Last(l: Loop): Write
    requires l.writes != []
  {
    l.writes[|l.writes| - 1]
  }

  ghost predicate Inv(p: Policy, l: Loop) {
    && l.writes != []
    && (l.pending.None? || l.closed ==> Last(l).shown == ViewOf(l.state))
    && Last(l).end <= l.now
    && (!l.closed ==>
          && l.atClose == 0 && l.now <= l.Deadline()
          && l.nextHeartbeat == Last(l).end + p.heartbeat
          && (l.pending.Some? ==> Last(l).end + p.debounce <= l.pending.value <= l.now + p.debounce))
    && l.atClose <= 1 && l.atClose < |l.writes| && (l.atClose == 1 ==> l.closed)
    && Spaced(p, l.writes, l.atClose)
    && LastGap(l) <= p.heartbeat
  }

  /** From the end of the last timed write (or the first one) to now, not counting the write at close. */
  function LastGap(l: Loop): int
    requires l.writes != [] && l.atClose <= 1 && l.atClose < |l.writes|
  {
    if l.atClose == 0 then l.now - Last(l).end
    else l.now - Last(l).end + Last(l).start - l.writes[|l.writes| - 2].end
  }

  /** The gap before a timed write: a heartbeat, or less if a change fell due first, but never less than the debounce. */
  predicate TimedGap(p: Policy, gap: int) {
    gap == p.heartbeat || p.debounce <= gap < p.heartbeat
  }

  /** Writes follow one another; all but the first and the one at close keep a timed gap. */
  ghost predicate Spaced(p: Policy, writes: seq<Write>, atClose: nat) {
    && (forall k :: 0 < k < |writes| - atClose ==> TimedGap(p, writes[k].start - writes[k - 1].end))
    && (forall k :: 0 < k < |writes| ==> writes[k - 1].end <= writes[k].start)
    && forall k :: 0 <= k < |writes| ==> writes[k].start <= writes[k].end
  }

  function Shorter(p: Policy): nat {
    if p.debounce < p.heartbeat then p.debounce else p.heartbeat
  }

  lemma OneMoreTimed(p: Policy, writes: seq<Write>, w: Write)
    requires writes != [] && Spaced(p, writes, 0) && w.start <= w.end
    requires TimedGap(p, w.start - writes[|writes| - 1].end)
    ensures Spaced(p, writes + [w], 0)
  {
  }

  lemma OneMoreAtClose(p: Policy, writes: seq<Write>, w: Write)
    requires writes != [] && Spaced(p, writes, 0) && writes[|writes| - 1].end <= w.start <= w.end
    ensures Spaced(p, writes + [w], 1)
  {
  }

  lemma StepKeepsInv(p: Policy, l: Loop, i: Input)
    requires Inv(p, l) && Enabled(l, i)
    ensures Inv(p, Next(p, l, i))
  {
    hide ViewOf, Applied, Spaced;
    if i.Timer? {
      TimerCause(p, l);
      OneMoreTimed(p, l.writes, Write(l.now, l.now + i.took, ViewOf(l.state)));
    } else if i.Closed? {
      OneMoreAtClose(p, l.writes, Write(l.now, l.now + i.took, ViewOf(l.state)));
    }
  }

  /**
   Why the timer fires: for a change that has waited the debounce, which keeps at least that
   distance from the write before it, or for the heartbeat, exactly one heartbeat after it.
   */
  lemma TimerCause(p: Policy, l: Loop)
    requires Inv(p, l) && !l.closed && l.now >= l.Deadline()
    ensures TimedGap(p, l.now - Last(l).end)
    ensures if l.pending.Some? && l.pending.value <= l.nextHeartbeat then
              l.now == l.pending.value && l.now - Last(l).end >= p.debounce
            else l.now - Last(l).end == p.heartbeat
  {
    hide ViewOf, Spaced;
  }

  lemma {:induction false} RunKeepsInv(p: Policy, l: Loop, inputs: seq<Input>)
    requires Inv(p, l) && Possible(p, l, inputs)
    ensures Inv(p, Run(p, l, inputs))
  {
    if inputs != [] {
      PossiblePrefix(p, l, inputs);
      RunKeepsInv(p, l, inputs[..|inputs| - 1]);
      StepKeepsInv(p, Run(p, l, inputs[..|inputs| - 1]), inputs[|inputs| - 1]);
    }
  }

  lemma PossiblePrefix(p: Policy, l: Loop, inputs: seq<Input>)
    requires inputs != [] && Possible(p, l, inputs)
    ensures Possible(p, l, inputs[..|inputs| - 1]) && Enabled(Run(p, l, inputs[..|inputs| - 1]), inputs[|inputs| - 1])
  {
    hide Enabled, Next;
    var init := inputs[..|inputs| - 1];
    forall k | 0 <= k < |init| ensures Enabled(Run(p, l, init[..k]), init[k]) {
      assert init[..k] == inputs[..k] && init[k] == inputs[k];
    }
  }

  lemma StartIsInv(p: Policy, state: State, now: int, took: nat)
    ensures Inv(p, Start(p, state, now, took))
  {
  }

  /** Event `j` made the first visible change since the last write: before it the file was up to date, and since then nothing was written. */
  ghost predicate IsFirstUnwritten(p: Policy, l: Loop, inputs: seq<Input>, j: nat) {
    && j < |inputs| && inputs[j].Event?
    && var before, after := Run(p, l, inputs[..j]), Run(p, l, inputs[..j + 1]);
       && before.pending.None? && before.writes != [] && Last(before).shown == ViewOf(before.state)
       && ViewOf(after.state) != ViewOf(before.state)
       && before.writes == Run(p, l, inputs).writes
  }

  lemma {:induction false} PendingIsFirstUnwritten(p: Policy, l: Loop, inputs: seq<Input>) returns (j: nat)
    requires Inv(p, l) && l.pending.None? && Possible(p, l, inputs)
    requires Run(p, l, inputs).pending.Some? && !Run(p, l, inputs).closed
    ensures IsFirstUnwritten(p, l, inputs, j)
    ensures Run(p, l, inputs).pending.value == Run(p, l, inputs[..j]).now + p.debounce
  {
    hide ViewOf, Applied, Enabled, Next, Possible, Spaced;
    var n := |inputs| - 1;
    var init := inputs[..n];
    PossiblePrefix(p, l, inputs);
    RunKeepsInv(p, l, init);
    PendingStep(p, Run(p, l, init), inputs[n]);
    hide Inv;
    if Run(p, l, init).pending.None? {
      j := n;
      assert inputs[..n + 1] == inputs;
    } else {
      j := PendingIsFirstUnwritten(p, l, init);
      StillFirst(p, l, inputs, j);
    }
  }

  lemma StillFirst(p: Policy, l: Loop, inputs: seq<Input>, j: nat)
    requires inputs != [] && IsFirstUnwritten(p, l, inputs[..|inputs| - 1], j)
    requires Run(p, l, inputs).writes == Run(p, l, inputs[..|inputs| - 1]).writes
    ensures IsFirstUnwritten(p, l, inputs, j) && inputs[..j] == inputs[..|inputs| - 1][..j]
  {
    hide Run, ViewOf;
    var init := inputs[..|inputs| - 1];
    assert init[..j] == inputs[..j] && init[..j + 1] == inputs[..j + 1];
  }

  /** A step that leaves a write pending armed it by a visible change, or neither armed it nor wrote. */
  lemma PendingStep(p: Policy, l: Loop, i: Input)
    requires Enabled(l, i) && Next(p, l, i).pending.Some? && !Next(p, l, i).closed
    ensures !l.closed
    ensures l.pending.None? ==>
              && i.Event? && ViewOf(Next(p, l, i).state) != ViewOf(l.state)
              && Next(p, l, i).pending.value == l.now + p.debounce && Next(p, l, i).writes == l.writes
    ensures l.pending.Some? ==> Next(p, l, i).pending == l.pending && Next(p, l, i).writes == l.writes
  {
    hide ViewOf, Applied;
  }

  /**
   Freshness, at every point of every run: with no write pending the file shows the current
   state; with one pending it is due exactly `debounce` after the first unwritten change, and
   that moment has not passed. So the file is never stale for longer than `debounce`.
   */
  lemma FileIsFresh(p: Policy, state: State, now: int, took: nat, inputs: seq<Input>) returns (j: nat)
    requires Possible(p, Start(p, state, now, took), inputs)
    ensures var start := Start(p, state, now, took); var l := Run(p, start, inputs);
      && l.writes != []
      && (l.closed || l.pending.None? ==> Last(l).shown == ViewOf(l.state))
      && (!l.closed && l.pending.Some? ==>
            && IsFirstUnwritten(p, start, inputs, j)
            && l.pending.value == Run(p, start, inputs[..j]).now + p.debounce
            && l.now <= l.pending.value)
  {
    var start := Start(p, state, now, took);
    StartIsInv(p, state, now, took);
    RunKeepsInv(p, start, inputs);
    var l := Run(p, start, inputs);
    j := 0;
    if !l.closed && l.pending.Some? {
      j := PendingIsFirstUnwritten(p, start, inputs);
    }
  }

  /** The events among the inputs, with the times they were applied at. */
  function EventsIn(inputs: seq<Input>): seq<Stamped> {
    if inputs == [] then []
    else
      var last := inputs[|inputs| - 1];
      EventsIn(inputs[..|inputs| - 1]) + if last.Event? then [Stamped(last.event, last.wall)] else []
  }

  /** No event that arrives is skipped or applied twice: the state is that after exactly the events so far, in order. */
  lemma {:induction false} StateFollowsEvents(p: Policy, l: Loop, inputs: seq<Input>)
    ensures Run(p, l, inputs).state == After(l.state, EventsIn(inputs))
  {
    hide Applied, ViewOf;
    if inputs != [] {
      var init, last := inputs[..|inputs| - 1], inputs[|inputs| - 1];
      StateFollowsEvents(p, l, init);
      if last.Event? {
        var stamped := Stamped(last.event, last.wall);
        assert (EventsIn(init) + [stamped])[..|EventsIn(init)|] == EventsIn(init);
      } else {
        assert EventsIn(init) + [] == EventsIn(init);
      }
    }
  }

  /** What each input writes: the timer always the current state, the closed channel only if a change is pending, nothing else anything. */
  lemma WritesExactly(p: Policy, l: Loop, i: Input)
    requires Enabled(l, i)
    ensures var l' := Next(p, l, i);
      && (l'.writes != l.writes <==> i.Timer? || (i.Closed? && l.pending.Some?))
      && (l'.writes != l.writes ==> l'.writes == l.writes + [Write(l.now, l'.now, ViewOf(l.state))])
      && (l'.closed <==> i.Closed?)
  {
    hide ViewOf, Applied;
  }

  /** Write rate, over every run and event stream: timed writes are spaced by the periods alone. */
  lemma WritesAreSpaced(p: Policy, state: State, now: int, took: nat, inputs: seq<Input>)
    requires Possible(p, Start(p, state, now, took), inputs)
    ensures var l := Run(p, Start(p, state, now, took), inputs);
      && l.atClose <= 1 && (l.atClose == 1 ==> l.closed)
      && Spaced(p, l.writes, l.atClose)
      && (!l.closed ==> l.writes != [] && l.now <= Last(l).end + p.heartbeat)
  {
    StartIsInv(p, state, now, took);
    RunKeepsInv(p, Start(p, state, now, took), inputs);
  }

  ghost predicate GapsAtLeast(l: Loop, gap: int) {
    forall k :: 0 < k < |l.writes| - l.atClose ==> l.writes[k].start - l.writes[k - 1].end >= gap
  }

  ghost predicate DebounceSpacesAll(p: Policy, state: State, now: int, took: nat) {
    forall inputs :: Possible(p, Start(p, state, now, took), inputs) ==>
      GapsAtLeast(Run(p, Start(p, state, now, took), inputs), p.debounce)
  }

  /** The debounce is a minimum gap between all timed writes, whatever their cause, iff it is no longer than the heartbeat. */
  lemma DebounceIsMinimumGap(p: Policy, state: State, now: int, took: nat)
    ensures DebounceSpacesAll(p, state, now, took) <==> p.debounce <= p.heartbeat
  {
    var start := Start(p, state, now, took);
    if p.debounce <= p.heartbeat {
      forall inputs | Possible(p, start, inputs) ensures GapsAtLeast(Run(p, start, inputs), p.debounce) {
        WritesAreSpaced(p, state, now, took, inputs);
      }
    } else {
      HeartbeatGap(p, state, now, took);
    }
  }

  lemma HeartbeatSteps(p: Policy, state: State, now: int, took: nat)
    requires p.heartbeat < p.debounce
    ensures var start := Start(p, state, now, took);
      var waited := Next(p, start, Wait(p.heartbeat));
      Enabled(start, Wait(p.heartbeat)) && Enabled(waited, Timer(0)) && !GapsAtLeast(Next(p, waited, Timer(0)), p.debounce)
  {
    hide ViewOf, Applied;
    var l := Next(p, Next(p, Start(p, state, now, took), Wait(p.heartbeat)), Timer(0));
    assert l.writes[1].start - l.writes[0].end == p.heartbeat;
  }

  lemma HeartbeatGap(p: Policy, state: State, now: int, took: nat)
    requires p.heartbeat < p.debounce
    ensures !DebounceSpacesAll(p, state, now, took)
  {
    hide Start, Next, Enabled, Run, Possible, GapsAtLeast;
    HeartbeatSteps(p, state, now, took);
    var start := Start(p, state, now, took);
    EmptyRun(p, start);
    OneMoreInput(p, start, [], Wait(p.heartbeat));
    OneMoreInput(p, start, [] + [Wait(p.heartbeat)], Timer(0));
    assert !GapsAtLeast(Run(p, start, [] + [Wait(p.heartbeat)] + [Timer(0)]), p.debounce);
  }

  lemma EmptyRun(p: Policy, l: Loop)
    ensures Run(p, l, []) == l && Possible(p, l, [])
  {
  }

  lemma OneMoreInput(p: Policy, l: Loop, inputs: seq<Input>, i: Input)
    ensures Run(p, l, inputs + [i]) == Next(p, Run(p, l, inputs), i)
    ensures Possible(p, l, inputs) && Enabled(Run(p, l, inputs), i) ==> Possible(p, l, inputs + [i])
  {
    hide Enabled, Next;
    var all := inputs + [i];
    assert all[..|inputs|] == inputs;
    if Possible(p, l, inputs) && Enabled(Run(p, l, inputs), i) {
      forall k | 0 <= k < |all| ensures Enabled(Run(p, l, all[..k]), all[k]) {
        if k < |inputs| {
          assert all[..k] == inputs[..k];
        }
      }
    }
  }

  function TotalTook(writes: seq<Write>): int {
    if writes == [] then 0 else TotalTook(writes[..|writes| - 1]) + writes[|writes| - 1].end - writes[|writes| - 1].start
  }

  /** Spaced writes fit the time they span, whatever the events were: `n` gaps take at least `n` shorter periods and at most `n` heartbeats. */
  lemma {:induction false} SpacedWritesSpan(p: Policy, writes: seq<Write>)
    requires writes != [] && Spaced(p, writes, 0)
    ensures var gaps := writes[|writes| - 1].end - writes[0].start - TotalTook(writes);
      (|writes| - 1) * Shorter(p) <= gaps <= (|writes| - 1) * p.heartbeat
  {
    var n := |writes| - 1;
    if n > 0 {
      var init := writes[..n];
      assert forall k :: 0 <= k < n ==> init[k] == writes[k];
      SpacedWritesSpan(p, init);
      OneMoreGap(n, Shorter(p));
      OneMoreGap(n, p.heartbeat);
    } else {
      assert writes[..0] == [];
    }
  }

  lemma OneMoreGap(n: nat, w: nat)
    ensures n * w == (n - 1) * w + w
  {
  }

  lemma WritesWithoutLast(p: Policy, writes: seq<Write>)
    requires |writes| >= 2 && Spaced(p, writes, 1)
    ensures Spaced(p, writes[..|writes| - 1], 0)
  {
  }

  /**
   The writes of any run, ended or not, against the time it took, between two bounds that do not
   mention the events: all writes but the first and the one at close are `n`, and the time not
   spent writing is at least `n` shorter periods and at most `n + 1` heartbeats.
   */
  lemma WriteCountBounds(p: Policy, state: State, now: int, took: nat, inputs: seq<Input>)
    requires Possible(p, Start(p, state, now, took), inputs)
    ensures var l := Run(p, Start(p, state, now, took), inputs);
      && l.atClose <= 1 && l.atClose < |l.writes|
      && var n := |l.writes| - 1 - l.atClose;
         n * Shorter(p) <= l.now - now - TotalTook(l.writes) <= (n + 1) * p.heartbeat
  {
    hide Run, Possible, Spaced, ViewOf;
    var start := Start(p, state, now, took);
    var l := Run(p, start, inputs);
    StartIsInv(p, state, now, took);
    RunKeepsInv(p, start, inputs);
    FirstWriteStays(p, start, inputs);
    var timed := l.writes[..|l.writes| - l.atClose];
    if l.atClose == 1 {
      WritesWithoutLast(p, l.writes);
      SpacedFollow(p, l.writes, l.atClose);
    } else {
      assert timed == l.writes;
    }
    SpacedWritesSpan(p, timed);
    OneMoreGap(|timed|, p.heartbeat);
  }

  lemma SpacedFollow(p: Policy, writes: seq<Write>, atClose: nat)
    requires |writes| >= 2 && Spaced(p, writes, atClose)
    ensures writes[|writes| - 2].end <= writes[|writes| - 1].start
  {
  }

  lemma {:induction false} FirstWriteStays(p: Policy, l: Loop, inputs: seq<Input>)
    requires l.writes != []
    ensures Run(p, l, inputs).writes != [] && Run(p, l, inputs).writes[0] == l.writes[0]
  {
    if inputs != [] {
      FirstWriteStays(p, l, inputs[..|inputs| - 1]);
    }
  }

  // ---------------------------------------------------------------- when elapsed time bounds the number of writes

  /** No run lasting at most `time` writes more than `bound` times. */
  ghost predicate WritesWithin(p: Policy, state: State, now: int, took: nat, time: nat, bound: nat) {
    forall inputs ::
      Possible(p, Start(p, state, now, took), inputs) && Run(p, Start(p, state, now, took), inputs).now <= now + time ==>
        |Run(p, Start(p, state, now, took), inputs).writes| <= bound
  }

  ghost predicate SomeBound(p: Policy, state: State, now: int, took: nat, time: nat) {
    exists bound: nat :: WritesWithin(p, state, now, took, time, bound)
  }

  ghost predicate RateBounded(p: Policy, state: State, now: int, took: nat) {
    forall time: nat :: SomeBound(p, state, now, took, time)
  }

  /** A write for each shorter period that fits, the first one, and one at close. */
  function RateLimit(p: Policy, time: nat): nat
    requires p.debounce > 0 && p.heartbeat > 0
  {
    time / Shorter(p) + 2
  }

  /** Elapsed time bounds the number of writes iff neither period is zero. */
  lemma RateBoundedExactly(p: Policy, state: State, now: int, took: nat)
    ensures RateBounded(p, state, now, took) <==> p.debounce > 0 && p.heartbeat > 0
    ensures p.debounce > 0 && p.heartbeat > 0 ==>
              forall time: nat :: WritesWithin(p, state, now, took, time, RateLimit(p, time))
  {
    hide WritesWithin;
    if p.debounce > 0 && p.heartbeat > 0 {
      forall time: nat ensures WritesWithin(p, state, now, took, time, RateLimit(p, time)) {
        RateBound(p, state, now, took, time);
      }
      forall time: nat ensures SomeBound(p, state, now, took, time) {
        assert WritesWithin(p, state, now, took, time, RateLimit(p, time));
      }
    } else {
      forall bound: nat ensures !WritesWithin(p, state, now, took, took, bound) {
        if p.heartbeat == 0 {
          Burst(p, state, now, took, bound);
        } else {
          EventBurst(p, state, now, took, bound);
        }
      }
      assert !SomeBound(p, state, now, took, took);
    }
  }

  lemma RateBound(p: Policy, state: State, now: int, took: nat, time: nat)
    requires p.debounce > 0 && p.heartbeat > 0
    ensures WritesWithin(p, state, now, took, time, RateLimit(p, time))
  {
    hide Run, Possible;
    var start := Start(p, state, now, took);
    forall inputs | Possible(p, start, inputs) && Run(p, start, inputs).now <= now + time
      ensures |Run(p, start, inputs).writes| <= RateLimit(p, time)
    {
      var l := Run(p, start, inputs);
      WriteCountBounds(p, state, now, took, inputs);
      WritesAreSpaced(p, state, now, took, inputs);
      TookSomeTime(p, l.writes, l.atClose);
      AtMost(|l.writes| - 1 - l.atClose, Shorter(p), time);
    }
  }

  lemma {:induction false} TookSomeTime(p: Policy, writes: seq<Write>, atClose: nat)
    requires Spaced(p, writes, atClose)
    ensures TotalTook(writes) >= 0
  {
    if writes != [] {
      InitSpaced(p, writes, atClose);
      TookSomeTime(p, writes[..|writes| - 1], atClose);
    }
  }

  lemma InitSpaced(p: Policy, writes: seq<Write>, atClose: nat)
    requires writes != [] && Spaced(p, writes, atClose)
    ensures Spaced(p, writes[..|writes| - 1], atClose) && writes[|writes| - 1].start <= writes[|writes| - 1].end
  {
  }

  lemma Scaled(a: int, b: int, w: nat)
    requires a <= b
    ensures a * w <= b * w
  {
  }

  lemma AtMost(n: nat, w: nat, time: nat)
    requires w > 0 && n * w <= time
    ensures n <= time / w
  {
    var q := time / w;
    assert time < (q + 1) * w;
    if n > q {
      Scaled(q + 1, n, w);
      assert false;
    }
  }

  /** The loop at the instant of its first write, after `n` more writes. */
  ghost predicate Bursting(l: Loop, p: Policy, at: int, n: nat) {
    !l.closed && l.now == at && l.nextHeartbeat == at + p.heartbeat && l.pending.None? && |l.writes| == n + 1
  }

  function Timers(n: nat): seq<Input> {
    if n == 0 then [] else Timers(n - 1) + [Timer(0)]
  }

  lemma {:induction false} TimersBurst(p: Policy, state: State, now: int, took: nat, n: nat)
    requires p.heartbeat == 0
    ensures var start := Start(p, state, now, took);
      Possible(p, start, Timers(n)) && Bursting(Run(p, start, Timers(n)), p, now + took, n)
  {
    hide Run, Possible, ViewOf;
    var start := Start(p, state, now, took);
    EmptyRun(p, start);
    if n > 0 {
      TimersBurst(p, state, now, took, n - 1);
      OneMoreInput(p, start, Timers(n - 1), Timer(0));
    }
  }

  /** A heartbeat of zero: any number of writes at one instant, without a single event. */
  lemma Burst(p: Policy, state: State, now: int, took: nat, bound: nat)
    requires p.heartbeat == 0
    ensures !WritesWithin(p, state, now, took, took, bound)
  {
    hide Run, Possible;
    TimersBurst(p, state, now, took, bound);
    assert Possible(p, Start(p, state, now, took), Timers(bound));
  }

  function Flipped(connected: bool, n: nat): bool {
    if n == 0 then connected else !Flipped(connected, n - 1)
  }

  function Flip(connected: bool): Input {
    Event(if connected then MqttDisconnected else MqttConnected, 0)
  }

  /** The broker connection changing, and the timer firing at once, `n` times. */
  function Flips(connected: bool, n: nat): seq<Input> {
    if n == 0 then [] else Flips(connected, n - 1) + [Flip(Flipped(connected, n - 1))] + [Timer(0)]
  }

  /** With a debounce of zero a visible change is written at once. */
  lemma FlipIsWritten(p: Policy, l: Loop, at: int, n: nat)
    requires p.debounce == 0 && Bursting(l, p, at, n)
    ensures var i := Flip(l.state.mqttConnected);
      var l' := Next(p, l, i);
      && Enabled(l, i) && Enabled(l', Timer(0)) && Bursting(Next(p, l', Timer(0)), p, at, n + 1)
      && Next(p, l', Timer(0)).state.mqttConnected == !l.state.mqttConnected
  {
    var l' := Next(p, l, Flip(l.state.mqttConnected));
    assert ViewOf(l'.state).mqttConnected != ViewOf(l.state).mqttConnected;
  }

  lemma {:induction false} FlipsBurst(p: Policy, state: State, now: int, took: nat, n: nat)
    requires p.debounce == 0
    ensures var start, flips := Start(p, state, now, took), Flips(state.mqttConnected, n);
      && Possible(p, start, flips) && Bursting(Run(p, start, flips), p, now + took, n)
      && Run(p, start, flips).state.mqttConnected == Flipped(state.mqttConnected, n)
  {
    hide Run, Possible, ViewOf;
    var start := Start(p, state, now, took);
    EmptyRun(p, start);
    if n > 0 {
      hide Next, Enabled, Start, Bursting, Flip;
      var flips, flip := Flips(state.mqttConnected, n - 1), Flip(Flipped(state.mqttConnected, n - 1));
      FlipsBurst(p, state, now, took, n - 1);
      FlipIsWritten(p, Run(p, start, flips), now + took, n - 1);
      OneMoreInput(p, start, flips, flip);
      OneMoreInput(p, start, flips + [flip], Timer(0));
    }
  }

  /** A debounce of zero: as many writes at one instant as there are visible changes. */
  lemma EventBurst(p: Policy, state: State, now: int, took: nat, bound: nat)
    requires p.debounce == 0
    ensures !WritesWithin(p, state, now, took, took, bound)
  {
    hide Run, Possible;
    FlipsBurst(p, state, now, took, bound);
    assert Possible(p, Start(p, state, now, took), Flips(state.mqttConnected, bound));
  }
}
