/** The supervisor of a connection task (src/modbus/supervisor.rs). */
module Supervisor {
  import opened Backoffs

  /** How one run of the child task ends. */
  datatype ChildExit = Finished | Panicked | Cancelled

  datatype ChildEvent = Spawned | Ended(exit: ChildExit) | Aborted

  /** The number of leading panics: the child is respawned after each of them and after nothing else. */
  function LeadingPanics(exits: seq<ChildExit>): (n: nat)
    ensures n <= |exits| && (forall k :: 0 <= k < n ==> exits[k].Panicked?) && (n < |exits| ==> !exits[n].Panicked?)
  {
    if exits == [] || !exits[0].Panicked? then 0
    else
      var rest := LeadingPanics(exits[1..]);
      assert forall k :: 0 < k < |exits| ==> exits[k] == exits[1..][k - 1];
      1 + rest
  }

  /**
   What happens to children when successive runs end as `exits` say. When `exits` is used up the
   supervisor is dropped, and its guard aborts the child that is running; a supervisor dropped
   while it waits to respawn leaves a prefix of this.
   */
  function Trace(exits: seq<ChildExit>): seq<ChildEvent> {
    if exits == [] then [Spawned, Aborted]
    else [Spawned, Ended(exits[0])] + if exits[0].Panicked? then Trace(exits[1..]) else []
  }

  /** Children started and neither ended nor aborted. */
  function Alive(trace: seq<ChildEvent>): int {
    if trace == [] then 0 else Alive(trace[..|trace| - 1]) + if trace[|trace| - 1].Spawned? then 1 else -1
  }

  function Spawns(trace: seq<ChildEvent>): nat {
    if trace == [] then 0 else Spawns(trace[..|trace| - 1]) + if trace[|trace| - 1].Spawned? then 1 else 0
  }

  lemma {:induction false} AliveConcat(a: seq<ChildEvent>, b: seq<ChildEvent>)
    ensures Alive(a + b) == Alive(a) + Alive(b) && Spawns(a + b) == Spawns(a) + Spawns(b)
  {
    if b == [] {
      assert a + b == a;
    } else {
      AliveConcat(a, b[..|b| - 1]);
      assert (a + b)[..|a + b| - 1] == a + b[..|b| - 1];
    }
  }

  lemma OneRun(last: ChildEvent)
    requires !last.Spawned?
    ensures Alive([]) == 0 && Alive([Spawned]) == 1 && Alive([Spawned, last]) == 0 && Spawns([Spawned, last]) == 1
  {
    assert [Spawned, last][..1] == [Spawned] && [Spawned][..0] == [];
  }

  /** At every moment at most one child is alive, and none once the supervisor has returned or was dropped. */
  lemma {:induction false} AtMostOneChild(exits: seq<ChildExit>, n: nat)
    requires n <= |Trace(exits)|
    ensures 0 <= Alive(Trace(exits)[..n]) <= 1
    ensures Alive(Trace(exits)) == 0 && Spawns(Trace(exits)) == LeadingPanics(exits) + 1
    decreases |exits|
  {
    hide Alive, Spawns;
    var trace := Trace(exits);
    var run := trace[..2];
    OneRun(run[1]);
    assert run == [Spawned, run[1]];
    if exits != [] && exits[0].Panicked? {
      var rest := Trace(exits[1..]);
      assert trace == run + rest;
      AtMostOneChild(exits[1..], if n < 2 then 0 else n - 2);
      AliveConcat(run, rest);
      if n >= 2 {
        assert trace[..n] == run + rest[..n - 2];
        AliveConcat(run, rest[..n - 2]);
      }
    } else {
      assert trace == run;
    }
    assert n == 0 ==> trace[..n] == [];
    assert n == 1 ==> trace[..n] == [Spawned];
    assert n == 2 ==> trace[..n] == run;
  }

  /** The last event is the abort by a dropped supervisor exactly when every run so far panicked; else it is the exit that ended supervision. */
  lemma {:induction false} LastEvent(exits: seq<ChildExit>)
    ensures Trace(exits) != []
    ensures var last := Trace(exits)[|Trace(exits)| - 1];
      && (last.Aborted? <==> forall k :: 0 <= k < |exits| ==> exits[k].Panicked?)
      && (!last.Aborted? ==> LeadingPanics(exits) < |exits| && last == Ended(exits[LeadingPanics(exits)]))
  {
    if exits != [] && exits[0].Panicked? {
      LastEvent(exits[1..]);
      assert forall k :: 0 < k < |exits| ==> exits[k] == exits[1..][k - 1];
    }
  }

  /** Run `k` of the child: started, then ended by the `k`-th exit. */
  lemma {:induction false} RunAt(exits: seq<ChildExit>, k: nat)
    requires k < LeadingPanics(exits)
    ensures 2 * k + 1 < |Trace(exits)| && Trace(exits)[2 * k] == Spawned && Trace(exits)[2 * k + 1] == Ended(exits[k])
  {
    if k > 0 {
      RunAt(exits[1..], k - 1);
      assert Trace(exits) == [Spawned, Ended(exits[0])] + Trace(exits[1..]);
    }
  }

  /** What one more run adds, when `trace` is what the first `i` exits left. */
  lemma OneMoreRun(exits: seq<ChildExit>, i: nat, trace: seq<ChildEvent>)
    requires i <= |exits| && trace + Trace(exits[i..]) == Trace(exits)
    ensures i == |exits| ==> trace + [Spawned] + [Aborted] == Trace(exits) && LeadingPanics(exits[i..]) == 0
    ensures i < |exits| && !exits[i].Panicked? ==>
              trace + [Spawned] + [Ended(exits[i])] == Trace(exits) && LeadingPanics(exits[i..]) == 0
    ensures i < |exits| && exits[i].Panicked? ==>
              && (trace + [Spawned] + [Ended(exits[i])]) + Trace(exits[i + 1..]) == Trace(exits)
              && LeadingPanics(exits[i..]) == 1 + LeadingPanics(exits[i + 1..])
  {
    var last := if i < |exits| then Ended(exits[i]) else Aborted;
    AppendRun(trace, last, []);
    if i < |exits| {
      assert exits[i..][1..] == exits[i + 1..];
      if exits[i].Panicked? {
        AppendRun(trace, last, Trace(exits[i + 1..]));
      }
    }
  }

  lemma AppendRun(trace: seq<ChildEvent>, last: ChildEvent, rest: seq<ChildEvent>)
    ensures trace + ([Spawned, last] + rest) == (trace + [Spawned] + [last]) + rest
    ensures [Spawned, last] + [] == [Spawned, last] && trace + [Spawned, last] == trace + [Spawned] + [last]
  {
  }

  lemma FirstRun(exits: seq<ChildExit>, backoff: Backoff)
    ensures [] + Trace(exits[0..]) == Trace(exits) && LeadingPanics(exits[0..]) == LeadingPanics(exits)
    ensures Delay(backoff.min, backoff.max, 0) == backoff.min
  {
    assert exits[0..] == exits;
  }

  /** Spawns the child, awaits it, and respawns it after a delay as long as it panics. */
  method Supervise(backoff: Backoff, exits: seq<ChildExit>) returns (trace: seq<ChildEvent>, delays: seq<nat>)
    requires backoff.current == backoff.min
    modifies backoff
    ensures trace == Trace(exits)
    ensures delays == seq(LeadingPanics(exits), k requires 0 <= k => Delay(backoff.min, backoff.max, k))
  {
    hide Trace, LeadingPanics, Delay, Min;
    trace, delays := [], [];
    FirstRun(exits, backoff);
    var i := 0;
    while true
      invariant i <= |exits| && trace + Trace(exits[i..]) == Trace(exits)
      invariant LeadingPanics(exits) == i + LeadingPanics(exits[i..])
      invariant backoff.current == Delay(backoff.min, backoff.max, i)
      invariant delays == seq(i, k requires 0 <= k => Delay(backoff.min, backoff.max, k))
      decreases |exits| - i
    {
      OneMoreRun(exits, i, trace);
      trace := trace + [Spawned];
      if i == |exits| {
        trace := trace + [Aborted];
        return;
      }
      var exit := exits[i];
      trace := trace + [Ended(exit)];
      match exit {
        case Finished => return;
        case Panicked =>
          var slept := backoff.Wait();
          OneMoreWait(backoff.min, backoff.max, i);
          delays := delays + [slept];
        case Cancelled => return;
      }
      i := i + 1;
    }
  }
}
