/** The text of the status file (src/status.rs): rendering, and which events change it. */
module StatusText {
  import opened Types
  import opened Status
  import opened Utf8

  // ---------------------------------------------------------------- numbers and times

  function Digit(n: int): char
    requires 0 <= n < 10
  {
    "0123456789"[n]
  }

  function Decimal(n: nat): string {
    if n < 10 then [Digit(n)] else Decimal(n / 10) + [Digit(n % 10)]
  }

  function TwoDigits(n: int): string
    requires 0 <= n < 100
  {
    [Digit(n / 10), Digit(n % 10)]
  }

  /** `[hour]:[minute]:[second]Z`. */
  function TimeOfDay(t: Time): (r: string)
    ensures |r| == 9
  {
    var secs := t / 1_000_000_000 % 86400;
    TwoDigits(secs / 3600) + ":" + TwoDigits(secs / 60 % 60) + ":" + TwoDigits(secs % 60) + "Z"
  }

  // ---------------------------------------------------------------- lines

  function ProblemText(p: ProblemView): (r: string)
    ensures |r| >= 11
  {
    p.device + ": " + p.reason + " since " + TimeOfDay(p.since)
  }

  /** `problems.join(", ")`. */
  function Join(problems: seq<ProblemView>): string {
    if problems == [] then ""
    else if |problems| == 1 then ProblemText(problems[0])
    else Join(problems[..|problems| - 1]) + ", " + ProblemText(problems[|problems| - 1])
  }

  function Parenthesised(problems: seq<ProblemView>): string {
    if problems == [] then "" else " (" + Join(problems) + ")"
  }

  function LineOf(c: ConnectionView): string {
    match c
    case DownView(id) => "connection " + id + ": down\n"
    case UpView(id, ok, total, problems) =>
      "connection " + id + ": up, " + Decimal(ok) + "/" + Decimal(total) + " devices ok" + Parenthesised(problems) + "\n"
  }

  function Lines(connections: seq<ConnectionView>): string {
    if connections == [] then "" else Lines(connections[..|connections| - 1]) + LineOf(connections[|connections| - 1])
  }

  /** The fixed head of the file; `updated` is the formatted time of rendering. */
  datatype Header = Header(gateway: string, broker: string, updated: string)

  function HeadLines(h: Header, mqttConnected: bool): string {
    "gateway: " + h.gateway + "\nupdated: " + h.updated + "\nmqtt: " + (if mqttConnected then "connected" else "disconnected")
    + " (" + h.broker + ")\n"
  }

  /** The text before it is capped. */
  function TextOf(h: Header, v: View): string {
    HeadLines(h, v.mqttConnected) + Lines(v.connections)
  }

  // ---------------------------------------------------------------- rendering

  method RenderLine(conn: ConnectionStatus) returns (line: string)
    ensures line == LineOf(ConnectionViewOf(conn))
  {
    if !conn.up {
      return "connection " + conn.id + ": down\n";
    }
    var ok := 0;
    var problems: seq<ProblemView> := [];
    for i := 0 to |conn.devices|
      invariant ok == CountOk(conn.devices[..i]) && problems == Problems(conn.devices[..i])
    {
      assert conn.devices[..i + 1][..i] == conn.devices[..i];
      var d := conn.devices[i];
      if d.health.Ok? {
        ok := ok + 1;
      }
      if d.health.Problem? {
        problems := problems + [ProblemView(d.id, d.health.reason, d.health.since)];
      }
    }
    assert conn.devices[..|conn.devices|] == conn.devices;
    line := "connection " + conn.id + ": up, " + Decimal(ok) + "/" + Decimal(|conn.devices|) + " devices ok";
    if problems != [] {
      line := line + (" (" + Join(problems) + ")");
    }
    line := line + "\n";
    AppendIsConcat(conn.id, ok, |conn.devices|, problems);
  }

  lemma AppendIsConcat(id: string, ok: nat, total: nat, problems: seq<ProblemView>)
    ensures var head := "connection " + id + ": up, " + Decimal(ok) + "/" + Decimal(total) + " devices ok";
      LineOf(UpView(id, ok, total, problems)) == (if problems == [] then head else head + (" (" + Join(problems) + ")")) + "\n"
  {
    var head := "connection " + id + ": up, " + Decimal(ok) + "/" + Decimal(total) + " devices ok";
    assert head + "" == head;
  }

  /** Appends line by line, then caps: what is written is the truncation of the text that shows the state. */
  method RenderStatus(h: Header, s: State) returns (contents: seq<byte>)
    ensures IsTruncation(Encode(TextOf(h, ViewOf(s))), contents)
    ensures ValidUtf8(contents)
  {
    hide ConnectionViewOf, LineOf, HeadLines, Encode, IsTruncation, ValidUtf8;
    var out := HeadLines(h, s.mqttConnected);
    ghost var head := out;
    assert out + "" == out;
    ghost var views := ViewOf(s).connections;
    for i := 0 to |s.connections|
      invariant out == head + Lines(views[..i])
    {
      OneMoreLine(head, views, i);
      var line := RenderLine(s.connections[i]);
      out := out + line;
    }
    assert views[..|views|] == views;
    EncodeIsValid(out);
    contents := Truncate(Encode(out));
  }

  lemma OneMoreLine(head: string, views: seq<ConnectionView>, i: nat)
    requires i < |views|
    ensures head + Lines(views[..i + 1]) == (head + Lines(views[..i])) + LineOf(views[i])
  {
    hide LineOf;
    assert views[..i + 1][..i] == views[..i];
  }

  // ---------------------------------------------------------------- which events change the text

  lemma Cancel(p: string, a: string, b: string, s: string)
    requires p + a + s == p + b + s
    ensures a == b
  {
    assert |a| == |b|;
    assert a == (p + a + s)[|p|..|p| + |a|] && b == (p + b + s)[|p|..|p| + |b|];
  }

  function Parse(s: string): int {
    if s == "" then 0 else 10 * Parse(s[..|s| - 1]) + (s[|s| - 1] as int - '0' as int)
  }

  lemma {:induction false} ParseDecimal(n: nat)
    ensures Parse(Decimal(n)) == n
  {
    if n >= 10 {
      ParseDecimal(n / 10);
      assert Decimal(n)[..|Decimal(n)| - 1] == Decimal(n / 10);
    }
  }

  /** A decimal is at most one character longer than its predecessor's, and never shorter. */
  lemma {:induction false} DecimalGrowth(n: nat)
    ensures |Decimal(n)| <= |Decimal(n + 1)| <= |Decimal(n)| + 1
  {
    if n >= 10 {
      DecimalGrowth(n / 10);
      assert (n + 1) / 10 == n / 10 || (n + 1) / 10 == n / 10 + 1;
    }
  }

  /** One more problem makes the parenthesis at least 13 characters longer, wherever it goes in. */
  lemma {:induction false} OneMoreProblemIsLonger(a: seq<ProblemView>, p: ProblemView, b: seq<ProblemView>)
    ensures |Parenthesised(a + [p] + b)| >= |Parenthesised(a + b)| + 13
  {
    hide ProblemText;
    JoinLength(a + [p] + b);
    JoinLength(a + b);
    TotalSplits(a, [p] + b);
    TotalSplits([p], b);
    TotalSplits(a, b);
    assert a + [p] + b == a + ([p] + b);
    assert [p][..0] == [];
  }

  function TotalLength(problems: seq<ProblemView>): nat {
    if problems == [] then 0
    else TotalLength(problems[..|problems| - 1]) + |ProblemText(problems[|problems| - 1])| + 2
  }

  lemma {:induction false} TotalSplits(a: seq<ProblemView>, b: seq<ProblemView>)
    ensures TotalLength(a + b) == TotalLength(a) + TotalLength(b)
  {
    hide ProblemText;
    if b == [] {
      assert a + b == a;
    } else {
      TotalSplits(a, b[..|b| - 1]);
      assert (a + b)[..|a + b| - 1] == a + b[..|b| - 1];
    }
  }

  lemma {:induction false} JoinLength(problems: seq<ProblemView>)
    ensures problems != [] ==> |Join(problems)| + 2 == TotalLength(problems)
  {
    if |problems| == 1 {
      assert problems[..0] == [];
    } else if problems != [] {
      JoinLength(problems[..|problems| - 1]);
    }
  }

  /** Replacing one problem's reason changes the joined list. */
  lemma {:induction false} JoinTellsApart(a: seq<ProblemView>, p: ProblemView, q: ProblemView, b: seq<ProblemView>)
    requires ProblemText(p) != ProblemText(q)
    ensures Join(a + [p] + b) != Join(a + [q] + b)
  {
    hide ProblemText;
    var x, y := a + [p] + b, a + [q] + b;
    if b == [] {
      assert x[..|x| - 1] == a && y[..|y| - 1] == a;
      if a != [] && Join(x) == Join(y) {
        Cancel(Join(a) + ", ", ProblemText(p), ProblemText(q), "");
      }
    } else {
      var init, last := b[..|b| - 1], ProblemText(b[|b| - 1]);
      JoinTellsApart(a, p, q, init);
      assert x[..|x| - 1] == a + [p] + init && y[..|y| - 1] == a + [q] + init;
      var u, v := Join(a + [p] + init), Join(a + [q] + init);
      assert Join(x) == u + ", " + last && Join(y) == v + ", " + last;
      assert "" + u + (", " + last) == u + ", " + last && "" + v + (", " + last) == v + ", " + last;
      if Join(x) == Join(y) {
        Cancel("", u, v, ", " + last);
      }
    }
  }

  lemma ReasonTellsApart(p: ProblemView, q: ProblemView)
    requires p.device == q.device && p.since == q.since && p.reason != q.reason
    ensures ProblemText(p) != ProblemText(q)
  {
    if ProblemText(p) == ProblemText(q) {
      var head, tail := p.device + ": ", " since " + TimeOfDay(p.since);
      assert ProblemText(p) == head + p.reason + tail && ProblemText(q) == head + q.reason + tail;
      Cancel(head, p.reason, q.reason, tail);
    }
  }

  function Rollup(ok: nat, total: nat, problems: seq<ProblemView>): string {
    Decimal(ok) + ("/" + Decimal(total) + " devices ok") + Parenthesised(problems)
  }

  lemma RollupInLine(id: string, ok: nat, total: nat, problems: seq<ProblemView>)
    ensures LineOf(UpView(id, ok, total, problems)) == ("connection " + id + ": up, ") + Rollup(ok, total, problems) + "\n"
  {
    hide Decimal, Parenthesised;
  }

  lemma RollupLength(ok: nat, total: nat, problems: seq<ProblemView>)
    ensures |Rollup(ok, total, problems)| == |Decimal(ok)| + 12 + |Decimal(total)| + |Parenthesised(problems)|
  {
  }

  /** The rollups of a connection before and after one of its devices changes health read differently. */
  lemma HealthChangeReadsDifferently(a: seq<DeviceStatus>, d: DeviceStatus, h: Health, b: seq<DeviceStatus>, total: nat)
    requires h != d.health && !h.Unknown?
    requires h.Problem? && d.health.Problem? ==> h.since == d.health.since
    ensures var x, y := a + [d] + b, a + [d.(health := h)] + b;
      Rollup(CountOk(x), total, Problems(x)) != Rollup(CountOk(y), total, Problems(y))
  {
    hide Rollup, CountOk, Problems, Parenthesised, ProblemText, Decimal;
    var d' := d.(health := h);
    CountSplits(a, d, b);
    CountSplits(a, d', b);
    ProblemsSplit(a, d, b);
    ProblemsSplit(a, d', b);
    var pa, pb := Problems(a), Problems(b);
    var m := CountOk(a) + CountOk(b);
    if d.health.Problem? && h.Problem? {
      ReplacedProblem(m, total, pa, Shown(d)[0], Shown(d')[0], pb);
    } else if d.health.Problem? {
      assert pa + [] + pb == pa + pb;
      AddedProblem(m, total, pa, Shown(d)[0], pb);
    } else if h.Problem? {
      assert pa + [] + pb == pa + pb;
      AddedProblem(m, total, pa, Shown(d')[0], pb);
    } else {
      assert pa + [] + pb == pa + pb;
      OneMoreOk(m, total, pa + pb);
    }
  }

  lemma JoinInRollup(ok: nat, total: nat, problems: seq<ProblemView>)
    requires problems != []
    ensures Rollup(ok, total, problems) == ((Decimal(ok) + ("/" + Decimal(total) + " devices ok")) + " (") + Join(problems) + ")"
  {
    hide Join, Decimal;
  }

  lemma ReplacedProblem(ok: nat, total: nat, a: seq<ProblemView>, p: ProblemView, q: ProblemView, b: seq<ProblemView>)
    requires p.device == q.device && p.since == q.since && p.reason != q.reason
    ensures Rollup(ok, total, a + [p] + b) != Rollup(ok, total, a + [q] + b)
  {
    hide Join, Decimal, Rollup, ProblemText;
    ReasonTellsApart(p, q);
    JoinTellsApart(a, p, q, b);
    var head := Decimal(ok) + ("/" + Decimal(total) + " devices ok");
    var x, y := a + [p] + b, a + [q] + b;
    JoinInRollup(ok, total, x);
    JoinInRollup(ok, total, y);
    if Rollup(ok, total, x) == Rollup(ok, total, y) {
      Cancel(head + " (", Join(x), Join(y), ")");
    }
  }

  /** An added problem outweighs an ok count that is one lower. */
  lemma AddedProblem(ok: nat, total: nat, a: seq<ProblemView>, p: ProblemView, b: seq<ProblemView>)
    ensures Rollup(ok, total, a + [p] + b) != Rollup(ok, total, a + b)
    ensures Rollup(ok, total, a + [p] + b) != Rollup(ok + 1, total, a + b)
  {
    hide Rollup, Decimal, Parenthesised;
    OneMoreProblemIsLonger(a, p, b);
    DecimalGrowth(ok);
    RollupLength(ok, total, a + [p] + b);
    RollupLength(ok, total, a + b);
    RollupLength(ok + 1, total, a + b);
  }

  lemma OneMoreOk(ok: nat, total: nat, problems: seq<ProblemView>)
    ensures Rollup(ok, total, problems) != Rollup(ok + 1, total, problems)
  {
    hide Decimal, Parenthesised;
    var tail := ("/" + Decimal(total) + " devices ok") + Parenthesised(problems);
    assert Rollup(ok, total, problems) == "" + Decimal(ok) + tail;
    assert Rollup(ok + 1, total, problems) == "" + Decimal(ok + 1) + tail;
    if Rollup(ok, total, problems) == Rollup(ok + 1, total, problems) {
      Cancel("", Decimal(ok), Decimal(ok + 1), tail);
      ParseDecimal(ok);
      ParseDecimal(ok + 1);
    }
  }

  lemma StateTellsApart(head: string, rollup: string)
    ensures head + ": down\n" != head + ": up, " + rollup + "\n"
  {
    assert (head + ": down\n")[|head| + 2] == 'd';
    assert (head + ": up, " + rollup + "\n")[|head| + 2] == 'u';
  }

  lemma DownReadsDifferently(id: string, ok: nat, total: nat, problems: seq<ProblemView>)
    ensures LineOf(DownView(id)) != LineOf(UpView(id, ok, total, problems))
  {
    hide Rollup;
    RollupInLine(id, ok, total, problems);
    hide LineOf;
    DownLine(id);
    StateTellsApart("connection " + id, Rollup(ok, total, problems));
  }

  lemma DownLine(id: string)
    ensures LineOf(DownView(id)) == "connection " + id + ": down\n"
  {
  }

  lemma ConnectionChangeReads(conn: ConnectionStatus, e: StatusEvent, now: Time)
    requires AboutConnection(e) && ConnectionApplied(conn, e, now) != conn
    ensures LineOf(ConnectionViewOf(ConnectionApplied(conn, e, now))) != LineOf(ConnectionViewOf(conn))
  {
    hide LineOf, CountOk, Problems;
    var conn' := ConnectionApplied(conn, e, now);
    if conn.up && conn'.up {
      var i := FindDevice(conn.devices, e.deviceId);
      var d, h := conn.devices[i], NewHealth(conn.devices[i].health, e, now);
      assert conn.devices[i := conn.devices[i]] == conn.devices;
      var a, b := conn.devices[..i], conn.devices[i + 1..];
      assert conn.devices == a + [d] + b && conn'.devices == a + [d.(health := h)] + b;
      HealthChangeReadsDifferently(a, d, h, b, |conn.devices|);
      RollupInLine(conn.id, CountOk(conn.devices), |conn.devices|, Problems(conn.devices));
      RollupInLine(conn.id, CountOk(conn'.devices), |conn.devices|, Problems(conn'.devices));
      var x, y := Rollup(CountOk(conn.devices), |conn.devices|, Problems(conn.devices)),
                  Rollup(CountOk(conn'.devices), |conn.devices|, Problems(conn'.devices));
      if LineOf(ConnectionViewOf(conn')) == LineOf(ConnectionViewOf(conn)) {
        Cancel("connection " + conn.id + ": up, ", x, y, "\n");
      }
    } else if conn.up {
      DownReadsDifferently(conn.id, CountOk(conn.devices), |conn.devices|, Problems(conn.devices));
    } else {
      DownReadsDifferently(conn.id, CountOk(conn'.devices), |conn'.devices|, Problems(conn'.devices));
    }
  }

  lemma {:induction false} LinesSplit(a: seq<ConnectionView>, c: ConnectionView, b: seq<ConnectionView>)
    ensures Lines(a + [c] + b) == Lines(a) + LineOf(c) + Lines(b)
  {
    hide LineOf;
    var all := a + [c] + b;
    if b == [] {
      assert all[..|all| - 1] == a;
    } else {
      var init, last := b[..|b| - 1], b[|b| - 1];
      LinesSplit(a, c, init);
      assert all[..|all| - 1] == a + [c] + init && all[|all| - 1] == last;
      assert Lines(all) == (Lines(a) + LineOf(c) + Lines(init)) + LineOf(last);
    }
  }

  lemma LineChangeReads(a: seq<ConnectionView>, c: ConnectionView, d: ConnectionView, b: seq<ConnectionView>, h: Header, mqtt: bool)
    requires LineOf(c) != LineOf(d)
    ensures TextOf(h, View(mqtt, a + [c] + b)) != TextOf(h, View(mqtt, a + [d] + b))
  {
    hide LineOf, Lines, HeadLines;
    LinesSplit(a, c, b);
    LinesSplit(a, d, b);
    var head := HeadLines(h, mqtt) + Lines(a);
    assert TextOf(h, View(mqtt, a + [c] + b)) == head + LineOf(c) + Lines(b);
    assert TextOf(h, View(mqtt, a + [d] + b)) == head + LineOf(d) + Lines(b);
    if head + LineOf(c) + Lines(b) == head + LineOf(d) + Lines(b) {
      Cancel(head, LineOf(c), LineOf(d), Lines(b));
    }
  }

  lemma MqttChangeReads(h: Header, connections: seq<ConnectionView>)
    ensures TextOf(h, View(true, connections)) != TextOf(h, View(false, connections))
  {
    hide Lines;
    assert |TextOf(h, View(false, connections))| == |TextOf(h, View(true, connections))| + 3;
  }

  /**
   `apply` returns true exactly when the text changes: for every state and event, the same
   header renders to different text, before the cap, iff the event changed the state.
   */
  lemma TextChangesExactly(s: State, e: StatusEvent, now: Time, h: Header)
    ensures ViewOf(Applied(s, e, now)) != ViewOf(s) <==> TextOf(h, ViewOf(Applied(s, e, now))) != TextOf(h, ViewOf(s))
  {
    hide TextOf, ConnectionApplied, ConnectionViewOf, LineOf;
    var s' := Applied(s, e, now);
    if s' != s {
      if AboutConnection(e) {
        var i := FindConnection(s.connections, e.connectionId);
        assert s.connections[i := s.connections[i]] == s.connections;
        ConnectionChangeReads(s.connections[i], e, now);
        var x, y := ViewOf(s).connections, ViewOf(s').connections;
        assert x == x[..i] + [x[i]] + x[i + 1..] && y == x[..i] + [y[i]] + x[i + 1..];
        LineChangeReads(x[..i], x[i], y[i], x[i + 1..], h, s.mqttConnected);
      } else {
        MqttChangeReads(h, ViewOf(s).connections);
      }
    }
  }

  /** And when both texts fit under the cap, exactly then do the bytes of the file change. */
  lemma FileChangesExactly(s: State, e: StatusEvent, now: Time, h: Header, before: seq<byte>, after: seq<byte>)
    requires IsTruncation(Encode(TextOf(h, ViewOf(s))), before) && |Encode(TextOf(h, ViewOf(s)))| <= MAX_STATUS_BYTES
    requires IsTruncation(Encode(TextOf(h, ViewOf(Applied(s, e, now)))), after)
    requires |Encode(TextOf(h, ViewOf(Applied(s, e, now))))| <= MAX_STATUS_BYTES
    ensures ViewOf(Applied(s, e, now)) != ViewOf(s) <==> after != before
  {
    hide TextOf, ViewOf, Applied;
    TextChangesExactly(s, e, now, h);
    if after == before {
      EncodeInjective(TextOf(h, ViewOf(s)), TextOf(h, ViewOf(Applied(s, e, now))));
    }
  }
}
