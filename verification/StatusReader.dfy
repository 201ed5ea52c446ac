/** What a reader gets back from the status file (src/status.rs:222-278). */
module StatusReader {
  import opened Types
  import opened Status
  import opened StatusHistory
  import opened StatusText

  // ---------------------------------------------------------------- the head

  /** The first letter of the MQTT state, for a reader who knows the rest of the head. */
  function ReadMqtt(h: Header, text: string): bool {
    var at := |"gateway: "| + |h.gateway| + |"\nupdated: "| + |h.updated| + |"\nmqtt: "|;
    at < |text| && text[at] == 'c'
  }

  /** The file starts with the gateway, the time of writing and the broker with its state. */
  lemma MqttIsReadBack(h: Header, v: View)
    ensures ReadMqtt(h, TextOf(h, v)) == v.mqttConnected
    ensures "gateway: " + h.gateway + "\nupdated: " + h.updated + "\nmqtt: "
            + (if v.mqttConnected then "connected" else "disconnected") + " (" + h.broker + ")\n" <= TextOf(h, v)
  {
    hide Lines;
    var before := "gateway: " + h.gateway + "\nupdated: " + h.updated + "\nmqtt: ";
    var word := if v.mqttConnected then "connected" else "disconnected";
    var after := " (" + h.broker + ")\n" + Lines(v.connections);
    assert TextOf(h, v) == before + word + after;
    assert (before + word + after)[|before|] == word[0];
  }

  // ---------------------------------------------------------------- numbers

  predicate IsDigit(c: char) {
    '0' <= c <= '9'
  }

  /** The number of leading digits. */
  function Span(s: string): (n: nat)
    ensures n <= |s|
  {
    if s == "" || !IsDigit(s[0]) then 0 else 1 + Span(s[1..])
  }

  lemma {:induction false} DecimalIsDigits(n: nat)
    ensures Decimal(n) != "" && forall k :: 0 <= k < |Decimal(n)| ==> IsDigit(Decimal(n)[k])
  {
    if n >= 10 {
      DecimalIsDigits(n / 10);
    }
  }

  lemma {:induction false} SpanOfDigits(digits: string, rest: string)
    requires (forall k :: 0 <= k < |digits| ==> IsDigit(digits[k])) && (rest == "" || !IsDigit(rest[0]))
    ensures Span(digits + rest) == |digits|
  {
    if digits == "" {
      assert digits + rest == rest;
    } else {
      assert (digits + rest)[1..] == digits[1..] + rest;
      SpanOfDigits(digits[1..], rest);
    }
  }

  /** The number at the front, and what follows its digits. */
  function ReadNumber(s: string): (int, string) {
    (Parse(s[..Span(s)]), s[Span(s)..])
  }

  lemma NumberIsReadBack(n: nat, rest: string)
    requires rest == "" || !IsDigit(rest[0])
    ensures ReadNumber(Decimal(n) + rest) == (n, rest)
  {
    DecimalIsDigits(n);
    SpanOfDigits(Decimal(n), rest);
    ParseDecimal(n);
    assert (Decimal(n) + rest)[..|Decimal(n)|] == Decimal(n) && (Decimal(n) + rest)[|Decimal(n)|..] == rest;
  }

  // ---------------------------------------------------------------- a connection's line

  datatype Rollup = IsDown | IsUp(ok: int, total: int) | Unreadable

  function ReadRollup(s: string): Rollup {
    if s == "down\n" then IsDown
    else if |s| < 4 || s[..4] != "up, " then Unreadable
    else
      var (ok, rest) := ReadNumber(s[4..]);
      if rest == "" then Unreadable else IsUp(ok, ReadNumber(rest[1..]).0)
  }

  /** For a reader who knows the connection's id. */
  function ReadLine(id: string, line: string): Rollup {
    var head := |"connection "| + |id| + |": "|;
    if |line| < head then Unreadable else ReadRollup(line[head..])
  }

  lemma RollupIsReadBack(ok: nat, total: nat, rest: string)
    ensures ReadRollup("up, " + (Decimal(ok) + ("/" + (Decimal(total) + (" devices ok" + rest))))) == IsUp(ok, total)
  {
    hide Decimal, Span, Parse;
    var tail := Decimal(total) + (" devices ok" + rest);
    NumberIsReadBack(ok, "/" + tail);
    NumberIsReadBack(total, " devices ok" + rest);
    assert ("up, " + (Decimal(ok) + ("/" + tail)))[4..] == Decimal(ok) + ("/" + tail);
    assert ("/" + tail)[1..] == tail;
  }

  lemma LineTail(id: string, ok: nat, total: nat, problems: seq<ProblemView>)
    ensures LineOf(UpView(id, ok, total, problems)) ==
            ("connection " + id + ": ") + ("up, " + (Decimal(ok) + ("/" + (Decimal(total) + (" devices ok" + (Parenthesised(problems) + "\n"))))))
  {
    hide Decimal, Parenthesised;
  }

  /** The line says whether the connection is up, and if so how many of its devices are Ok out of how many. */
  lemma LineIsReadBack(conn: ConnectionStatus)
    ensures ReadLine(conn.id, LineOf(ConnectionViewOf(conn))) ==
            if conn.up then IsUp(|OkAt(conn.devices)|, |conn.devices|) else IsDown
  {
    var head := "connection " + conn.id + ": ";
    if conn.up {
      hide Decimal, Parenthesised, ReadRollup, LineOf, CountOk;
      CountIsNumberOk(conn.devices);
      var ok, total, problems := CountOk(conn.devices), |conn.devices|, Problems(conn.devices);
      var tail := "up, " + (Decimal(ok) + ("/" + (Decimal(total) + (" devices ok" + (Parenthesised(problems) + "\n")))));
      LineTail(conn.id, ok, total, problems);
      assert (head + tail)[|head|..] == tail;
      RollupIsReadBack(ok, total, Parenthesised(problems) + "\n");
    } else {
      assert LineOf(DownView(conn.id)) == head + "down\n";
      assert (head + "down\n")[|head|..] == "down\n";
    }
  }

  /** The lines stand in config order after the head, one for each connection. */
  lemma LinesInOrder(h: Header, s: State, i: nat)
    requires i < |s.connections|
    ensures var views := ViewOf(s).connections;
      TextOf(h, ViewOf(s)) == (HeadLines(h, s.mqttConnected) + Lines(views[..i])) + LineOf(ConnectionViewOf(s.connections[i])) + Lines(views[i + 1..])
  {
    hide HeadLines, LineOf, ConnectionViewOf, Lines;
    var views := ViewOf(s).connections;
    assert views == views[..i] + [views[i]] + views[i + 1..];
    LinesSplit(views[..i], views[i], views[i + 1..]);
    var a, b, c, d := HeadLines(h, s.mqttConnected), Lines(views[..i]), LineOf(views[i]), Lines(views[i + 1..]);
    assert a + (b + c + d) == (a + b) + c + d;
  }

  /** The problems stand at the end of the line, in parentheses, separated by commas. */
  lemma ProblemsEndTheLine(conn: ConnectionStatus)
    requires conn.up
    ensures var problems, line := Problems(conn.devices), LineOf(ConnectionViewOf(conn));
      && |line| > 0 && line[|line| - 1] == '\n'
      && (problems != [] ==>
            var tail := " (" + Join(problems) + ")\n";
            |line| >= |tail| && line[|line| - |tail|..] == tail)
  {
    hide Decimal, Join, CountOk, Problems;
    var ok, total, problems := CountOk(conn.devices), |conn.devices|, Problems(conn.devices);
    var head := "connection " + conn.id + ": up, " + Decimal(ok) + "/" + Decimal(total) + " devices ok";
    AppendIsConcat(conn.id, ok, total, problems);
    var line := LineOf(UpView(conn.id, ok, total, problems));
    if problems != [] {
      var tail := " (" + Join(problems) + ")\n";
      assert line == head + tail;
    }
  }

  lemma JoinSeparates(problems: seq<ProblemView>, p: ProblemView)
    ensures Join(problems + [p]) == if problems == [] then ProblemText(p) else Join(problems) + ", " + ProblemText(p)
  {
    assert (problems + [p])[..|problems|] == problems;
  }

  // ---------------------------------------------------------------- a problem

  /** The reason, for a reader who knows the device's id: the time takes the last 16 characters. */
  function ReadReason(device: string, text: string): string
    requires |text| >= |device| + 18
  {
    text[|device| + 2..|text| - 16]
  }

  function ReadTime(text: string): int
    requires |text| >= 9
  {
    var t := text[|text| - 9..];
    Parse(t[..2]) * 3600 + Parse(t[3..5]) * 60 + Parse(t[6..8])
  }

  lemma TwoDigitsReadBack(n: int)
    requires 0 <= n < 100
    ensures Parse(TwoDigits(n)) == n
  {
    var s := TwoDigits(n);
    assert s[..1] == [Digit(n / 10)] && [Digit(n / 10)][..0] == "";
    assert Parse([Digit(n / 10)]) == n / 10;
  }

  lemma TimeIsReadBack(t: Time)
    ensures ReadTime(TimeOfDay(t)) == t / 1_000_000_000 % 86400
  {
    hide Parse, TwoDigits;
    var secs := t / 1_000_000_000 % 86400;
    var h, m, s := secs / 3600, secs / 60 % 60, secs % 60;
    TwoDigitsReadBack(h);
    TwoDigitsReadBack(m);
    TwoDigitsReadBack(s);
    TwoLong(h);
    TwoLong(m);
    TwoLong(s);
    var text := TimeOfDay(t);
    assert text[0..] == text;
    assert text[..2] == TwoDigits(h) && text[3..5] == TwoDigits(m) && text[6..8] == TwoDigits(s);
  }

  lemma TwoLong(n: int)
    requires 0 <= n < 100
    ensures |TwoDigits(n)| == 2
  {
  }

  /** A problem's entry gives back its reason and the time of day it began. */
  lemma ProblemIsReadBack(p: ProblemView)
    ensures var text := ProblemText(p);
      |text| >= |p.device| + 18 && ReadReason(p.device, text) == p.reason && ReadTime(text) == p.since / 1_000_000_000 % 86400
  {
    hide TimeOfDay, Parse;
    var text, time := ProblemText(p), TimeOfDay(p.since);
    TimeIsReadBack(p.since);
    assert time[|time| - 9..] == time && text[|text| - 9..] == time;
  }
}
