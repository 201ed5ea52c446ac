/** UTF-8 (sections 3 and 4 of RFC 3629) and the cut that caps the status file (src/status.rs). */
module Utf8 {
  type byte = x: int | 0 <= x < 0x100

  const MAX_STATUS_BYTES: nat := 2048

  const NEWLINE: byte := 10

  predicate IsContinuation(b: byte) {
    0x80 <= b < 0xC0
  }

  /** The length of the well-formed character at the front, or 0 if there is none. */
  function HeadLength(s: seq<byte>): (n: nat)
    ensures n <= |s|
  {
    if s == [] then 0
    else if s[0] < 0x80 then 1
    else if |s| >= 2 && 0xC2 <= s[0] <= 0xDF && IsContinuation(s[1]) then 2
    else if |s| >= 3 && IsContinuation(s[1]) && IsContinuation(s[2])
            && ((s[0] == 0xE0 && s[1] >= 0xA0) || 0xE1 <= s[0] <= 0xEC || (s[0] == 0xED && s[1] <= 0x9F) || 0xEE <= s[0] <= 0xEF)
    then 3
    else if |s| >= 4 && IsContinuation(s[1]) && IsContinuation(s[2]) && IsContinuation(s[3])
            && ((s[0] == 0xF0 && s[1] >= 0x90) || 0xF1 <= s[0] <= 0xF3 || (s[0] == 0xF4 && s[1] <= 0x8F))
    then 4
    else 0
  }

  predicate ValidUtf8(s: seq<byte>) {
    s == [] || (HeadLength(s) > 0 && ValidUtf8(s[HeadLength(s)..]))
  }

  /** `str::is_char_boundary`: not in the middle of a character. */
  predicate IsBoundary(s: seq<byte>, i: nat) {
    i == 0 || i == |s| || (i < |s| && !IsContinuation(s[i]))
  }

  lemma {:induction false} BoundaryPrefixIsValid(s: seq<byte>, end: nat)
    requires ValidUtf8(s) && end <= |s| && IsBoundary(s, end)
    ensures ValidUtf8(s[..end])
  {
    if end > 0 {
      var n := HeadLength(s);
      assert end >= n;
      BoundaryPrefixIsValid(s[n..], end - n);
      assert s[..end][n..] == s[n..][..end - n];
      assert HeadLength(s[..end]) == n;
    }
  }

  /** A character is at most four bytes long, so one of any four consecutive positions is a boundary. */
  lemma {:induction false} BoundaryNearby(s: seq<byte>, i: nat)
    requires ValidUtf8(s) && 3 <= i <= |s|
    ensures IsBoundary(s, i) || IsBoundary(s, i - 1) || IsBoundary(s, i - 2) || IsBoundary(s, i - 3)
  {
    var n := HeadLength(s);
    if i - 3 < n {
      if n <= i && n < |s| {
        assert ValidUtf8(s[n..]) && HeadLength(s[n..]) > 0 && s[n..][0] == s[n];
        assert IsBoundary(s, n);
      }
    } else {
      if i - n >= 3 {
        BoundaryNearby(s[n..], i - n);
        assert s[n..] != [] && HeadLength(s[n..]) > 0 && s[n..][0] == s[n];
        assert forall k :: n <= k <= |s| && IsBoundary(s[n..], k - n) ==> IsBoundary(s, k);
      }
    }
  }

  ghost predicate HasNewline(s: seq<byte>, lo: nat, hi: nat)
    requires lo <= hi <= |s|
  {
    exists k :: lo <= k < hi && s[k] == NEWLINE
  }

  /**
   What the cap promises: short text is kept; long text is cut to its longest prefix of complete
   lines that fits, or, when not even one line fits, to its longest prefix of complete characters.
   */
  ghost predicate IsTruncation(s: seq<byte>, r: seq<byte>) {
    if |s| <= 2048 then r == s
    else
      && r <= s && |r| <= 2048
      && if HasNewline(s, 0, 2048) then
           r != [] && r[|r| - 1] == NEWLINE && !HasNewline(s, |r|, 2048)
         else
           |r| >= 2045 && IsBoundary(s, |r|) && forall k :: |r| < k <= 2048 ==> !IsBoundary(s, k)
  }

  lemma NotLonger(s: seq<byte>, r: seq<byte>, q: seq<byte>)
    requires IsTruncation(s, r) && IsTruncation(s, q)
    ensures |q| <= |r|
  {
    if |s| > MAX_STATUS_BYTES && HasNewline(s, 0, MAX_STATUS_BYTES) {
      assert s[|q| - 1] == q[|q| - 1] == NEWLINE;
    }
  }

  lemma TruncationIsUnique(s: seq<byte>, r: seq<byte>, q: seq<byte>)
    requires IsTruncation(s, r) && IsTruncation(s, q)
    ensures r == q
  {
    NotLonger(s, r, q);
    NotLonger(s, q, r);
  }

  /** First to the start of a character, then, if there is one, to the end of a line. */
  method Truncate(s: seq<byte>) returns (r: seq<byte>)
    requires ValidUtf8(s)
    ensures IsTruncation(s, r) && ValidUtf8(r)
  {
    if |s| <= MAX_STATUS_BYTES {
      return s;
    }
    var end := MAX_STATUS_BYTES;
    BoundaryNearby(s, end);
    while !IsBoundary(s, end)
      decreases end
      invariant MAX_STATUS_BYTES - 3 <= end <= MAX_STATUS_BYTES
      invariant forall k :: end < k <= MAX_STATUS_BYTES ==> !IsBoundary(s, k)
    {
      end := end - 1;
    }
    forall k | end <= k < MAX_STATUS_BYTES ensures s[k] != NEWLINE {
      assert !IsBoundary(s, k + 1);
      if s[k] == NEWLINE {
        LineEndIsBoundary(s, k + 1);
        assert false;
      }
    }
    var line := end;
    while line > 0 && s[line - 1] != NEWLINE
      invariant 0 <= line <= end
      invariant forall k :: line <= k < end ==> s[k] != NEWLINE
    {
      line := line - 1;
    }
    if line > 0 {
      end := line;
      LineEndIsBoundary(s, end);
    }
    BoundaryPrefixIsValid(s, end);
    r := s[..end];
  }

  /** A newline is a whole character, so the position after it is a boundary. */
  lemma {:induction false} LineEndIsBoundary(s: seq<byte>, end: nat)
    requires ValidUtf8(s) && 0 < end <= |s| && s[end - 1] == NEWLINE
    ensures IsBoundary(s, end)
  {
    var n := HeadLength(s);
    assert n >= 1 && end >= n;
    if end > n {
      LineEndIsBoundary(s[n..], end - n);
    } else if n < |s| {
      assert HeadLength(s[n..]) > 0 && s[n..][0] == s[n];
    }
  }

  // ---------------------------------------------------------------- encoding

  /** The bytes of one Unicode scalar value (section 3 of RFC 3629). */
  function EncodeChar(c: char): (r: seq<byte>)
    ensures 1 <= |r| <= 4
  {
    var n := c as int;
    if n < 0x80 then [n]
    else if n < 0x800 then [0xC0 + n / 0x40, 0x80 + n % 0x40]
    else if n < 0x1_0000 then [0xE0 + n / 0x1000, 0x80 + n / 0x40 % 0x40, 0x80 + n % 0x40]
    else [0xF0 + n / 0x4_0000, 0x80 + n / 0x1000 % 0x40, 0x80 + n / 0x40 % 0x40, 0x80 + n % 0x40]
  }

  function Encode(text: string): seq<byte> {
    if text == "" then [] else EncodeChar(text[0]) + Encode(text[1..])
  }

  lemma EncodeCharLength(c: char, rest: seq<byte>)
    ensures HeadLength(EncodeChar(c) + rest) == |EncodeChar(c)|
  {
  }

  lemma {:induction false} EncodeIsValid(text: string)
    ensures ValidUtf8(Encode(text))
  {
    if text != "" {
      EncodeIsValid(text[1..]);
      EncodeCharLength(text[0], Encode(text[1..]));
      assert Encode(text)[|EncodeChar(text[0])|..] == Encode(text[1..]);
    }
  }

  function Code(s: seq<byte>): int
    requires 1 <= |s| <= 4
  {
    var a: int := s[0];
    if |s| == 1 then a
    else
      var b: int := s[1];
      if |s| == 2 then (a - 0xC0) * 0x40 + (b - 0x80)
      else
        var c: int := s[2];
        if |s| == 3 then (a - 0xE0) * 0x1000 + (b - 0x80) * 0x40 + (c - 0x80)
        else
          var d: int := s[3];
          (a - 0xF0) * 0x4_0000 + (b - 0x80) * 0x1000 + (c - 0x80) * 0x40 + (d - 0x80)
  }

  lemma CodeOfEncoded(c: char)
    ensures Code(EncodeChar(c)) == c as int
  {
    SixBits(c as int);
    SixBits(c as int / 0x40);
    SixBits(c as int / 0x1000);
  }

  lemma SixBits(n: nat)
    ensures n == n / 0x40 * 0x40 + n % 0x40
    ensures n / 0x40 / 0x40 == n / 0x1000 && n / 0x1000 / 0x40 == n / 0x4_0000
  {
  }

  /** Different texts have different bytes. */
  lemma {:induction false} EncodeInjective(a: string, b: string)
    requires Encode(a) == Encode(b)
    ensures a == b
  {
    if a == "" || b == "" {
    } else {
      var x, y := EncodeChar(a[0]), EncodeChar(b[0]);
      EncodeCharLength(a[0], Encode(a[1..]));
      EncodeCharLength(b[0], Encode(b[1..]));
      assert x == Encode(a)[..|x|] && y == Encode(b)[..|y|];
      CodeOfEncoded(a[0]);
      CodeOfEncoded(b[0]);
      assert Encode(a[1..]) == Encode(a)[|x|..] && Encode(b[1..]) == Encode(b)[|y|..];
      EncodeInjective(a[1..], b[1..]);
      assert a == [a[0]] + a[1..] && b == [b[0]] + b[1..];
    }
  }
}
