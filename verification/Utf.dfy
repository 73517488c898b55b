/** UTF-16 (section 2.2 of RFC 2781) and UTF-8 (section 3 of RFC 3629), as the meaning of stored text. */
module Utf {
  import opened Bytes

  type Unit = bv16
  type CodePoint = bv32

  const REPLACEMENT: CodePoint := 0xFFFD

  predicate IsHigh(u: Unit) { 0xD800 <= u <= 0xDBFF }
  predicate IsLow(u: Unit) { 0xDC00 <= u <= 0xDFFF }

  function Pair(high: Unit, low: Unit): CodePoint
    requires IsHigh(high) && IsLow(low)
  {
    ((((high as bv32) & 0x3FF) << 10) | ((low as bv32) & 0x3FF)) + 0x10000
  }

  /** Section 2.2 of RFC 2781; an unpaired surrogate stands for U+FFFD. */
  function Decode(units: seq<Unit>): seq<CodePoint> {
    if units == [] then []
    else if !IsHigh(units[0]) && !IsLow(units[0]) then [units[0] as bv32] + Decode(units[1..])
    else if IsHigh(units[0]) && |units| > 1 && IsLow(units[1]) then
      [Pair(units[0], units[1])] + Decode(units[2..])
    else [REPLACEMENT] + Decode(units[1..])
  }

  /** Section 3 of RFC 3629. */
  function Utf8(cp: CodePoint): seq<byte>
    requires cp < 0x110000
  {
    if cp < 0x80 then [cp as bv8]
    else if cp < 0x800 then [(0xC0 | (cp >> 6)) as bv8, (0x80 | (cp & 0x3F)) as bv8]
    else if cp < 0x10000 then
      [(0xE0 | (cp >> 12)) as bv8, (0x80 | ((cp >> 6) & 0x3F)) as bv8, (0x80 | (cp & 0x3F)) as bv8]
    else
      [(0xF0 | (cp >> 18)) as bv8, (0x80 | ((cp >> 12) & 0x3F)) as bv8,
       (0x80 | ((cp >> 6) & 0x3F)) as bv8, (0x80 | (cp & 0x3F)) as bv8]
  }

  /** Unicode scalar values: what UTF-8 may encode. */
  predicate Scalar(cp: CodePoint) { cp < 0xD800 || 0xE000 <= cp < 0x110000 }

  function Encode(cps: seq<CodePoint>): seq<byte>
    requires forall i :: 0 <= i < |cps| ==> Scalar(cps[i])
  {
    if cps == [] then []
    else
      assert Scalar(cps[0]);
      Utf8(cps[0]) + Encode(cps[1..])
  }

  lemma {:induction false} DecodeScalars(units: seq<Unit>)
    ensures forall i :: 0 <= i < |Decode(units)| ==> Scalar(Decode(units)[i])
  {
    if units == [] {
    } else if IsHigh(units[0]) && |units| > 1 && IsLow(units[1]) {
      DecodeScalars(units[2..]);
      PairScalar(units[0], units[1]);
    } else {
      DecodeScalars(units[1..]);
      UnitScalar(units[0]);
    }
  }

  lemma PairScalar(high: Unit, low: Unit)
    requires IsHigh(high) && IsLow(low)
    ensures 0x10000 <= Pair(high, low) < 0x110000
  {
  }

  lemma UnitScalar(u: Unit)
    ensures !IsHigh(u) && !IsLow(u) ==> Scalar(u as bv32)
    ensures (u as bv32) < 0x10000
  {
  }

  /** The UTF-8 text a sequence of UTF-16 units stands for. */
  function Text(units: seq<Unit>): seq<byte> {
    DecodeScalars(units);
    Encode(Decode(units))
  }

  // --- well-formed UTF-8 (the table of section 4 of RFC 3629) ---

  predicate Tail(b: byte) { 0x80 <= b <= 0xBF }

  /** Length of the well-formed character `s` starts with, 0 if there is none. */
  function FirstLen(s: seq<byte>): (n: nat)
    ensures n <= |s|
  {
    if |s| >= 1 && s[0] <= 0x7F then 1
    else if |s| >= 2 && 0xC2 <= s[0] <= 0xDF && Tail(s[1]) then 2
    else if |s| >= 3 && Tail(s[2]) &&
            ((s[0] == 0xE0 && 0xA0 <= s[1] <= 0xBF) || (0xE1 <= s[0] <= 0xEC && Tail(s[1]))
             || (s[0] == 0xED && 0x80 <= s[1] <= 0x9F) || (0xEE <= s[0] <= 0xEF && Tail(s[1]))) then 3
    else if |s| >= 4 && Tail(s[2]) && Tail(s[3]) &&
            ((s[0] == 0xF0 && 0x90 <= s[1] <= 0xBF) || (0xF1 <= s[0] <= 0xF3 && Tail(s[1]))
             || (s[0] == 0xF4 && 0x80 <= s[1] <= 0x8F)) then 4
    else 0
  }

  predicate WellFormed(s: seq<byte>) {
    s == [] || (FirstLen(s) > 0 && WellFormed(s[FirstLen(s)..]))
  }

  lemma Utf8First(cp: CodePoint, rest: seq<byte>)
    requires Scalar(cp)
    ensures FirstLen(Utf8(cp) + rest) == |Utf8(cp)|
  {
  }

  lemma {:induction false} EncodeWellFormed(cps: seq<CodePoint>)
    requires forall i :: 0 <= i < |cps| ==> Scalar(cps[i])
    ensures WellFormed(Encode(cps))
  {
    if cps != [] {
      var head, rest := Utf8(cps[0]), Encode(cps[1..]);
      Utf8First(cps[0], rest);
      EncodeWellFormed(cps[1..]);
      assert (head + rest)[|head|..] == rest;
    }
  }

  // --- one unit at a time ---

  /** `high` is a surrogate waiting for its partner; 0 means none. */
  function Pend(high: Unit): seq<Unit> { if high == 0 then [] else [high] }

  predicate PendOK(high: Unit) { high == 0 || IsHigh(high) }

  lemma TextPlain(u: Unit, rest: seq<Unit>)
    requires !IsHigh(u) && !IsLow(u)
    ensures Text([u] + rest) == Utf8(u as bv32) + Text(rest)
  {
    assert ([u] + rest)[1..] == rest;
  }

  lemma TextPair(high: Unit, low: Unit, rest: seq<Unit>)
    requires IsHigh(high) && IsLow(low)
    ensures Pair(high, low) < 0x110000 && Text([high, low] + rest) == Utf8(Pair(high, low)) + Text(rest)
  {
    PairScalar(high, low);
    assert ([high, low] + rest)[2..] == rest;
  }

  /** A surrogate without a partner is replaced, and what follows is unaffected. */
  lemma TextLone(u: Unit, rest: seq<Unit>)
    requires IsLow(u) || (IsHigh(u) && (rest == [] || !IsLow(rest[0])))
    ensures Text([u] + rest) == Utf8(REPLACEMENT) + Text(rest)
  {
    assert ([u] + rest)[1..] == rest;
  }

  /** Two pieces decode on their own unless the cut splits a surrogate pair. */
  lemma {:induction false} TextJoin(a: seq<Unit>, b: seq<Unit>)
    requires a != [] && b != [] ==> !(IsHigh(a[|a| - 1]) && IsLow(b[0]))
    ensures Text(a + b) == Text(a) + Text(b)
  {
    hide Text, Utf8, Pair, Decode, Encode;
    TextEmpty();
    if a == [] {
      assert a + b == b;
    } else if IsHigh(a[0]) && |a| > 1 && IsLow(a[1]) {
      TextPair(a[0], a[1], a[2..]);
      assert [a[0], a[1]] + a[2..] == a;
      TextPair(a[0], a[1], a[2..] + b);
      assert [a[0], a[1]] + (a[2..] + b) == a + b;
      TextJoin(a[2..], b);
    } else {
      assert [a[0]] + a[1..] == a;
      assert [a[0]] + (a[1..] + b) == a + b;
      if !IsHigh(a[0]) && !IsLow(a[0]) {
        TextPlain(a[0], a[1..]);
        TextPlain(a[0], a[1..] + b);
      } else {
        TextLone(a[0], a[1..]);
        TextLone(a[0], a[1..] + b);
      }
      TextJoin(a[1..], b);
    }
  }

  /** UTF-8 bytes one unit can need. */
  function Cost(u: Unit): nat { if u < 0x80 then 1 else if u < 0x800 then 2 else 3 }

  function TotalCost(units: seq<Unit>): nat { if units == [] then 0 else Cost(units[0]) + TotalCost(units[1..]) }

  lemma {:induction false} TextLength(units: seq<Unit>)
    ensures |Text(units)| <= TotalCost(units)
  {
    hide Text;
    if units == [] {
      TextEmpty();
    } else if !IsHigh(units[0]) && !IsLow(units[0]) {
      TextPlain(units[0], units[1..]);
      assert [units[0]] + units[1..] == units;
      TextLength(units[1..]);
    } else if IsHigh(units[0]) && |units| > 1 && IsLow(units[1]) {
      TextPair(units[0], units[1], units[2..]);
      assert [units[0], units[1]] + units[2..] == units;
      TextLength(units[2..]);
      assert units[1..][1..] == units[2..];
    } else {
      TextLone(units[0], units[1..]);
      assert [units[0]] + units[1..] == units;
      TextLength(units[1..]);
    }
  }

  lemma TextEmpty()
    ensures Text([]) == []
  {
  }
}
