/** What stored text says, from the writer's side: internal/gomdb/encoding.go. */
module TextMeaning {
  import opened Bytes
  import opened Utf
  import opened TextCodec

  // --- UTF-16 ---

  /** The encoder of section 2.1 of RFC 2781. */
  function Utf16(cp: CodePoint): (units: seq<Unit>)
    requires Scalar(cp)
  {
    if cp < 0x10000 then [cp as bv16]
    else [(0xD800 + (cp - 0x10000) / 0x400) as bv16, (0xDC00 + (cp - 0x10000) % 0x400) as bv16]
  }

  /** A string of units is a row of characters and of surrogates without a partner. */
  datatype Piece = Char(cp: CodePoint) | Lone(unit: Unit)

  predicate Good(p: Piece) { if p.Char? then Scalar(p.cp) else IsHigh(p.unit) || IsLow(p.unit) }

  /** The two would be read as one character. */
  predicate Joins(p: Piece, q: Piece) { p.Lone? && q.Lone? && IsHigh(p.unit) && IsLow(q.unit) }

  predicate Fits(ps: seq<Piece>) {
    && (forall i :: 0 <= i < |ps| ==> Good(ps[i]))
    && forall i :: 0 < i < |ps| ==> !Joins(ps[i - 1], ps[i])
  }

  function PieceUnits(p: Piece): (units: seq<Unit>)
    requires Good(p)
  {
    if p.Char? then Utf16(p.cp) else [p.unit]
  }

  function Units(ps: seq<Piece>): (units: seq<Unit>)
    requires Fits(ps)
  {
    if ps == [] then [] else
      PieceUnits(ps[0]) + Units(ps[1..])
  }

  /** The characters read: U+FFFD for a surrogate without a partner. */
  function Chars(ps: seq<Piece>): (cps: seq<CodePoint>)
    ensures |cps| == |ps|
    ensures forall i :: 0 <= i < |ps| ==> cps[i] == if ps[i].Char? then ps[i].cp else 0xFFFD
  {
    seq(|ps|, i requires 0 <= i < |ps| => if ps[i].Char? then ps[i].cp else 0xFFFD)
  }

  lemma PlainUnit(cp: CodePoint)
    requires Scalar(cp) && cp < 0x10000
    ensures !IsHigh(cp as bv16) && !IsLow(cp as bv16) && (cp as bv16) as bv32 == cp
  {
  }

  lemma Halves(v: bv32)
    ensures v / 0x400 == v >> 10 && v % 0x400 == v & 0x3FF
  {
  }

  function HighOf(v: bv32): Unit
    requires v < 0x100000
  {
    (0xD800 + (v >> 10)) as bv16
  }

  function LowOf(v: bv32): Unit
    requires v < 0x100000
  {
    (0xDC00 + (v & 0x3FF)) as bv16
  }

  lemma PairParts(v: bv32)
    requires v < 0x100000
    ensures IsHigh(HighOf(v)) && IsLow(LowOf(v)) && Pair(HighOf(v), LowOf(v)) == v + 0x10000
  {
  }

  lemma PairUnits(v: bv32)
    requires v < 0x100000
    ensures Scalar(v + 0x10000) && Utf16(v + 0x10000) == [HighOf(v), LowOf(v)]
  {
    Halves(v);
  }

  /** The surrogates of a character above U+FFFF are a pair that stands for it. */
  lemma PairBack(cp: CodePoint)
    requires 0x10000 <= cp < 0x110000
    ensures Scalar(cp) && |Utf16(cp)| == 2
    ensures IsHigh(Utf16(cp)[0]) && IsLow(Utf16(cp)[1]) && Pair(Utf16(cp)[0], Utf16(cp)[1]) == cp
  {
    hide *;
    var v := cp - 0x10000;
    PairUnits(v);
    PairParts(v);
  }

  lemma Prepend(p: Piece, ps: seq<Piece>)
    requires Good(p) && Fits(ps) && (ps != [] ==> !Joins(p, ps[0]))
    ensures Fits([p] + ps) && Units([p] + ps) == PieceUnits(p) + Units(ps)
  {
    hide Good, Joins, PieceUnits;
    assert ([p] + ps)[1..] == ps;
    forall i | 0 < i < |[p] + ps| ensures !Joins(([p] + ps)[i - 1], ([p] + ps)[i]) {
      if i > 1 { assert !Joins(ps[i - 2], ps[i - 1]); }
    }
  }

  /** Every string of units is written by some row of pieces. */
  lemma {:induction false} EveryString(units: seq<Unit>) returns (ps: seq<Piece>)
    ensures Fits(ps) && Units(ps) == units
  {
    hide Fits, IsHigh, IsLow, Good, Joins, PieceUnits;
    if units == [] {
      ps := [];
      NoPieces();
      return;
    }
    var p, n := FirstPiece(units);
    var rest := EveryString(units[n..]);
    assert units == units[..n] + units[n..];
    if rest != [] { NoJoin(p, rest, units, n); }
    Prepend(p, rest);
    ps := [p] + rest;
  }

  lemma NoPieces()
    ensures Fits([]) && Units([]) == []
  {
  }

  lemma NoJoin(p: Piece, rest: seq<Piece>, units: seq<Unit>, n: nat)
    requires rest != [] && Fits(rest) && n <= |units| && Units(rest) == units[n..]
    requires p.Lone? ==> n == 1 && units[0] == p.unit && !(IsHigh(units[0]) && |units| > 1 && IsLow(units[1]))
    ensures !Joins(p, rest[0])
  {
    hide Good, IsHigh, IsLow, Utf16;
    if p.Lone? && rest[0].Lone? { FirstUnit(rest); }
  }

  lemma FirstPiece(units: seq<Unit>) returns (p: Piece, n: nat)
    requires units != []
    ensures 0 < n <= |units| && Good(p) && PieceUnits(p) == units[..n]
    ensures p.Lone? ==> n == 1 && units[0] == p.unit && !(IsHigh(units[0]) && |units| > 1 && IsLow(units[1]))
  {
    hide Utf16, IsHigh, IsLow, Scalar;
    if IsHigh(units[0]) && |units| > 1 && IsLow(units[1]) {
      var cp := PairFrom(units[0], units[1]);
      return Char(cp), 2;
    } else if IsHigh(units[0]) || IsLow(units[0]) {
      return Lone(units[0]), 1;
    } else {
      PlainBack(units[0]);
      return Char(units[0] as bv32), 1;
    }
  }

  lemma FirstUnit(ps: seq<Piece>)
    requires Fits(ps) && ps != [] && ps[0].Lone?
    ensures Units(ps) != [] && Units(ps)[0] == ps[0].unit
  {
  }

  lemma PlainBack(u: Unit)
    requires !IsHigh(u) && !IsLow(u)
    ensures Scalar(u as bv32) && Utf16(u as bv32) == [u]
  {
  }

  lemma PairFrom(high: Unit, low: Unit) returns (cp: CodePoint)
    requires IsHigh(high) && IsLow(low)
    ensures Scalar(cp) && Utf16(cp) == [high, low]
  {
    cp := 0x10000 + ((high as bv32) - 0xD800) * 0x400 + ((low as bv32) - 0xDC00);
  }

  lemma DecodeStep(u: Unit, rest: seq<Unit>)
    ensures !IsHigh(u) && !IsLow(u) ==> Decode([u] + rest) == [u as bv32] + Decode(rest)
    ensures IsLow(u) || (IsHigh(u) && (rest == [] || !IsLow(rest[0]))) ==> Decode([u] + rest) == [0xFFFD] + Decode(rest)
  {
    assert ([u] + rest)[1..] == rest;
  }

  lemma DecodePair(high: Unit, low: Unit, rest: seq<Unit>)
    requires IsHigh(high) && IsLow(low)
    ensures Decode([high, low] + rest) == [Pair(high, low)] + Decode(rest)
  {
    assert ([high, low] + rest)[2..] == rest;
  }

  /** What a string of pieces begins with. */
  lemma Starts(ps: seq<Piece>)
    requires Fits(ps) && ps != []
    ensures Units(ps) != [] && (IsLow(Units(ps)[0]) ==> ps[0].Lone? && ps[0].unit == Units(ps)[0])
  {
    if ps[0].Char? {
      if ps[0].cp < 0x10000 { PlainUnit(ps[0].cp); } else { PairBack(ps[0].cp); }
    }
  }

  lemma DecodeChar(cp: CodePoint, rest: seq<Unit>)
    requires Scalar(cp)
    ensures Decode(Utf16(cp) + rest) == [cp] + Decode(rest)
  {
    hide Decode, Pair;
    if cp < 0x10000 {
      PlainUnit(cp);
      DecodeStep(cp as bv16, rest);
    } else {
      PairBack(cp);
      DecodePair(Utf16(cp)[0], Utf16(cp)[1], rest);
      assert Utf16(cp) == [Utf16(cp)[0], Utf16(cp)[1]];
    }
  }

  /** Section 2.2 undoes section 2.1: characters come back, and each surrogate without a partner is U+FFFD. */
  lemma {:induction false} DecodeUnits(ps: seq<Piece>)
    requires Fits(ps)
    ensures Decode(Units(ps)) == Chars(ps)
  {
    hide Decode, Utf16, IsHigh, IsLow, Scalar;
    if ps == [] {
      DecodeEmpty();
    } else {
      var rest := Units(ps[1..]);
      DecodeUnits(ps[1..]);
      assert Chars(ps) == [Chars(ps)[0]] + Chars(ps[1..]);
      if ps[0].Char? {
        DecodeChar(ps[0].cp, rest);
      } else {
        if ps[1..] != [] {
          Starts(ps[1..]);
          assert ps[1..][0] == ps[1];
        }
        DecodeStep(ps[0].unit, rest);
      }
    }
  }

  lemma DecodeEmpty()
    ensures Decode([]) == []
  {
  }

  // --- UTF-8 ---

  function Value2(a: byte, b: byte): CodePoint { ((a as bv32) - 0xC0) * 0x40 + ((b as bv32) - 0x80) }

  function Value3(a: byte, b: byte, c: byte): CodePoint {
    ((a as bv32) - 0xE0) * 0x1000 + ((b as bv32) - 0x80) * 0x40 + ((c as bv32) - 0x80)
  }

  function Value4(a: byte, b: byte, c: byte, d: byte): CodePoint {
    ((a as bv32) - 0xF0) * 0x40000 + ((b as bv32) - 0x80) * 0x1000 + ((c as bv32) - 0x80) * 0x40 + ((d as bv32) - 0x80)
  }

  /** The character at the front, each byte at its place value. */
  function Value(s: seq<byte>): CodePoint
    requires FirstLen(s) > 0
  {
    if FirstLen(s) == 1 then s[0] as bv32
    else if FirstLen(s) == 2 then Value2(s[0], s[1])
    else if FirstLen(s) == 3 then Value3(s[0], s[1], s[2])
    else Value4(s[0], s[1], s[2], s[3])
  }

  function FromUtf8(s: seq<byte>): (cps: seq<CodePoint>)
    requires WellFormed(s)
  {
    if s == [] then [] else [Value(s)] + FromUtf8(s[FirstLen(s)..])
  }

  lemma Places2(cp: CodePoint)
    requires 0x80 <= cp < 0x800
    ensures Value2((0xC0 | (cp >> 6)) as bv8, (0x80 | (cp & 0x3F)) as bv8) == cp
  {
  }

  lemma Places3(cp: CodePoint)
    requires 0x800 <= cp < 0x10000
    ensures Value3((0xE0 | (cp >> 12)) as bv8, (0x80 | ((cp >> 6) & 0x3F)) as bv8, (0x80 | (cp & 0x3F)) as bv8) == cp
  {
  }

  lemma Places4(cp: CodePoint)
    requires 0x10000 <= cp < 0x110000
    ensures Value4((0xF0 | (cp >> 18)) as bv8, (0x80 | ((cp >> 12) & 0x3F)) as bv8,
      (0x80 | ((cp >> 6) & 0x3F)) as bv8, (0x80 | (cp & 0x3F)) as bv8) == cp
  {
  }

  /** The bytes of a character, read by place value, give the character. */
  lemma ValueBack(cp: CodePoint, rest: seq<byte>)
    requires Scalar(cp)
    ensures FirstLen(Utf8(cp) + rest) == |Utf8(cp)| > 0 && Value(Utf8(cp) + rest) == cp
  {
    hide FirstLen, Value2, Value3, Value4;
    Utf8First(cp, rest);
    if cp < 0x80 {
    } else if cp < 0x800 {
      Places2(cp);
    } else if cp < 0x10000 {
      Places3(cp);
    } else {
      Places4(cp);
    }
  }

  /** Reading the written characters gives them back. */
  lemma {:induction false} ReadBack(cps: seq<CodePoint>)
    requires forall i :: 0 <= i < |cps| ==> Scalar(cps[i])
    ensures WellFormed(Encode(cps)) && FromUtf8(Encode(cps)) == cps
  {
    hide Utf8, FirstLen, Value;
    EncodeWellFormed(cps);
    if cps != [] {
      assert Scalar(cps[0]);
      var head, rest := Utf8(cps[0]), Encode(cps[1..]);
      ValueBack(cps[0], rest);
      ReadBack(cps[1..]);
      assert (head + rest)[|head|..] == rest;
    }
  }

  lemma TextReads(ps: seq<Piece>)
    requires Fits(ps)
    ensures WellFormed(Text(Units(ps))) && FromUtf8(Text(Units(ps))) == Chars(ps)
  {
    DecodeScalars(Units(ps));
    ReadBack(Decode(Units(ps)));
    DecodeUnits(ps);
  }

  // --- stored bytes ---

  function LowByte(u: Unit): byte { (u % 0x100) as bv8 }

  function HighByte(u: Unit): byte { (u / 0x100) as bv8 }

  /** Two bytes a unit, low byte first. */
  function TwoBytes(units: seq<Unit>): seq<byte> {
    if units == [] then [] else [LowByte(units[0]), HighByte(units[0])] + TwoBytes(units[1..])
  }

  lemma UnitParts(u: Unit)
    ensures UnitLE(LowByte(u), HighByte(u)) == u
  {
    assert u % 0x100 == u & 0xFF && u / 0x100 == u >> 8;
  }

  /** Two bytes a unit are read back; a byte too many is dropped. */
  lemma {:induction false} TwoBytesBack(units: seq<Unit>, last: seq<byte>)
    requires |last| <= 1
    ensures UnitsLE(TwoBytes(units) + last) == units
  {
    hide UnitLE, LowByte, HighByte;
    if units != [] {
      UnitParts(units[0]);
      TwoBytesBack(units[1..], last);
      assert (TwoBytes(units) + last)[2..] == TwoBytes(units[1..]) + last;
    }
  }

  /** Jet4 text without the prefix: the characters the writer put into UTF-16. */
  lemma StoredUtf16(ps: seq<Piece>, last: seq<byte>)
    requires Fits(ps) && |last| <= 1
    requires !Prefixed(TwoBytes(Units(ps)) + last)
    ensures var read := Meaning(TwoBytes(Units(ps)) + last, true);
      WellFormed(read) && FromUtf8(read) == Chars(ps)
  {
    TwoBytesBack(Units(ps), last);
    TextReads(ps);
  }

  /** Jet3 text: every byte is the character of that number. */
  lemma StoredLatin1(src: seq<byte>)
    ensures var read := Meaning(src, false);
      && WellFormed(read) && |FromUtf8(read)| == |src|
      && forall i :: 0 <= i < |src| ==> FromUtf8(read)[i] == src[i] as bv32
  {
    var ps := WidenUnits(src);
    TextReads(ps);
  }

  function ByteChar(b: byte): Piece { Char(b as bv32) }

  lemma ByteUnits(b: byte)
    ensures Good(ByteChar(b)) && PieceUnits(ByteChar(b)) == [b as bv16]
  {
  }

  lemma {:induction false} WidenUnits(src: seq<byte>) returns (ps: seq<Piece>)
    ensures Fits(ps) && Units(ps) == Widen(src)
    ensures |ps| == |src| && forall i :: 0 <= i < |src| ==> ps[i] == ByteChar(src[i])
  {
    hide Good, Fits, Units, PieceUnits;
    if src == [] {
      NoPieces();
      return [];
    }
    var rest := WidenUnits(src[1..]);
    ByteUnits(src[0]);
    Prepend(ByteChar(src[0]), rest);
    ps := [ByteChar(src[0])] + rest;
  }

  /** Compressed text: units, and the zero bytes that switch between one byte a unit and two. */
  datatype Mark = Switch | Put(unit: Unit)

  predicate Writable(marks: seq<Mark>, narrow: bool) {
    marks == []
    || (marks[0].Switch? && Writable(marks[1..], !narrow))
    || (marks[0].Put? && LowByte(marks[0].unit) != 0 && (narrow ==> HighByte(marks[0].unit) == 0) && Writable(marks[1..], narrow))
  }

  function Written(marks: seq<Mark>, narrow: bool): seq<byte>
    requires Writable(marks, narrow)
  {
    if marks == [] then []
    else if marks[0].Switch? then [0] + Written(marks[1..], !narrow)
    else
      [LowByte(marks[0].unit)] + (if narrow then [] else [HighByte(marks[0].unit)]) + Written(marks[1..], narrow)
  }

  function Puts(marks: seq<Mark>): seq<Unit> {
    if marks == [] then [] else (if marks[0].Switch? then [] else [marks[0].unit]) + Puts(marks[1..])
  }

  /** Whether one byte is a unit at the end. */
  function NarrowAtEnd(marks: seq<Mark>, narrow: bool): bool {
    if marks == [] then narrow else NarrowAtEnd(marks[1..], narrow != marks[0].Switch?)
  }

  /** Half a unit at the end is dropped. */
  predicate Leftover(last: seq<byte>, narrow: bool) { last == [] || (|last| == 1 && last[0] != 0 && !narrow) }

  lemma InflateNarrow(u: Unit, rest: seq<byte>)
    requires LowByte(u) != 0 && HighByte(u) == 0
    ensures Inflate([LowByte(u)] + rest, true) == [u] + Inflate(rest, true)
  {
    hide Inflate, LowByte, HighByte;
    var src := [LowByte(u)] + rest;
    assert src[0] == LowByte(u) && src[1..] == rest;
    InflateByte(src);
    NarrowUnit(u);
  }

  lemma InflateWide(u: Unit, rest: seq<byte>)
    requires LowByte(u) != 0
    ensures Inflate([LowByte(u), HighByte(u)] + rest, false) == [u] + Inflate(rest, false)
  {
    hide Inflate, LowByte, HighByte, UnitLE;
    var src := [LowByte(u), HighByte(u)] + rest;
    assert src[0] == LowByte(u) && src[1] == HighByte(u) && src[2..] == rest;
    InflateUnit(src);
    UnitParts(u);
  }

  lemma InflateSwitch(rest: seq<byte>, narrow: bool)
    ensures Inflate([0] + rest, narrow) == Inflate(rest, !narrow)
  {
    hide Inflate;
    InflateToggle([0] + rest, narrow);
    assert ([0] + rest)[1..] == rest;
  }

  lemma WrittenStep(marks: seq<Mark>, narrow: bool, last: seq<byte>)
    requires Writable(marks, narrow) && marks != []
    ensures var whole := Written(marks, narrow) + last;
      if marks[0].Switch? then whole == [0] + (Written(marks[1..], !narrow) + last)
      else
        var low, high, rest := LowByte(marks[0].unit), HighByte(marks[0].unit), Written(marks[1..], narrow) + last;
        whole == if narrow then [low] + rest else [low, high] + rest
  {
    hide LowByte, HighByte;
  }

  lemma {:induction false} InflateWritten(marks: seq<Mark>, narrow: bool, last: seq<byte>)
    requires Writable(marks, narrow) && Leftover(last, NarrowAtEnd(marks, narrow))
    ensures Inflate(Written(marks, narrow) + last, narrow) == Puts(marks)
  {
    hide Inflate, Writable, Written, LowByte, HighByte;
    if marks == [] {
      NothingWritten(narrow);
      assert [] + last == last;
      InflateEnd(last, narrow);
      return;
    }
    WritableTail(marks, narrow);
    WrittenStep(marks, narrow, last);
    if marks[0].Switch? {
      InflateWritten(marks[1..], !narrow, last);
      InflateSwitch(Written(marks[1..], !narrow) + last, narrow);
    } else {
      InflateWritten(marks[1..], narrow, last);
      var rest := Written(marks[1..], narrow) + last;
      if narrow { InflateNarrow(marks[0].unit, rest); } else { InflateWide(marks[0].unit, rest); }
    }
  }

  lemma NothingWritten(narrow: bool)
    ensures Writable([], narrow) && Written([], narrow) == []
  {
  }

  lemma WritableTail(marks: seq<Mark>, narrow: bool)
    requires Writable(marks, narrow) && marks != []
    ensures marks[0].Switch? ==> Writable(marks[1..], !narrow)
    ensures marks[0].Put? ==> Writable(marks[1..], narrow) && LowByte(marks[0].unit) != 0 && (narrow ==> HighByte(marks[0].unit) == 0)
  {
  }

  lemma NarrowUnit(u: Unit)
    requires HighByte(u) == 0
    ensures LowByte(u) as bv16 == u
  {
  }

  /** Jet4 text with the prefix: the characters the writer compressed, wherever it switched. */
  lemma StoredCompressed(ps: seq<Piece>, marks: seq<Mark>, last: seq<byte>)
    requires Fits(ps) && Writable(marks, true) && Puts(marks) == Units(ps)
    requires Leftover(last, NarrowAtEnd(marks, true))
    ensures var read := Meaning([0xFF, 0xFE] + Written(marks, true) + last, true);
      WellFormed(read) && FromUtf8(read) == Chars(ps)
  {
    hide Inflate, Text, Units;
    var src := [0xFF, 0xFE] + Written(marks, true) + last;
    assert src[2..] == Written(marks, true) + last;
    InflateWritten(marks, true, last);
    TextReads(ps);
  }

  /** Every byte string is written by some marks, so the three laws cover all stored text. */
  lemma {:induction false} EveryBody(src: seq<byte>, narrow: bool) returns (marks: seq<Mark>, last: seq<byte>)
    ensures Writable(marks, narrow) && Leftover(last, NarrowAtEnd(marks, narrow))
    ensures src == Written(marks, narrow) + last
    decreases |src|
  {
    hide UnitLE, LowByte, HighByte;
    if src == [] || (|src| == 1 && src[0] != 0 && !narrow) {
      return [], src;
    }
    var rest, mark;
    if src[0] == 0 {
      rest, last := EveryBody(src[1..], !narrow);
      mark := Switch;
    } else if narrow {
      rest, last := EveryBody(src[1..], true);
      mark := Put(UnitLE(src[0], 0));
      UnitBack(src[0], 0);
    } else {
      rest, last := EveryBody(src[2..], false);
      mark := Put(UnitLE(src[0], src[1]));
      UnitBack(src[0], src[1]);
    }
    marks := [mark] + rest;
    assert marks[1..] == rest;
  }

  lemma UnitBack(lo: byte, hi: byte)
    ensures LowByte(UnitLE(lo, hi)) == lo && HighByte(UnitLE(lo, hi)) == hi
  {
    var u := UnitLE(lo, hi);
    assert u % 0x100 == u & 0xFF && u / 0x100 == u >> 8;
  }
}
