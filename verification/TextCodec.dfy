/** Decoding stored text straight to UTF-8: internal/gomdb/encoding.go. */
module TextCodec {
  import opened Bytes
  import opened Utf

  // --- the slow meaning ---

  /** What `decompressUnicode` yields from `src` on, in the given mode. */
  function Decompress(src: seq<byte>, compress: bool): seq<byte> {
    if src == [] then []
    else if src[0] == 0 then Decompress(src[1..], !compress)
    else if compress then [src[0], 0] + Decompress(src[1..], true)
    else if |src| > 1 then [src[0], src[1]] + Decompress(src[2..], false)
    else []
  }

  function UnitLE(lo: byte, hi: byte): Unit { (lo as bv16) | ((hi as bv16) << 8) }

  /** Little-endian units; an odd last byte is dropped. */
  function UnitsLE(src: seq<byte>): seq<Unit> {
    if |src| < 2 then [] else [UnitLE(src[0], src[1])] + UnitsLE(src[2..])
  }

  /** One unit a byte: Jet3 text. */
  function Widen(src: seq<byte>): seq<Unit> {
    if src == [] then [] else [src[0] as bv16] + Widen(src[1..])
  }

  /** The units compressed text stands for. */
  function Inflate(src: seq<byte>, compress: bool): seq<Unit> { UnitsLE(Decompress(src, compress)) }

  predicate Prefixed(src: seq<byte>) { |src| >= 2 && src[0] == 0xFF && src[1] == 0xFE }

  /** The text a stored value stands for. */
  function Meaning(src: seq<byte>, isJet4: bool): seq<byte> {
    Text(if !isJet4 then Widen(src) else if Prefixed(src) then Inflate(src[2..], true) else UnitsLE(src))
  }

  method DecompressUnicode(src: seq<byte>) returns (dst: seq<byte>)
    ensures dst == Decompress(src, true)
  {
    dst := [];
    var compress := true;
    var i := 0;
    ghost var goal := Decompress(src, true);
    assert src[0..] == src;
    while i < |src|
      invariant 0 <= i <= |src|
      invariant dst + Decompress(src[i..], compress) == goal
    {
      assert src[i..][1..] == src[i + 1..];
      if src[i] == 0 {
        compress := !compress;
        i := i + 1;
      } else if compress {
        dst := dst + [src[i], 0];
        i := i + 1;
      } else if i + 1 < |src| {
        assert src[i..][2..] == src[i + 2..];
        dst := dst + [src[i], src[i + 1]];
        i := i + 2;
      } else {
        break;
      }
    }
  }

  // --- steps of the meaning ---

  lemma UnitsStep(lo: byte, hi: byte, rest: seq<byte>)
    ensures UnitsLE([lo, hi] + rest) == [UnitLE(lo, hi)] + UnitsLE(rest)
  {
    assert ([lo, hi] + rest)[2..] == rest;
  }

  lemma InflateToggle(src: seq<byte>, c: bool)
    requires src != [] && src[0] == 0
    ensures Inflate(src, c) == Inflate(src[1..], !c)
  {
  }

  lemma InflateByte(src: seq<byte>)
    requires src != [] && src[0] != 0
    ensures Inflate(src, true) == [src[0] as bv16] + Inflate(src[1..], true)
  {
    UnitsStep(src[0], 0, Decompress(src[1..], true));
  }

  lemma InflateUnit(src: seq<byte>)
    requires |src| > 1 && src[0] != 0
    ensures Inflate(src, false) == [UnitLE(src[0], src[1])] + Inflate(src[2..], false)
  {
    UnitsStep(src[0], src[1], Decompress(src[2..], false));
  }

  lemma ByteText(b: byte, rest: seq<Unit>)
    ensures Text([b as bv16] + rest) == Utf8(b as bv32) + Text(rest)
  {
    ByteUnit(b);
    TextPlain(b as bv16, rest);
  }

  lemma ByteUnit(b: byte)
    ensures !IsHigh(b as bv16) && !IsLow(b as bv16) && (b as bv16) as bv32 == b as bv32
  {
  }

  // --- runs of plain bytes, eight at a time ---

  predicate Plain(b: byte) { b != 0 && b < 0x80 }

  const MSB: bv64 := 0x8080808080808080
  const ONES: bv64 := 0x0101010101010101

  function Word(s: seq<byte>): bv64
    requires |s| == 8
  {
    (s[0] as bv64) | ((s[1] as bv64) << 8) | ((s[2] as bv64) << 16) | ((s[3] as bv64) << 24)
    | ((s[4] as bv64) << 32) | ((s[5] as bv64) << 40) | ((s[6] as bv64) << 48) | ((s[7] as bv64) << 56)
  }

  /** The word test: some byte is zero or has its high bit set. */
  predicate HasStop(w: bv64) { w & MSB != 0 || (w - ONES) & !w & MSB != 0 }

  lemma WordTest(s: seq<byte>)
    requires |s| == 8
    ensures HasStop(Word(s)) <==>
      !(Plain(s[0]) && Plain(s[1]) && Plain(s[2]) && Plain(s[3]) && Plain(s[4]) && Plain(s[5]) && Plain(s[6]) && Plain(s[7]))
  {
  }

  lemma WordPlain(s: seq<byte>)
    requires |s| == 8
    ensures HasStop(Word(s)) <==> exists k :: 0 <= k < 8 && !Plain(s[k])
  {
    WordTest(s);
  }

  method AsciiRunLen(src: seq<byte>, start: nat) returns (i: nat)
    requires start <= |src|
    ensures start <= i <= |src|
    ensures forall k :: start <= k < i ==> Plain(src[k])
    ensures i < |src| ==> !Plain(src[i])
  {
    i := start;
    while i + 8 <= |src|
      invariant start <= i <= |src|
      invariant forall k :: start <= k < i ==> Plain(src[k])
    {
      var w := Word(src[i..i + 8]);
      WordPlain(src[i..i + 8]);
      if HasStop(w) {
        break;
      }
      forall k | i <= k < i + 8 ensures Plain(src[k]) { assert src[i..i + 8][k - i] == src[k]; }
      i := i + 8;
    }
    while i < |src| && src[i] != 0 && src[i] < 0x80
      invariant start <= i <= |src|
      invariant forall k :: start <= k < i ==> Plain(src[k])
    {
      i := i + 1;
    }
  }

  method UnicodeFastPath(src: seq<byte>, isJet4: bool) returns (body: seq<byte>, ok: bool)
    ensures ok <==> isJet4 && Prefixed(src) && forall k :: 2 <= k < |src| ==> Plain(src[k])
    ensures ok ==> body == src[2..] && body == Meaning(src, isJet4)
  {
    if !isJet4 || |src| < 2 || src[0] != 0xFF || src[1] != 0xFE {
      return [], false;
    }
    body := src[2..];
    var i := 0;
    while i + 8 <= |body|
      invariant 0 <= i <= |body|
      invariant forall k :: 0 <= k < i ==> Plain(body[k])
    {
      var w := Word(body[i..i + 8]);
      WordPlain(body[i..i + 8]);
      if HasStop(w) {
        var k :| 0 <= k < 8 && !Plain(body[i..i + 8][k]);
        assert !Plain(src[2 + i + k]);
        return [], false;
      }
      forall k | i <= k < i + 8 ensures Plain(body[k]) { assert body[i..i + 8][k - i] == body[k]; }
      i := i + 8;
    }
    while i < |body|
      invariant 0 <= i <= |body|
      invariant forall k :: 0 <= k < i ==> Plain(body[k])
    {
      if body[i] == 0 || body[i] >= 0x80 {
        assert !Plain(src[2 + i]);
        return [], false;
      }
      i := i + 1;
    }
    RunText(body, |body|);
    assert body[|body|..] == [];
    TextEmpty();
    return body, true;
  }

  /** A run of plain bytes in compressed mode is its own UTF-8 text. */
  lemma {:induction false} RunText(src: seq<byte>, k: nat)
    requires k <= |src| && forall j :: 0 <= j < k ==> Plain(src[j])
    ensures Text(Inflate(src, true)) == src[..k] + Text(Inflate(src[k..], true))
    decreases k
  {
    hide Text, Inflate;
    if k == 0 {
      assert src[0..] == src;
    } else {
      InflateByte(src);
      ByteText(src[0], Inflate(src[1..], true));
      RunText(src[1..], k - 1);
      assert src[1..][k - 1..] == src[k..];
      assert [src[0]] + src[1..][..k - 1] == src[..k];
    }
  }

  // --- one UTF-16 unit ---

  lemma PendLone(high: Unit, rest: seq<Unit>)
    requires IsHigh(high) && (rest == [] || !IsLow(rest[0]))
    ensures Text(Pend(high) + rest) == Utf8(REPLACEMENT) + Text(rest)
  {
    TextLone(high, rest);
  }

  lemma PendNone(rest: seq<Unit>)
    ensures Pend(0) + rest == rest
  {
  }

  /** The bytes of a unit outside the surrogate range. */
  function UnitUtf8(u: Unit): seq<byte> {
    if u < 0x80 then [u as bv8]
    else if u < 0x800 then [0xC0 | ((u >> 6) as bv8), 0x80 | ((u & 0x3F) as bv8)]
    else [0xE0 | ((u >> 12) as bv8), 0x80 | (((u >> 6) & 0x3F) as bv8), 0x80 | ((u & 0x3F) as bv8)]
  }

  /** The shifts on 16-bit units give the bytes of section 3 of RFC 3629. */
  lemma UnitBytes(u: Unit)
    ensures UnitUtf8(u) == Utf8(u as bv32)
  {
  }

  lemma UnitText(u: Unit, rest: seq<Unit>)
    requires !IsHigh(u) && !IsLow(u)
    ensures Text([u] + rest) == UnitUtf8(u) + Text(rest)
  {
    TextPlain(u, rest);
    UnitBytes(u);
  }

  /** `rest` stands for the units still to come: what is written plus what they mean stays the same. */
  method AppendUTF16Unit(dst: seq<byte>, pendingHigh: Unit, unit: Unit, ghost rest: seq<Unit>)
      returns (out: seq<byte>, pending: Unit)
    requires PendOK(pendingHigh)
    ensures PendOK(pending)
    ensures out + Text(Pend(pending) + rest) == dst + Text(Pend(pendingHigh) + ([unit] + rest))
  {
    hide Text, Utf8, UnitUtf8;
    out, pending := dst, pendingHigh;
    PendNone(rest);
    PendNone([unit] + rest);
    if pending != 0 {
      if 0xDC00 <= unit <= 0xDFFF {
        TextPair(pending, unit, rest);
        assert Pend(pendingHigh) + ([unit] + rest) == [pendingHigh, unit] + rest;
        return out + Utf8(Pair(pending, unit)), 0;
      }
      PendLone(pending, [unit] + rest);
      out := out + Utf8(REPLACEMENT);
      pending := 0;
    }
    assert out + Text([unit] + rest) == dst + Text(Pend(pendingHigh) + ([unit] + rest));
    if 0xD800 <= unit <= 0xDBFF {
      pending := unit;
    } else if 0xDC00 <= unit <= 0xDFFF {
      TextLone(unit, rest);
      out := out + Utf8(REPLACEMENT);
    } else {
      UnitText(unit, rest);
      out := out + UnitUtf8(unit);
    }
  }

  /** Compression mode and pending surrogate of one memo stream. */
  class ChunkState {
    var compressed: bool
    var pendingHigh: Unit

    constructor (compressed: bool)
      ensures this.compressed == compressed && pendingHigh == 0
    {
      this.compressed := compressed;
      pendingHigh := 0;
    }
  }

  // --- UTF-16LE ---

  predicate AsciiUnit(src: seq<byte>, i: nat)
    requires i + 1 < |src|
  {
    src[i + 1] == 0 && src[i] < 0x80
  }

  lemma WordTest16(s: seq<byte>)
    requires |s| == 8
    ensures Word(s) & 0xFF80FF80FF80FF80 == 0 <==>
      AsciiUnit(s, 0) && AsciiUnit(s, 2) && AsciiUnit(s, 4) && AsciiUnit(s, 6)
  {
  }

  /** The low bytes of `src[i..j]`, two bytes a unit. */
  function Lows(src: seq<byte>, i: nat, j: nat): seq<byte>
    requires i <= j <= |src|
    decreases j - i
  {
    if j - i < 2 then [] else [src[i]] + Lows(src, i + 2, j)
  }

  method AsciiUTF16RunLen(src: seq<byte>, start: nat) returns (i: nat)
    requires start <= |src|
    ensures start <= i <= |src| && (i - start) % 2 == 0
    ensures forall k :: start <= k < i && (k - start) % 2 == 0 ==> k + 1 < i && AsciiUnit(src, k)
    ensures i + 1 < |src| ==> !AsciiUnit(src, i)
  {
    i := start;
    while i + 8 <= |src|
      invariant start <= i <= |src| && (i - start) % 2 == 0
      invariant forall k :: start <= k < i && (k - start) % 2 == 0 ==> k + 1 < i && AsciiUnit(src, k)
    {
      var w := Word(src[i..i + 8]);
      WordTest16(src[i..i + 8]);
      if w & 0xFF80FF80FF80FF80 != 0 {
        break;
      }
      forall k | i <= k < i + 8 && (k - start) % 2 == 0 ensures k + 1 < i + 8 && AsciiUnit(src, k) {
        assert k == i || k == i + 2 || k == i + 4 || k == i + 6;
        assert AsciiUnit(src[i..i + 8], k - i);
      }
      i := i + 8;
    }
    while i + 1 < |src| && src[i + 1] == 0 && src[i] < 0x80
      invariant start <= i <= |src| && (i - start) % 2 == 0
      invariant forall k :: start <= k < i && (k - start) % 2 == 0 ==> k + 1 < i && AsciiUnit(src, k)
    {
      i := i + 2;
    }
  }

  lemma UnitsAt(src: seq<byte>, i: nat)
    requires i + 1 < |src|
    ensures UnitsLE(src[i..]) == [UnitLE(src[i], src[i + 1])] + UnitsLE(src[i + 2..])
  {
    assert src[i..][2..] == src[i + 2..];
  }

  lemma {:induction false} AsciiUnits(src: seq<byte>, i: nat, j: nat)
    requires i <= j <= |src| && (j - i) % 2 == 0
    requires forall k :: i <= k < j && (k - i) % 2 == 0 ==> k + 1 < j && AsciiUnit(src, k)
    ensures Text(UnitsLE(src[i..])) == Lows(src, i, j) + Text(UnitsLE(src[j..]))
    decreases j - i
  {
    hide Text, UnitsLE;
    if i < j {
      UnitsAt(src, i);
      assert AsciiUnit(src, i);
      LowUnit(src[i]);
      ByteText(src[i], UnitsLE(src[i + 2..]));
      forall k | i + 2 <= k < j && (k - (i + 2)) % 2 == 0 ensures k + 1 < j && AsciiUnit(src, k) {
        assert (k - i) % 2 == 0;
      }
      AsciiUnits(src, i + 2, j);
    }
  }

  lemma LowUnit(b: byte)
    ensures UnitLE(b, 0) == b as bv16
    ensures b < 0x80 ==> Utf8(b as bv32) == [b]
  {
  }

  /** What is still to be written: the pending surrogate and then the units of `src`. */
  function RestLE(high: Unit, src: seq<byte>): seq<byte> { Text(Pend(high) + UnitsLE(src)) }

  lemma RestLERun(src: seq<byte>, i: nat, j: nat)
    requires i <= j <= |src| && (j - i) % 2 == 0
    requires forall k :: i <= k < j && (k - i) % 2 == 0 ==> k + 1 < j && AsciiUnit(src, k)
    ensures RestLE(0, src[i..]) == Lows(src, i, j) + RestLE(0, src[j..])
  {
    AsciiUnits(src, i, j);
    PendNone(UnitsLE(src[i..]));
    PendNone(UnitsLE(src[j..]));
  }

  lemma UnitsEnd(src: seq<byte>)
    requires |src| < 2
    ensures UnitsLE(src) == []
  {
  }

  lemma RestLEEnd(high: Unit, src: seq<byte>)
    requires PendOK(high) && |src| < 2
    ensures RestLE(high, src) == if high == 0 then [] else Utf8(REPLACEMENT)
  {
    assert UnitsLE(src) == [];
    PendNone([]);
    TextEmpty();
    if high != 0 { PendLone(high, []); }
  }

  /** The low bytes of a run of ASCII units. */
  method AppendLows(dst: seq<byte>, src: seq<byte>, i: nat, j: nat) returns (out: seq<byte>)
    requires i <= j <= |src| && (j - i) % 2 == 0
    ensures out == dst + Lows(src, i, j)
  {
    out := dst;
    var k := i;
    while k < j
      invariant i <= k <= j && (j - k) % 2 == 0
      invariant out + Lows(src, k, j) == dst + Lows(src, i, j)
    {
      out := out + [src[k]];
      k := k + 2;
    }
  }

  method AppendUTF16LEState(dst: seq<byte>, src: seq<byte>, st: ChunkState) returns (out: seq<byte>)
    requires PendOK(st.pendingHigh)
    modifies st`pendingHigh
    ensures out == dst + RestLE(old(st.pendingHigh), src) && st.pendingHigh == 0
  {
    hide RestLE, UnitsLE, Text, Lows;
    ghost var goal := dst + RestLE(st.pendingHigh, src);
    out := dst;
    var i := 0;
    assert src[0..] == src;
    while i + 1 < |src|
      invariant 0 <= i <= |src| && PendOK(st.pendingHigh)
      invariant out + RestLE(st.pendingHigh, src[i..]) == goal
    {
      if src[i + 1] == 0 && src[i] < 0x80 && st.pendingHigh == 0 {
        var j := AsciiUTF16RunLen(src, i);
        assert AsciiUnit(src, i);
        RestLERun(src, i, j);
        out := AppendLows(out, src, i, j);
        i := j;
        continue;
      }
      out, st.pendingHigh := LEUnit(out, st.pendingHigh, src, i);
      i := i + 2;
    }
    RestLEEnd(st.pendingHigh, src[i..]);
    if st.pendingHigh != 0 {
      out := out + Utf8(REPLACEMENT);
      st.pendingHigh := 0;
    }
  }

  method LEUnit(dst: seq<byte>, pendingHigh: Unit, src: seq<byte>, i: nat) returns (out: seq<byte>, pending: Unit)
    requires PendOK(pendingHigh) && i + 1 < |src|
    ensures PendOK(pending)
    ensures out + RestLE(pending, src[i + 2..]) == dst + RestLE(pendingHigh, src[i..])
  {
    hide Text;
    UnitsAt(src, i);
    out, pending := AppendUTF16Unit(dst, pendingHigh, UnitLE(src[i], src[i + 1]), UnitsLE(src[i + 2..]));
  }

  method AppendUTF16LE(dst: seq<byte>, src: seq<byte>) returns (out: seq<byte>)
    ensures out == dst + Text(UnitsLE(src))
  {
    hide Text, UnitsLE;
    var st := new ChunkState(false);
    PendNone(UnitsLE(src));
    out := AppendUTF16LEState(dst, src, st);
  }

  // --- compressed text ---

  /** The mode after `src`; false when a last byte is left over. */
  function ModeAfter(src: seq<byte>, compress: bool): bool {
    if src == [] then compress
    else if src[0] == 0 then ModeAfter(src[1..], !compress)
    else if compress then ModeAfter(src[1..], true)
    else if |src| > 1 then ModeAfter(src[2..], false)
    else false
  }

  /** `utf8C1`: the two bytes of U+0080..U+00FF, high byte first. */
  function C1(b: byte): bv16
    requires b >= 0x80
  {
    ((0xC0 | ((b as bv16) >> 6)) << 8) | (0x80 | ((b as bv16) & 0x3F))
  }

  lemma C1Bytes(b: byte)
    requires b >= 0x80
    ensures Utf8(b as bv32) == [(C1(b) >> 8) as bv8, (C1(b) & 0xFF) as bv8]
  {
  }

  /** What is still to be written: the pending surrogate and then compressed text in mode `c`. */
  function Rest(high: Unit, src: seq<byte>, c: bool): seq<byte> { Text(Pend(high) + Inflate(src, c)) }

  lemma RestToggle(high: Unit, src: seq<byte>, i: nat, c: bool)
    requires i < |src| && src[i] == 0
    ensures Rest(high, src[i..], c) == Rest(high, src[i + 1..], !c)
    ensures ModeAfter(src[i..], c) == ModeAfter(src[i + 1..], !c)
  {
    assert src[i..][1..] == src[i + 1..];
  }

  lemma RestLone(high: Unit, src: seq<byte>, i: nat)
    requires IsHigh(high) && i < |src| && src[i] != 0
    ensures Rest(high, src[i..], true) == Utf8(REPLACEMENT) + Rest(0, src[i..], true)
  {
    hide Text, Inflate;
    InflateByte(src[i..]);
    ByteUnit(src[i]);
    PendLone(high, Inflate(src[i..], true));
    PendNone(Inflate(src[i..], true));
  }

  lemma RestPlainRun(src: seq<byte>, i: nat, k: nat)
    requires i <= k <= |src| && forall j :: i <= j < k ==> Plain(src[j])
    ensures Rest(0, src[i..], true) == src[i..k] + Rest(0, src[k..], true)
    ensures ModeAfter(src[i..], true) == ModeAfter(src[k..], true)
    decreases k - i
  {
    hide Text, Inflate;
    RunText(src[i..], k - i);
    assert src[i..][..k - i] == src[i..k] && src[i..][k - i..] == src[k..];
    PendNone(Inflate(src[i..], true));
    PendNone(Inflate(src[k..], true));
    RunMode(src, i, k);
  }

  lemma RunMode(src: seq<byte>, i: nat, k: nat)
    requires i <= k <= |src| && forall j :: i <= j < k ==> src[j] != 0
    ensures ModeAfter(src[i..], true) == ModeAfter(src[k..], true)
    decreases k - i
  {
    if i < k {
      assert src[i..][1..] == src[i + 1..];
      RunMode(src, i + 1, k);
    }
  }

  lemma RestC1(src: seq<byte>, i: nat)
    requires i < |src| && src[i] >= 0x80
    ensures Rest(0, src[i..], true) ==
      [(C1(src[i]) >> 8) as bv8, (C1(src[i]) & 0xFF) as bv8] + Rest(0, src[i + 1..], true)
    ensures ModeAfter(src[i..], true) == ModeAfter(src[i + 1..], true)
  {
    hide Text, Inflate, C1;
    InflateByte(src[i..]);
    assert src[i..][1..] == src[i + 1..];
    ByteText(src[i], Inflate(src[i + 1..], true));
    C1Bytes(src[i]);
    PendNone(Inflate(src[i..], true));
    PendNone(Inflate(src[i + 1..], true));
  }

  lemma RestEnd(high: Unit, src: seq<byte>, c: bool)
    requires PendOK(high) && (src == [] || (|src| == 1 && src[0] != 0 && !c))
    ensures Rest(high, src, c) == if high == 0 then [] else Utf8(REPLACEMENT)
    ensures ModeAfter(src, c) == c
  {
    InflateEnd(src, c);
    PendNone([]);
    TextEmpty();
    if high != 0 { PendLone(high, []); }
  }

  lemma InflateEnd(src: seq<byte>, c: bool)
    requires src == [] || (|src| == 1 && src[0] != 0 && !c)
    ensures Inflate(src, c) == []
  {
  }

  method AppendC1Run(dst: seq<byte>, src: seq<byte>, i: nat, j: nat) returns (out: seq<byte>)
    requires i <= j <= |src| && forall m :: i <= m < j ==> src[m] >= 0x80
    ensures out + Rest(0, src[j..], true) == dst + Rest(0, src[i..], true)
    ensures ModeAfter(src[j..], true) == ModeAfter(src[i..], true)
  {
    hide Rest, ModeAfter, C1;
    out := dst;
    var k := i;
    while k < j
      invariant i <= k <= j
      invariant out + Rest(0, src[k..], true) == dst + Rest(0, src[i..], true)
      invariant ModeAfter(src[k..], true) == ModeAfter(src[i..], true)
    {
      var enc := C1(src[k]);
      RestC1(src, k);
      out := out + [(enc >> 8) as bv8, (enc & 0xFF) as bv8];
      k := k + 1;
    }
  }

  method CompressedUnit(dst: seq<byte>, pendingHigh: Unit, src: seq<byte>, i: nat) returns (out: seq<byte>, pending: Unit)
    requires PendOK(pendingHigh) && i + 1 < |src| && src[i] != 0
    ensures PendOK(pending)
    ensures out + Rest(pending, src[i + 2..], false) == dst + Rest(pendingHigh, src[i..], false)
    ensures ModeAfter(src[i + 2..], false) == ModeAfter(src[i..], false)
  {
    hide Text, Inflate;
    assert src[i..][2..] == src[i + 2..];
    InflateUnit(src[i..]);
    out, pending := AppendUTF16Unit(dst, pendingHigh, UnitLE(src[i], src[i + 1]), Inflate(src[i + 2..], false));
  }

  /** A run of bytes in compressed mode: the ASCII part, then the rest, unless a mode switch ends it first. */
  method AppendCompressedRun(dst: seq<byte>, src: seq<byte>, start: nat) returns (out: seq<byte>, i: nat, toggle: bool)
    requires start < |src| && src[start] != 0
    ensures start < i <= |src|
    ensures out + Rest(0, src[i..], !toggle) == dst + Rest(0, src[start..], true)
    ensures ModeAfter(src[i..], !toggle) == ModeAfter(src[start..], true)
  {
    hide Rest, ModeAfter;
    i := AsciiRunLen(src, start);
    RestPlainRun(src, start, i);
    out := dst + src[start..i];
    assert out + Rest(0, src[i..], true) == dst + Rest(0, src[start..], true);
    if i >= |src| {
      return out, i, false;
    }
    if src[i] == 0 {
      RestToggle(0, src, i, true);
      return out, i + 1, true;
    }
    var j := i;
    while j < |src| && src[j] >= 0x80
      invariant i <= j <= |src| && forall m :: i <= m < j ==> src[m] >= 0x80
    {
      j := j + 1;
    }
    out := AppendC1Run(out, src, i, j);
    return out, j, false;
  }

  method AppendCompressedUnicodeState(dst: seq<byte>, src: seq<byte>, st: ChunkState) returns (out: seq<byte>)
    requires PendOK(st.pendingHigh)
    modifies st
    ensures out == dst + Rest(old(st.pendingHigh), src, old(st.compressed)) && st.pendingHigh == 0
    ensures st.compressed == old(ModeAfter(src, st.compressed))
  {
    hide Rest, ModeAfter, Utf8, IsHigh;
    ghost var goal := dst + Rest(st.pendingHigh, src, st.compressed);
    ghost var mode := ModeAfter(src, st.compressed);
    out := dst;
    var i := 0;
    assert src[0..] == src;
    while i < |src|
      invariant 0 <= i <= |src| && PendOK(st.pendingHigh)
      invariant out + Rest(st.pendingHigh, src[i..], st.compressed) == goal
      invariant ModeAfter(src[i..], st.compressed) == mode
      decreases |src| - i, if st.pendingHigh != 0 then 1 else 0
    {
      if src[i] == 0 {
        RestToggle(st.pendingHigh, src, i, st.compressed);
        st.compressed := !st.compressed;
        i := i + 1;
        continue;
      }
      if st.compressed {
        if st.pendingHigh != 0 {
          RestLone(st.pendingHigh, src, i);
          out := out + Utf8(REPLACEMENT);
          st.pendingHigh := 0;
          continue;
        }
        var toggle;
        out, i, toggle := AppendCompressedRun(out, src, i);
        if toggle {
          st.compressed := !st.compressed;
        }
        continue;
      }
      if i + 1 >= |src| {
        break;
      }
      out, st.pendingHigh := CompressedUnit(out, st.pendingHigh, src, i);
      i := i + 2;
    }
    RestEnd(st.pendingHigh, src[i..], st.compressed);
    if st.pendingHigh != 0 {
      out := out + Utf8(REPLACEMENT);
      st.pendingHigh := 0;
    }
  }

  method AppendCompressedUnicode(dst: seq<byte>, src: seq<byte>) returns (out: seq<byte>)
    ensures out == dst + Text(Inflate(src, true))
  {
    hide Text, Inflate;
    var st := new ChunkState(true);
    PendNone(Inflate(src, true));
    out := AppendCompressedUnicodeState(dst, src, st);
  }

  // --- Jet3 and the entry points ---

  lemma WidenAt(src: seq<byte>, i: nat)
    requires i < |src|
    ensures Widen(src[i..]) == [src[i] as bv16] + Widen(src[i + 1..])
  {
    assert src[i..][1..] == src[i + 1..];
  }

  method Latin1RunLen(src: seq<byte>, start: nat) returns (i: nat)
    requires start <= |src|
    ensures start <= i <= |src| && forall k :: start <= k < i ==> src[k] < 0x80
    ensures i < |src| ==> src[i] >= 0x80
  {
    i := start;
    while i < |src| && src[i] < 0x80
      invariant start <= i <= |src| && forall k :: start <= k < i ==> src[k] < 0x80
    {
      i := i + 1;
    }
  }

  lemma {:induction false} WidenRun(src: seq<byte>, i: nat, j: nat)
    requires i <= j <= |src| && forall k :: i <= k < j ==> src[k] < 0x80
    ensures Text(Widen(src[i..])) == src[i..j] + Text(Widen(src[j..]))
    decreases j - i
  {
    hide Text, Widen;
    if i < j {
      WidenAt(src, i);
      ByteText(src[i], Widen(src[i + 1..]));
      LowUnit(src[i]);
      WidenRun(src, i + 1, j);
      assert src[i..j] == [src[i]] + src[i + 1..j];
    }
  }

  method AppendLatin1UTF8(dst: seq<byte>, src: seq<byte>) returns (out: seq<byte>)
    ensures out == dst + Text(Widen(src))
  {
    hide Text, Widen, Utf8;
    out := dst;
    var i := 0;
    assert src[0..] == src;
    while i < |src|
      invariant 0 <= i <= |src|
      invariant out + Text(Widen(src[i..])) == dst + Text(Widen(src))
    {
      if src[i] < 0x80 {
        var j := Latin1RunLen(src, i);
        WidenRun(src, i, j);
        out := out + src[i..j];
        i := j;
        continue;
      }
      WidenAt(src, i);
      ByteText(src[i], Widen(src[i + 1..]));
      out := out + Utf8(src[i] as bv32);
      i := i + 1;
    }
    WidenEnd(src[i..]);
    TextEmpty();
  }

  lemma WidenEnd(src: seq<byte>)
    requires src == []
    ensures Widen(src) == []
  {
  }

  /** Direct decoding gives the text the stored bytes stand for. */
  method AppendUnicodeUTF8(dst: seq<byte>, src: seq<byte>, isJet4: bool) returns (out: seq<byte>)
    ensures out == dst + Meaning(src, isJet4)
  {
    if !isJet4 {
      out := AppendLatin1UTF8(dst, src);
      return;
    }
    var body, ok := UnicodeFastPath(src, isJet4);
    if ok {
      return dst + body;
    }
    if |src| >= 2 && src[0] == 0xFF && src[1] == 0xFE {
      out := AppendCompressedUnicode(dst, src[2..]);
      return;
    }
    out := AppendUTF16LE(dst, src);
  }

  // --- capacity and well-formedness ---

  function Capacity(src: seq<byte>, isJet4: bool): nat {
    if !isJet4 then |src| * 2
    else if Prefixed(src) then (|src| - 2) * 2
    else |src| / 2 * 3
  }

  lemma {:induction false} InflateCost(src: seq<byte>, c: bool)
    ensures TotalCost(Inflate(src, c)) <= 2 * |src|
    decreases |src|
  {
    hide Inflate;
    if src == [] || (|src| == 1 && src[0] != 0 && !c) {
      InflateEnd(src, c);
    } else if src[0] == 0 {
      InflateToggle(src, c);
      InflateCost(src[1..], !c);
    } else if c {
      InflateByte(src);
      InflateCost(src[1..], true);
      ByteCost(src[0]);
      assert ([src[0] as bv16] + Inflate(src[1..], true))[1..] == Inflate(src[1..], true);
    } else {
      InflateUnit(src);
      InflateCost(src[2..], false);
      assert ([UnitLE(src[0], src[1])] + Inflate(src[2..], false))[1..] == Inflate(src[2..], false);
    }
  }

  lemma ByteCost(b: byte)
    ensures Cost(b as bv16) <= 2
  {
  }

  lemma {:induction false} UnitsCost(src: seq<byte>)
    ensures TotalCost(UnitsLE(src)) <= |src| / 2 * 3
  {
    if |src| >= 2 {
      UnitsCost(src[2..]);
      assert UnitsLE(src)[1..] == UnitsLE(src[2..]);
    }
  }

  lemma {:induction false} WidenCost(src: seq<byte>)
    ensures TotalCost(Widen(src)) <= 2 * |src|
  {
    if src != [] {
      WidenCost(src[1..]);
      ByteCost(src[0]);
      assert Widen(src)[1..] == Widen(src[1..]);
    }
  }

  /** For every byte string the output is well-formed UTF-8 and fits the computed capacity. */
  lemma MeaningFits(src: seq<byte>, isJet4: bool)
    ensures |Meaning(src, isJet4)| <= Capacity(src, isJet4) && WellFormed(Meaning(src, isJet4))
  {
    var units := if !isJet4 then Widen(src) else if Prefixed(src) then Inflate(src[2..], true) else UnitsLE(src);
    TextLength(units);
    if !isJet4 { WidenCost(src); } else if Prefixed(src) { InflateCost(src[2..], true); } else { UnitsCost(src); }
    DecodeScalars(units);
    EncodeWellFormed(Decode(units));
  }
}
