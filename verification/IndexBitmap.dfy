/** The entry bitmap of index pages: pack and unpack in libmdb/index.c. */
module IndexBitmap {
  import opened Bytes

  datatype Format = Jet3 | Jet4 {
    /** First byte of the bitmap. */
    function MaskStart(): nat { if Jet3? then 0x16 else 0x1B }
    /** First byte of the index entries, where the bitmap ends. */
    function JetStart(): nat { if Jet3? then 0xF8 else 0x1E0 }
    function PageSize(): nat { if Jet3? then 2048 else 4096 }
    /** Bits the bitmap has room for. */
    function Bits(): nat { 8 * (JetStart() - MaskStart()) }
  }

  /** How far the rest of the bitmap is cleared, whatever the format. */
  const CLEARED: nat := 0xF8

  // --- bits ---

  function BitMask(i: nat): (m: byte)
    requires i < 8
  {
    (1 as bv8) << i
  }

  predicate Bit(m: byte, i: nat)
    requires i < 8
  {
    BitMask(i) & m != 0
  }

  lemma Powers(i: nat)
    requires i < 8
    ensures BitMask(i) == [1, 2, 4, 8, 16, 32, 64, 128][i]
  {
    assert (1 as bv8) << 0 == 1 && (1 as bv8) << 1 == 2 && (1 as bv8) << 2 == 4 && (1 as bv8) << 3 == 8;
    assert (1 as bv8) << 4 == 16 && (1 as bv8) << 5 == 32 && (1 as bv8) << 6 == 64 && (1 as bv8) << 7 == 128;
  }

  lemma SetBit(m: byte, i: nat, j: nat)
    requires i < 8 && j < 8
    ensures Bit(BitMask(i) | m, j) <==> i == j || Bit(m, j)
  {
    Powers(i);
    Powers(j);
  }

  lemma NoBits(m: byte)
    ensures m == 0 <==> forall i :: 0 <= i < 8 ==> !Bit(m, i)
  {
    Powers(0); Powers(1); Powers(2); Powers(3); Powers(4); Powers(5); Powers(6); Powers(7);
    AllBits(m);
    assert (forall i :: 0 <= i < 8 ==> !Bit(m, i)) <==>
      !Bit(m, 0) && !Bit(m, 1) && !Bit(m, 2) && !Bit(m, 3) && !Bit(m, 4) && !Bit(m, 5) && !Bit(m, 6) && !Bit(m, 7);
  }

  lemma AllBits(m: byte)
    ensures m == 0 <==> 1 & m == 0 && 2 & m == 0 && 4 & m == 0 && 8 & m == 0 && 16 & m == 0 && 32 & m == 0 && 64 & m == 0 && 128 & m == 0
  {
  }

  /** Bit `b` of the bitmap on a page. */
  predicate PageBit(f: Format, page: seq<byte>, b: nat)
    requires |page| == f.PageSize() && b < f.Bits()
  {
    Bit(page[f.MaskStart() + b / 8], b % 8)
  }

  // --- entry starts ---

  predicate Increasing(starts: seq<nat>) { forall i, j :: 0 <= i < j < |starts| ==> starts[i] < starts[j] }

  /** Strictly increasing starts from `JetStart` on, all within reach of the bitmap. */
  predicate Starts(f: Format, starts: seq<nat>) {
    && starts != [] && starts[0] == f.JetStart()
    && Increasing(starts)
    && starts[|starts| - 1] - starts[0] < f.Bits()
  }

  /** An entry other than the first starts `b` bytes into the entries. */
  predicate Marked(starts: seq<nat>, b: nat) { exists j :: 1 <= j < |starts| && starts[j] == starts[0] + b }

  /** Bytes of the bitmap that carry bits. */
  function Width(starts: seq<nat>): nat
    requires starts != [] && starts[|starts| - 1] >= starts[0]
  {
    (starts[|starts| - 1] - starts[0]) / 8 + 1
  }

  /** The page after packing: the bits of the starts, then zeros up to `CLEARED`, the rest as it was. */
  predicate Packed(f: Format, page: seq<byte>, starts: seq<nat>, next: seq<byte>)
    requires Starts(f, starts) && |page| == f.PageSize()
  {
    var end := f.MaskStart() + Width(starts);
    && |next| == |page|
    && (forall b :: 0 <= b < 8 * Width(starts) ==>
          (PageBit(f, next, b) <==> Marked(starts, b) || (b == 0 && |starts| == 1)))
    && (forall k :: end <= k < CLEARED ==> next[k] == 0)
    && (forall k :: 0 <= k < |page| && (k < f.MaskStart() || (k >= end && k >= CLEARED)) ==> next[k] == page[k])
  }

  /** The marks made so far. */
  predicate MarkedTo(starts: seq<nat>, e: nat, b: nat)
    requires e <= |starts|
  {
    exists j :: 1 <= j < e && starts[j] == starts[0] + b
  }

  /** The bits a flushed byte or the current byte must hold. */
  predicate ByteHolds(m: byte, starts: seq<nat>, e: nat, from: nat)
    requires e <= |starts|
  {
    forall i :: 0 <= i < 8 ==> (Bit(m, i) <==> MarkedTo(starts, e, from + i))
  }

  predicate Flushed(f: Format, page: seq<byte>, starts: seq<nat>, e: nat, width: nat)
    requires e <= |starts| && |page| == f.PageSize() && f.MaskStart() + width <= |page|
  {
    forall q :: 0 <= q < width ==> ByteHolds(page[f.MaskStart() + q], starts, e, 8 * q)
  }

  lemma MarkOne(m: byte, starts: seq<nat>, e: nat, from: nat, bit: nat)
    requires Increasing(starts) && 1 <= e < |starts| && bit < 8 && starts[e] == starts[0] + from + bit
    requires ByteHolds(m, starts, e, from)
    ensures ByteHolds(BitMask(bit) | m, starts, e + 1, from)
  {
    hide BitMask, Bit;
    var n := BitMask(bit) | m;
    forall i | 0 <= i < 8 ensures Bit(n, i) <==> MarkedTo(starts, e + 1, from + i) {
      SetBit(m, bit, i);
      if i == bit { assert starts[e] == starts[0] + (from + i); }
      assert Bit(m, i) <==> MarkedTo(starts, e, from + i);
      assert MarkedTo(starts, e, from + i) ==> MarkedTo(starts, e + 1, from + i);
    }
  }

  /** Later marks lie beyond a byte that is already complete. */
  lemma StaysHeld(m: byte, starts: seq<nat>, e: nat, from: nat)
    requires Increasing(starts) && 1 <= e < |starts| && starts[e] >= starts[0] + from + 8
    requires ByteHolds(m, starts, e, from)
    ensures ByteHolds(m, starts, e + 1, from)
  {
    hide Bit;
    forall i | 0 <= i < 8 ensures Bit(m, i) <==> MarkedTo(starts, e + 1, from + i) {
      assert Bit(m, i) <==> MarkedTo(starts, e, from + i);
    }
  }

  lemma EmptyByte(starts: seq<nat>, e: nat, from: nat)
    requires Increasing(starts) && 1 <= e <= |starts| && starts[e - 1] < starts[0] + from
    ensures ByteHolds(0, starts, e, from)
  {
    hide Bit;
    NoBits(0);
    var zero: byte := 0;
    forall i | 0 <= i < 8 ensures Bit(zero, i) <==> MarkedTo(starts, e, from + i) {
      assert !Bit(zero, i);
    }
  }

  /** Where packing stands: complete bytes before `maskPos`, the current byte, and `e` starts marked. */
  predicate Packing(f: Format, page: seq<byte>, now: seq<byte>, starts: seq<nat>, e: nat, maskPos: nat, maskBit: nat, maskByte: byte)
    requires |page| == f.PageSize()
  {
    && Starts(f, starts) && 1 <= e <= |starts| && |now| == |page|
    && f.MaskStart() <= maskPos < f.JetStart() && maskBit < 8
    && Flushed(f, now, starts, e, maskPos - f.MaskStart())
    && ByteHolds(maskByte, starts, e, 8 * (maskPos - f.MaskStart()))
    && now[..f.MaskStart()] == page[..f.MaskStart()] && now[maskPos..] == page[maskPos..]
  }

  /** The position of the current bit. */
  function At(f: Format, maskPos: nat, maskBit: nat): int { 8 * (maskPos - f.MaskStart()) + maskBit }

  lemma FlushOne(f: Format, page: seq<byte>, now: seq<byte>, starts: seq<nat>, e: nat, maskPos: nat, maskByte: byte)
    requires |page| == f.PageSize() && Packing(f, page, now, starts, e, maskPos, 7, maskByte)
    requires maskPos + 1 < f.JetStart() && starts[e - 1] - starts[0] < At(f, maskPos + 1, 0)
    ensures Packing(f, page, now[maskPos := maskByte], starts, e, maskPos + 1, 0, 0)
  {
    hide ByteHolds;
    EmptyByte(starts, e, 8 * (maskPos + 1 - f.MaskStart()));
    var next := now[maskPos := maskByte];
    assert next[maskPos + 1..] == now[maskPos..][1..] == page[maskPos..][1..] == page[maskPos + 1..];
    assert next[..f.MaskStart()] == now[..f.MaskStart()];
  }

  /** Moves on by `len` bits, writing out every byte that is complete. */
  method Advance(f: Format, pg: array<byte>, maskPos0: nat, maskBit0: nat, maskByte0: byte, len: int,
                 ghost page: seq<byte>, ghost starts: seq<nat>, ghost e: nat)
      returns (maskPos: nat, maskBit: nat, maskByte: byte)
    requires pg.Length == |page| == f.PageSize() && Packing(f, page, pg[..], starts, e, maskPos0, maskBit0, maskByte0)
    requires At(f, maskPos0, maskBit0) == starts[e - 1] - starts[0]
    requires len <= 0 || At(f, maskPos0, maskBit0) + len < f.Bits()
    modifies pg
    ensures Packing(f, page, pg[..], starts, e, maskPos, maskBit, maskByte)
    ensures maskBit < 8 && f.MaskStart() <= maskPos < f.JetStart()
    ensures At(f, maskPos, maskBit) == At(f, maskPos0, maskBit0) + if len > 0 then len else 0
    ensures len <= 0 ==> pg[..] == old(pg[..]) && maskByte == maskByte0
  {
    hide Packing, Flushed, ByteHolds;
    PackingBounds(f, page, pg[..], starts, e, maskPos0, maskBit0, maskByte0);
    maskPos, maskBit, maskByte := maskPos0, maskBit0, maskByte0;
    var i := 0;
    while i < len
      invariant 0 <= i && (len > 0 ==> i <= len) && (len <= 0 ==> i == 0)
      invariant maskBit < 8 && f.MaskStart() <= maskPos < f.JetStart()
      invariant Packing(f, page, pg[..], starts, e, maskPos, maskBit, maskByte)
      invariant At(f, maskPos, maskBit) == At(f, maskPos0, maskBit0) + i
      invariant len <= 0 ==> pg[..] == old(pg[..]) && maskByte == maskByte0
    {
      maskBit := maskBit + 1;
      if maskBit == 8 {
        ghost var now := pg[..];
        FlushOne(f, page, now, starts, e, maskPos, maskByte);
        maskBit := 0;
        pg[maskPos] := maskByte;
        assert pg[..] == now[maskPos := maskByte];
        maskPos := maskPos + 1;
        maskByte := 0;
      } else {
        NextBit(f, page, pg[..], starts, e, maskPos, maskBit - 1, maskByte);
      }
      i := i + 1;
    }
  }

  lemma PackingBounds(f: Format, page: seq<byte>, now: seq<byte>, starts: seq<nat>, e: nat, maskPos: nat, maskBit: nat, maskByte: byte)
    requires |page| == f.PageSize() && Packing(f, page, now, starts, e, maskPos, maskBit, maskByte)
    ensures maskBit < 8 && f.MaskStart() <= maskPos < f.JetStart() && Starts(f, starts)
  {
  }

  lemma NextBit(f: Format, page: seq<byte>, now: seq<byte>, starts: seq<nat>, e: nat, maskPos: nat, maskBit: nat, maskByte: byte)
    requires |page| == f.PageSize() && Packing(f, page, now, starts, e, maskPos, maskBit, maskByte) && maskBit < 7
    ensures Packing(f, page, now, starts, e, maskPos, maskBit + 1, maskByte)
  {
    hide Flushed, ByteHolds;
  }

  /** Setting the bit of the next start. */
  lemma NextMark(f: Format, page: seq<byte>, now: seq<byte>, starts: seq<nat>, e: nat, maskPos: nat, maskBit: nat, maskByte: byte)
    requires |page| == f.PageSize() && Packing(f, page, now, starts, e, maskPos, maskBit, maskByte)
    requires e < |starts| && At(f, maskPos, maskBit) == starts[e] - starts[0]
    ensures Packing(f, page, now, starts, e + 1, maskPos, maskBit, BitMask(maskBit) | maskByte)
  {
    hide ByteHolds, BitMask;
    var width := maskPos - f.MaskStart();
    assert Increasing(starts);
    MarkOne(maskByte, starts, e, 8 * width, maskBit);
    forall q | 0 <= q < width ensures ByteHolds(now[f.MaskStart() + q], starts, e + 1, 8 * q) {
      assert ByteHolds(now[f.MaskStart() + q], starts, e, 8 * q);
      StaysHeld(now[f.MaskStart() + q], starts, e, 8 * q);
    }
  }

  /** The last turn of the loop sets the current bit once more; it is new only when there is a single start. */
  predicate LastByte(m: byte, starts: seq<nat>, from: nat) {
    forall i :: 0 <= i < 8 ==> (Bit(m, i) <==> MarkedTo(starts, |starts|, from + i) || (from + i == 0 && |starts| == 1))
  }

  lemma LastMark(f: Format, page: seq<byte>, now: seq<byte>, starts: seq<nat>, maskPos: nat, maskBit: nat, maskByte: byte)
    requires |page| == f.PageSize() && Packing(f, page, now, starts, |starts|, maskPos, maskBit, maskByte)
    requires At(f, maskPos, maskBit) == starts[|starts| - 1] - starts[0]
    ensures LastByte(BitMask(maskBit) | maskByte, starts, 8 * (maskPos - f.MaskStart()))
  {
    hide BitMask, Bit, Flushed;
    var from := 8 * (maskPos - f.MaskStart());
    var n := BitMask(maskBit) | maskByte;
    forall i | 0 <= i < 8
      ensures Bit(n, i) <==> MarkedTo(starts, |starts|, from + i) || (from + i == 0 && |starts| == 1)
    {
      SetBit(maskByte, maskBit, i);
      assert Bit(maskByte, i) <==> MarkedTo(starts, |starts|, from + i);
      if i == maskBit && |starts| > 1 { assert starts[|starts| - 1] == starts[0] + (from + i); }
    }
  }

  method PackBitmap(f: Format, pg: array<byte>, starts: seq<nat>)
    requires Starts(f, starts) && pg.Length == f.PageSize()
    modifies pg
    ensures Packed(f, old(pg[..]), starts, pg[..])
  {
    hide Packing, BitMask, Packed, LastByte;
    var idx := starts + [0];
    var maskBit, maskPos, maskByte := 0, f.MaskStart(), 0 as byte;
    var elem := 1;
    var start := idx[0];
    ghost var page := pg[..];
    PackingStart(f, page, starts);
    while start != 0
      invariant 1 <= elem <= |starts| + 1 && start == idx[elem - 1]
      invariant maskBit < 8 && f.MaskStart() <= maskPos < f.JetStart()
      invariant elem <= |starts| ==>
        At(f, maskPos, maskBit) == starts[elem - 1] - starts[0] && Packing(f, page, pg[..], starts, elem, maskPos, maskBit, maskByte)
      invariant elem > |starts| ==> Finished(f, page, pg[..], starts, maskPos, maskBit, maskByte)
      decreases |starts| + 1 - elem
    {
      var len := idx[elem] as int - start as int;
      maskPos, maskBit, maskByte := Advance(f, pg, maskPos, maskBit, maskByte, len, page, starts, elem);
      if elem < |starts| {
        NextMark(f, page, pg[..], starts, elem, maskPos, maskBit, maskByte);
      } else {
        FinishedHere(f, page, pg[..], starts, maskPos, maskBit, maskByte);
      }
      maskByte := BitMask(maskBit) | maskByte;
      start := idx[elem];
      elem := elem + 1;
    }
    ghost var now := pg[..];
    pg[maskPos] := maskByte;
    maskPos := maskPos + 1;
    ghost var end := maskPos;
    var i := maskPos;
    while i < CLEARED
      invariant i == maskPos >= end && (end < CLEARED ==> maskPos <= CLEARED) && (end >= CLEARED ==> maskPos == end)
      invariant forall k :: 0 <= k < pg.Length ==>
        pg[k] == if k == end - 1 then maskByte else if end <= k < maskPos then 0 else now[k]
    {
      pg[maskPos] := 0;
      maskPos := maskPos + 1;
      i := i + 1;
    }
    PackedAtLast(f, page, now, starts, end - 1, maskBit, maskByte, pg[..]);
  }

  predicate Finished(f: Format, page: seq<byte>, now: seq<byte>, starts: seq<nat>, maskPos: nat, maskBit: nat, maskByte: byte)
    requires |page| == f.PageSize()
  {
    && Starts(f, starts) && |now| == |page| && f.MaskStart() <= maskPos < f.JetStart() && maskBit < 8
    && At(f, maskPos, maskBit) == starts[|starts| - 1] - starts[0]
    && Flushed(f, now, starts, |starts|, maskPos - f.MaskStart())
    && LastByte(maskByte, starts, 8 * (maskPos - f.MaskStart()))
    && now[..f.MaskStart()] == page[..f.MaskStart()] && now[maskPos..] == page[maskPos..]
  }

  lemma FinishedHere(f: Format, page: seq<byte>, now: seq<byte>, starts: seq<nat>, maskPos: nat, maskBit: nat, maskByte: byte)
    requires |page| == f.PageSize() && Packing(f, page, now, starts, |starts|, maskPos, maskBit, maskByte)
    requires At(f, maskPos, maskBit) == starts[|starts| - 1] - starts[0]
    ensures Finished(f, page, now, starts, maskPos, maskBit, BitMask(maskBit) | maskByte)
  {
    hide LastByte, Flushed, ByteHolds, BitMask;
    LastMark(f, page, now, starts, maskPos, maskBit, maskByte);
  }

  lemma PackingStart(f: Format, page: seq<byte>, starts: seq<nat>)
    requires Starts(f, starts) && |page| == f.PageSize()
    ensures Packing(f, page, page, starts, 1, f.MaskStart(), 0, 0) && At(f, f.MaskStart(), 0) == 0
  {
    NoBits(0);
    var zero: byte := 0;
    forall i | 0 <= i < 8 ensures Bit(zero, i) <==> MarkedTo(starts, 1, 0 + i) { assert !Bit(zero, i); }
  }

  lemma MarkedAll(starts: seq<nat>, b: nat)
    ensures MarkedTo(starts, |starts|, b) <==> Marked(starts, b)
  {
  }

  /** The flushed bytes, the last byte and the cleared rest make up the packed page. */
  lemma PackedAtLast(f: Format, page: seq<byte>, now: seq<byte>, starts: seq<nat>, maskPos: nat, maskBit: nat, maskByte: byte, next: seq<byte>)
    requires |page| == f.PageSize() && Finished(f, page, now, starts, maskPos, maskBit, maskByte) && |next| == |page|
    requires forall k :: 0 <= k < |next| ==>
      next[k] == if k == maskPos then maskByte else if maskPos < k < CLEARED then 0 else now[k]
    ensures Packed(f, page, starts, next)
  {
    hide Bit;
    var ms := f.MaskStart();
    assert Width(starts) == maskPos - ms + 1;
    forall b | 0 <= b < 8 * Width(starts)
      ensures PageBit(f, next, b) <==> Marked(starts, b) || (b == 0 && |starts| == 1)
    {
      MarkedAll(starts, b);
      var q, i := b / 8, b % 8;
      assert b == 8 * q + i;
      if q < maskPos - ms {
        assert ByteHolds(now[ms + q], starts, |starts|, 8 * q);
        assert Bit(now[ms + q], i) <==> MarkedTo(starts, |starts|, 8 * q + i);
      } else {
        assert Bit(maskByte, i) <==> MarkedTo(starts, |starts|, 8 * q + i) || (8 * q + i == 0 && |starts| == 1);
      }
    }
    forall k | 0 <= k < |page| && k < ms ensures next[k] == page[k] { assert now[..ms][k] == page[..ms][k]; }
    forall k | maskPos < k < |page| && k >= CLEARED ensures next[k] == page[k] {
      assert now[maskPos..][k - maskPos] == page[maskPos..][k - maskPos];
    }
  }

  // --- unpacking ---

  /** The starts the bits from `b` on stand for. */
  function Found(f: Format, page: seq<byte>, b: nat): seq<nat>
    requires |page| == f.PageSize()
    decreases f.Bits() - b
  {
    if b >= f.Bits() then []
    else (if PageBit(f, page, b) then [f.JetStart() + b] else []) + Found(f, page, b + 1)
  }

  /** The inner loop: on to the next set bit, or past the bitmap. */
  method NextSet(f: Format, pg: array<byte>, maskPos0: nat, maskBit0: nat) returns (maskPos: nat, maskBit: nat, len: nat)
    requires pg.Length == f.PageSize() && f.MaskStart() <= maskPos0 < f.JetStart() && maskBit0 < 8
    ensures maskBit < 8 && f.MaskStart() <= maskPos && len > 0 && At(f, maskPos, maskBit) == At(f, maskPos0, maskBit0) + len
    ensures maskPos < f.JetStart() ==>
      Found(f, pg[..], At(f, maskPos0, maskBit0) + 1)
      == [f.JetStart() + At(f, maskPos, maskBit)] + Found(f, pg[..], At(f, maskPos, maskBit) + 1)
    ensures maskPos >= f.JetStart() ==> Found(f, pg[..], At(f, maskPos0, maskBit0) + 1) == []
  {
    hide Bit, PageBit, Found;
    maskPos, maskBit, len := maskPos0, maskBit0, 0;
    ghost var goal := Found(f, pg[..], At(f, maskPos0, maskBit0) + 1);
    while true
      invariant maskBit < 8 && f.MaskStart() <= maskPos <= f.JetStart()
      invariant At(f, maskPos, maskBit) == At(f, maskPos0, maskBit0) + len
      invariant goal == Found(f, pg[..], At(f, maskPos, maskBit) + 1)
      decreases 8 * f.JetStart() + 8 - 8 * maskPos - maskBit
    {
      maskBit := maskBit + 1;
      if maskBit == 8 {
        maskBit := 0;
        maskPos := maskPos + 1;
      }
      var maskByte := pg[maskPos];
      len := len + 1;
      FoundStep(f, pg[..], maskPos, maskBit);
      if !(maskPos <= f.JetStart() && !Bit(maskByte, maskBit)) {
        break;
      }
    }
  }

  lemma FoundStep(f: Format, page: seq<byte>, maskPos: nat, maskBit: nat)
    requires |page| == f.PageSize() && f.MaskStart() <= maskPos <= f.JetStart() + 1 && maskBit < 8
    ensures maskPos >= f.JetStart() ==> Found(f, page, At(f, maskPos, maskBit)) == [] == Found(f, page, At(f, maskPos, maskBit) + 1)
    ensures maskPos < f.JetStart() ==>
      Found(f, page, At(f, maskPos, maskBit))
      == (if Bit(page[maskPos], maskBit) then [f.JetStart() + At(f, maskPos, maskBit)] else [])
         + Found(f, page, At(f, maskPos, maskBit) + 1)
  {
    hide Bit;
    var b := At(f, maskPos, maskBit);
    assert b / 8 == maskPos - f.MaskStart() && b % 8 == maskBit;
  }

  /** The array of starts in an index page structure. */
  const IDX_STARTS: nat := 2000

  /**
   Reads the starts back; the list ends with a zero. `ok` is false when the next write would be past
   the array, where the C code goes on writing.
   */
  method UnpackBitmap(f: Format, pg: array<byte>, idx: array<nat>) returns (ok: bool, elem: nat)
    requires pg.Length == f.PageSize() && idx.Length == IDX_STARTS
    modifies idx
    ensures ok <==> |Found(f, pg[..], 1)| <= IDX_STARTS - 2
    ensures ok ==> elem == 1 + |Found(f, pg[..], 1)| && idx[..elem + 1] == [f.JetStart()] + Found(f, pg[..], 1) + [0]
    ensures ok ==> idx[elem + 1..] == old(idx[elem + 1..])
  {
    hide Found;
    var maskBit, maskPos := 0, f.MaskStart();
    var start := f.JetStart();
    ghost var before, bits := idx[..], pg[..];
    ghost var all := [start] + Found(f, bits, 1);
    idx[0] := start;
    elem := 1;
    while true
      invariant maskBit < 8 && f.MaskStart() <= maskPos < f.JetStart() && start == f.JetStart() + At(f, maskPos, maskBit)
      invariant 1 <= elem <= IDX_STARTS && pg[..] == bits
      invariant forall k :: elem <= k < idx.Length ==> idx[k] == before[k]
      invariant idx[..elem] + Found(f, bits, At(f, maskPos, maskBit) + 1) == all
      decreases 8 * f.JetStart() + 8 - 8 * maskPos - maskBit
    {
      ghost var sofar := idx[..elem];
      var len;
      maskPos, maskBit, len := NextSet(f, pg, maskPos, maskBit);
      start := start + len;
      if maskPos < f.JetStart() {
        assert sofar + ([start] + Found(f, bits, At(f, maskPos, maskBit) + 1)) == all;
        if elem == idx.Length {
          assert |all| > IDX_STARTS;
          return false, elem;
        }
        idx[elem] := start;
        elem := elem + 1;
        assert idx[..elem] == sofar + [start];
      }
      if !(maskPos < f.JetStart()) {
        assert sofar == all;
        break;
      }
    }
    if elem == idx.Length {
      return false, elem;
    }
    assert idx[..elem] == all;
    idx[elem] := 0;
    assert idx[..elem] == all && idx[..elem + 1] == idx[..elem] + [0];
    assert idx[elem + 1..] == before[elem + 1..];
    return true, elem;
  }

  lemma {:induction false} FoundLength(f: Format, page: seq<byte>, b: nat)
    requires |page| == f.PageSize() && b <= f.Bits()
    ensures |Found(f, page, b)| <= f.Bits() - b
    ensures (forall c :: b <= c < f.Bits() ==> PageBit(f, page, c)) ==> |Found(f, page, b)| == f.Bits() - b
    decreases f.Bits() - b
  {
    hide PageBit;
    if b < f.Bits() { FoundLength(f, page, b + 1); }
  }

  /** A Jet3 bitmap has too few bits to fill the array. */
  lemma Jet3Fits(page: seq<byte>)
    requires |page| == Jet3.PageSize()
    ensures |Found(Jet3, page, 1)| <= IDX_STARTS - 2
  {
    FoundLength(Jet3, page, 1);
  }

  /** A Jet4 bitmap with every bit set overruns it. */
  lemma Jet4Overruns(page: seq<byte>)
    requires |page| == Jet4.PageSize() && forall k :: Jet4.MaskStart() <= k < Jet4.JetStart() ==> page[k] == 0xFF
    ensures |Found(Jet4, page, 1)| == 3623 > IDX_STARTS - 2
  {
    hide Found;
    forall c | 1 <= c < Jet4.Bits() ensures PageBit(Jet4, page, c) {
      Powers(c % 8);
      AllOnes(BitMask(c % 8));
    }
    FoundLength(Jet4, page, 1);
  }

  lemma AllOnes(m: byte)
    ensures m & 0xFF == m
  {
  }

  // --- the round trip ---

  /** The entries among `starts[i..]` that the bits from `b` on must yield. */
  lemma {:induction false} FoundIs(f: Format, page: seq<byte>, starts: seq<nat>, i: nat, b: nat)
    requires Starts(f, starts) && |page| == f.PageSize() && 1 <= i <= |starts|
    requires forall c :: b <= c < f.Bits() ==> (PageBit(f, page, c) <==> Marked(starts, c))
    requires starts[i - 1] < starts[0] + b && (i < |starts| ==> starts[0] + b <= starts[i])
    ensures Found(f, page, b) == starts[i..]
    decreases f.Bits() - b
  {
    hide PageBit, Marked, Increasing, Found;
    NextStart(starts, i);
    FoundNext(f, page, b);
    if b < f.Bits() {
      MarkedIs(starts, i, b);
      assert PageBit(f, page, b) <==> Marked(starts, b);
      if i < |starts| && starts[i] == starts[0] + b {
        FoundIs(f, page, starts, i + 1, b + 1);
        assert starts[i..] == [starts[i]] + starts[i + 1..];
      } else {
        FoundIs(f, page, starts, i, b + 1);
      }
    } else {
      assert starts[i..] == [];
    }
  }

  lemma FoundNext(f: Format, page: seq<byte>, b: nat)
    requires |page| == f.PageSize()
    ensures Found(f, page, b) ==
      if b >= f.Bits() then [] else (if PageBit(f, page, b) then [f.JetStart() + b] else []) + Found(f, page, b + 1)
  {
    hide PageBit;
  }

  lemma NextStart(starts: seq<nat>, i: nat)
    requires Increasing(starts)
    ensures i + 1 < |starts| ==> starts[i] < starts[i + 1]
    ensures forall j :: 0 <= j < |starts| ==> starts[j] <= starts[|starts| - 1]
  {
  }

  lemma MarkedIs(starts: seq<nat>, i: nat, b: nat)
    requires Increasing(starts) && 1 <= i <= |starts|
    requires starts[i - 1] < starts[0] + b && (i < |starts| ==> starts[0] + b <= starts[i])
    ensures Marked(starts, b) <==> i < |starts| && starts[i] == starts[0] + b
  {
  }

  lemma {:induction false} FoundHas(f: Format, page: seq<byte>, b: nat, c: nat)
    requires |page| == f.PageSize() && b <= c < f.Bits()
    ensures PageBit(f, page, c) ==> f.JetStart() + c in Found(f, page, b)
    decreases c - b
  {
    hide PageBit;
    if b < c { FoundHas(f, page, b + 1, c); }
  }

  /** The mask bytes past the packed part that are not cleared. */
  predicate StaleFree(f: Format, page: seq<byte>, starts: seq<nat>)
    requires Starts(f, starts) && |page| == f.PageSize()
  {
    forall k :: f.MaskStart() + Width(starts) <= k < f.JetStart() && k >= CLEARED ==> page[k] == 0
  }

  lemma BeyondWidth(f: Format, page: seq<byte>, starts: seq<nat>, next: seq<byte>, c: nat)
    requires |page| == f.PageSize() && Starts(f, starts) && Packed(f, page, starts, next) && StaleFree(f, page, starts)
    requires 8 * Width(starts) <= c < f.Bits()
    ensures !PageBit(f, next, c) && !Marked(starts, c)
  {
    NoBits(next[f.MaskStart() + c / 8]);
  }

  /** Unpacking a packed bitmap gives the starts back exactly when the mask bytes no packing touches were zero. */
  lemma RoundTripExact(f: Format, page: seq<byte>, starts: seq<nat>, next: seq<byte>)
    requires |page| == f.PageSize() && Starts(f, starts) && Packed(f, page, starts, next)
    ensures [f.JetStart()] + Found(f, next, 1) == starts <==> StaleFree(f, page, starts)
  {
    hide PageBit, Found;
    if StaleFree(f, page, starts) {
      forall c | 1 <= c < f.Bits() ensures PageBit(f, next, c) <==> Marked(starts, c) {
        if c >= 8 * Width(starts) { BeyondWidth(f, page, starts, next, c); }
      }
      FoundIs(f, next, starts, 1, 1);
      assert [starts[0]] + starts[1..] == starts;
    } else {
      var k :| f.MaskStart() + Width(starts) <= k < f.JetStart() && k >= CLEARED && page[k] != 0;
      StaleFound(f, starts, next, k);
    }
  }

  lemma StaleFound(f: Format, starts: seq<nat>, next: seq<byte>, k: nat)
    requires Starts(f, starts) && |next| == f.PageSize()
    requires f.MaskStart() + Width(starts) <= k < f.JetStart() && next[k] != 0
    ensures [f.JetStart()] + Found(f, next, 1) != starts
  {
    hide Found, Bit;
    NoBits(next[k]);
    var i :| 0 <= i < 8 && Bit(next[k], i);
    var c := 8 * (k - f.MaskStart()) + i;
    assert c / 8 == k - f.MaskStart() && c % 8 == i;
    FoundHas(f, next, 1, c);
    var all := [f.JetStart()] + Found(f, next, 1);
    assert f.JetStart() + c in all;
    forall j | 0 <= j < |starts| ensures starts[j] != f.JetStart() + c {
      assert starts[j] <= starts[|starts| - 1];
    }
  }

  /** Jet3 pages clear their whole bitmap, so there the round trip always holds. */
  lemma Jet3RoundTrip(page: seq<byte>, starts: seq<nat>, next: seq<byte>)
    requires |page| == Jet3.PageSize() && Starts(Jet3, starts) && Packed(Jet3, page, starts, next)
    ensures [Jet3.JetStart()] + Found(Jet3, next, 1) == starts
  {
    RoundTripExact(Jet3, page, starts, next);
  }

  /** Both directions in one: what a page gives back is what was put on it, exactly when nothing stale is left. */
  method PackAndUnpack(f: Format, pg: array<byte>, starts: seq<nat>, idx: array<nat>) returns (ok: bool, elem: nat)
    requires Starts(f, starts) && pg.Length == f.PageSize() && |starts| < idx.Length == IDX_STARTS
    modifies pg, idx
    ensures ok ==> elem < idx.Length
    ensures (ok && idx[..elem + 1] == starts + [0]) <==> StaleFree(f, old(pg[..]), starts)
  {
    hide Found, Packed, StaleFree;
    ghost var page := pg[..];
    PackBitmap(f, pg, starts);
    ok, elem := UnpackBitmap(f, pg, idx);
    RoundTripExact(f, page, starts, pg[..]);
    if ok { Ended([f.JetStart()] + Found(f, pg[..], 1), starts); }
  }

  lemma Ended(a: seq<nat>, b: seq<nat>)
    ensures a + [0] == b + [0] <==> a == b
  {
    if a + [0] == b + [0] {
      assert a == (a + [0])[..|a + [0]| - 1] == (b + [0])[..|b + [0]| - 1] == b;
    }
  }
}
