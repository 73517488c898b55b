/** Rows on a Jet4 page and the fields in a row: internal/gomdb/file.go and crack.go. */
module RowFormat {
  import opened Bytes
  import opened Wrappers

  const PG_SIZE: nat := 4096
  const ROW_COUNT: nat := 12
  const OFFSET_MASK: nat := 0x1FFF

  /** The signed 16-bit integer of two bytes, low byte first. */
  function Signed16(lo: byte, hi: byte): (v: int)
    ensures -0x8000 <= v < 0x8000
  {
    var u := lo as int + 0x100 * hi as int;
    if u < 0x8000 then u else u - 0x1_0000
  }

  /** A little-endian signed 16-bit integer; 0 outside the buffer. */
  function Int16At(b: seq<byte>, off: int): (v: int)
    ensures -0x8000 <= v < 0x8000
  {
    if 0 <= off < |b| - 1 then Signed16(b[off], b[off + 1]) else 0
  }

  /** `v & OffsetMask` in two's complement. */
  function Masked(v: int): (m: nat)
    ensures m <= OFFSET_MASK
  {
    v % 0x2000
  }

  /** `v & 0x4000 != 0` in two's complement. */
  predicate Deleted(v: int) { v % 0x8000 >= 0x4000 }

  datatype Place = Place(start: int, size: int)

  /** `findRowIn`: the raw offset (with its flags) and the length of a row; None for an invalid position. */
  function FindRow(page: seq<byte>, row: nat): Option<Place> {
    if row > 1000 then None
    else
      var start := Int16At(page, ROW_COUNT + 2 + row * 2);
      var next := if row > 0 then Masked(Int16At(page, ROW_COUNT + row * 2)) else PG_SIZE;
      if Masked(start) >= PG_SIZE || Masked(start) > next || next > PG_SIZE then None
      else Some(Place(start, next - Masked(start)))
  }

  // --- cracking a row ---

  /**
   `nullByte` is the column number over 8. `buildCrackLayouts` keeps only its low 8 bits, which matters
   from column 2048 on and is not modelled.
   */
  datatype Column = Column(isFixed: bool, nullByte: nat, nullBit: byte, fixedOffset: int, colSize: int, varNum: int)
  datatype Layout = Layout(col: Column, fixedBefore: nat)
  datatype Field = Field(start: int, siz: int, isNull: bool, value: Option<seq<byte>>)
  datatype Header = Header(rowFixedCols: int, varOffsets: seq<int>, nullMask: seq<byte>)

  /** Go's division truncates towards zero. */
  function MaskSize(rowCols: int): int { if rowCols + 7 >= 0 then (rowCols + 7) / 8 else -((-(rowCols + 7)) / 8) }

  function From(b: seq<byte>, i: int): seq<byte> { if 0 <= i <= |b| then b[i..] else [] }

  /** Column counts, variable offsets and null mask; None for a row whose null mask leaves no room for data. */
  function CrackHeader(page: seq<byte>, rowStart: int, rowSize: int, hasVar: bool): Option<Header> {
    var rowEnd := rowStart + rowSize - 1;
    var rowCols := Int16At(page, rowStart);
    var mask := MaskSize(rowCols);
    if mask >= rowEnd - rowStart then None
    else
      var rowVarCols := if hasVar then Int16At(page, rowEnd - mask - 1) else 0;
      var offsets :=
        if hasVar && rowVarCols >= 0 then seq(rowVarCols + 1, i => Int16At(page, rowEnd - mask - 3 - i * 2)) else [];
      Some(Header(if rowCols >= rowVarCols then rowCols - rowVarCols else 0, offsets, From(page, rowEnd - mask + 1)))
  }

  function ValueAt(page: seq<byte>, start: int, siz: int): Option<seq<byte>> {
    if siz > 0 && 0 <= start && start + siz <= |page| then Some(page[start..start + siz]) else None
  }

  /** Fields must lie in the row. */
  function Bounded(f: Field, rowStart: int, rowSize: int): Field {
    if f.start + f.siz > rowStart + rowSize then f.(start := rowStart, siz := 0) else f
  }

  /** What a row holds in one column; `fixedBefore` fixed columns come before it. */
  function FieldOf(col: Column, fixedBefore: nat, h: Header, page: seq<byte>, rowStart: int, rowSize: int): Field {
    var isNull := col.nullByte >= |h.nullMask| || h.nullMask[col.nullByte] & col.nullBit == 0;
    if col.isFixed && fixedBefore < h.rowFixedCols then
      var start := rowStart + col.fixedOffset + 2;
      Bounded(Field(start, col.colSize, isNull, ValueAt(page, start, col.colSize)), rowStart, rowSize)
    else if !col.isFixed && 0 <= col.varNum < |h.varOffsets| - 1 then
      var start := rowStart + h.varOffsets[col.varNum];
      var siz := h.varOffsets[col.varNum + 1] - h.varOffsets[col.varNum];
      Bounded(Field(start, siz, isNull, ValueAt(page, start, siz)), rowStart, rowSize)
    else Bounded(Field(0, 0, true, None), rowStart, rowSize)
  }

  function FixedBefore(cols: seq<Column>, i: nat): nat
    requires i <= |cols|
  {
    if i == 0 then 0 else FixedBefore(cols, i - 1) + if cols[i - 1].isFixed then 1 else 0
  }

  lemma FixedBeforeStep(cols: seq<Column>, i: nat)
    requires i <= |cols|
    ensures FixedBefore(cols, i) == if i == 0 then 0 else FixedBefore(cols, i - 1) + if cols[i - 1].isFixed then 1 else 0
  {
  }

  function FieldAt(cols: seq<Column>, i: nat, h: Header, page: seq<byte>, rowStart: int, rowSize: int): Field
    requires i < |cols|
  {
    FieldOf(cols[i], FixedBefore(cols, i), h, page, rowStart, rowSize)
  }

  // --- what the numbers on a page mean, byte by byte ---

  lemma LowBits(hi: byte)
    ensures (hi & 0x1F) as int == hi as int % 32
  {
  }

  lemma FlagBit(hi: byte)
    ensures hi & 0x40 != 0 <==> hi as int % 128 >= 64
  {
  }

  /** A slot holds the offset in its low 13 bits and the delete flag in bit 14. */
  lemma SlotBits(lo: byte, hi: byte)
    ensures Masked(Signed16(lo, hi)) == lo as nat + 256 * (hi & 0x1F) as nat
    ensures Deleted(Signed16(lo, hi)) <==> hi & 0x40 != 0
  {
    LowBits(hi);
    FlagBit(hi);
    MaskedNumber(lo as nat, hi as nat);
    FlaggedNumber(lo as nat, hi as nat);
  }

  lemma MaskedNumber(lo: nat, hi: nat)
    requires lo < 256 && hi < 256
    ensures var v := lo + 256 * hi;
      Masked(v) == lo + 256 * (hi % 32) && Masked(v - 0x1_0000) == Masked(v)
  {
    var a := hi / 32;
    assert lo + 256 * hi == 0x2000 * a + (lo + 256 * (hi % 32));
  }

  lemma FlaggedNumber(lo: nat, hi: nat)
    requires lo < 256 && hi < 256
    ensures var v := lo + 256 * hi;
      (Deleted(v) <==> hi % 128 >= 64) && (Deleted(v - 0x1_0000) <==> Deleted(v))
  {
    var b := hi / 128;
    assert lo + 256 * hi == 0x8000 * b + (lo + 256 * (hi % 128));
  }

  /** Two's complement: the only number of 16 bits with these two bytes. */
  lemma SignedExact(lo: byte, hi: byte, v: int)
    ensures v == Signed16(lo, hi) <==> -0x8000 <= v < 0x8000 && (v - lo as int - 256 * hi as int) % 0x1_0000 == 0
  {
  }

  /** Division by 8 cut towards zero. */
  lemma MaskSizeExact(rowCols: int, m: int)
    ensures m == MaskSize(rowCols) <==>
      if rowCols + 7 >= 0 then 8 * m <= rowCols + 7 < 8 * (m + 1) else 8 * (m - 1) < rowCols + 7 <= 8 * m
  {
  }

  /** The offset in the low 13 bits of a slot. */
  function SlotOffset(page: seq<byte>, at: nat): nat
    requires at + 1 < |page|
  {
    page[at] as nat + 256 * (page[at + 1] & 0x1F) as nat
  }

  lemma SlotRead(page: seq<byte>, at: nat)
    requires at + 1 < |page|
    ensures Masked(Int16At(page, at)) == SlotOffset(page, at)
    ensures Deleted(Int16At(page, at)) <==> page[at + 1] & 0x40 != 0
  {
    hide Signed16, Masked, Deleted;
    SlotBits(page[at], page[at + 1]);
  }

  /** A row reaches from its own offset to that of the row before it, the first one to the end of the page. */
  lemma FoundExact(page: seq<byte>, row: nat)
    requires ROW_COUNT + 2 + 2 * row + 1 < |page|
    ensures var at := ROW_COUNT + 2 + 2 * row;
      var start, end := SlotOffset(page, at), if row == 0 then PG_SIZE else SlotOffset(page, at - 2);
      && (FindRow(page, row).Some? <==> row <= 1000 && start < PG_SIZE && start <= end <= PG_SIZE)
      && (FindRow(page, row).Some? ==>
            var place := FindRow(page, row).value;
            Masked(place.start) == start && place.size == end - start && (Deleted(place.start) <==> page[at + 1] & 0x40 != 0))
  {
    hide Int16At, SlotOffset, Masked, Deleted;
    var at := ROW_COUNT + 2 + 2 * row;
    SlotRead(page, at);
    if row > 0 { SlotRead(page, at - 2); }
  }

  /**
   The ends of a row: its fixed columns are those it counts less its variable ones, the offsets stand before the null
   mask in reverse order, and the null mask is read on to the end of the page.
   */
  lemma HeaderExact(page: seq<byte>, rowStart: nat, rowSize: nat, hasVar: bool, i: nat)
    requires 0 < rowSize && rowStart + rowSize <= |page| && CrackHeader(page, rowStart, rowSize, hasVar).Some?
    ensures var h := CrackHeader(page, rowStart, rowSize, hasVar).value;
      var count, mask := Int16At(page, rowStart), |page| - |h.nullMask|;
      var vars := if hasVar then Int16At(page, mask - 2) else 0;
      && (count >= 0 ==> mask == rowStart + rowSize - (count + 7) / 8 && h.nullMask == page[mask..])
      && (count >= 0 ==> h.rowFixedCols >= 0 && (h.rowFixedCols > 0 ==> h.rowFixedCols + vars == count))
      && (count >= vars && count >= 0 ==> h.rowFixedCols + vars == count)
      && (count >= 0 ==> |h.varOffsets| == if hasVar && vars >= 0 then vars + 1 else 0)
      && (count >= 0 && i < |h.varOffsets| ==> h.varOffsets[i] == Int16At(page, mask - 2 - 2 * (i + 1)))
  {
    hide Signed16;
  }

  /** A field keeps its place while it ends within the row; its value is the bytes there, null flag or not. */
  lemma FieldPlaced(col: Column, fixedBefore: nat, h: Header, page: seq<byte>, rowStart: nat, rowSize: nat)
    requires rowStart + rowSize <= |page|
    ensures var f := FieldOf(col, fixedBefore, h, page, rowStart, rowSize);
      && f.start + f.siz <= rowStart + rowSize
      && (col.isFixed && fixedBefore < h.rowFixedCols ==>
            if 2 + col.fixedOffset + col.colSize <= rowSize then f.start == rowStart + 2 + col.fixedOffset && f.siz == col.colSize
            else f.start == rowStart && f.siz == 0)
      && (!col.isFixed && 0 <= col.varNum < |h.varOffsets| - 1 ==>
            if h.varOffsets[col.varNum + 1] <= rowSize
            then f.start == rowStart + h.varOffsets[col.varNum] && f.start + f.siz == rowStart + h.varOffsets[col.varNum + 1]
            else f.start == rowStart && f.siz == 0)
      && (f.siz > 0 && f.start >= 0 ==> f.value == Some(page[f.start..f.start + f.siz]))
  {
  }

  // --- the methods ---

  /** `buildCrackLayouts`: the counts the full crack keeps running are computed once. */
  method BuildCrackLayouts(cols: seq<Column>) returns (layouts: seq<Layout>)
    ensures |layouts| == |cols|
    ensures forall i :: 0 <= i < |cols| ==> layouts[i] == Layout(cols[i], FixedBefore(cols, i))
  {
    hide FixedBefore;
    layouts := [];
    var fixedCount := 0;
    FixedBeforeStep(cols, 0);
    for i := 0 to |cols|
      invariant |layouts| == i && fixedCount == FixedBefore(cols, i)
      invariant forall k :: 0 <= k < i ==> layouts[k] == Layout(cols[k], FixedBefore(cols, k))
    {
      layouts := layouts + [Layout(cols[i], fixedCount)];
      FixedBeforeStep(cols, i + 1);
      if cols[i].isFixed {
        fixedCount := fixedCount + 1;
      }
    }
  }

  /** One column written in place; a value nobody needs is left as it was. */
  method CrackColumn(fields: array<Field>, i: nat, col: Column, fixedCount: nat, h: Header,
                     page: seq<byte>, rowStart: int, rowSize: int, needValue: bool)
    requires i < fields.Length
    modifies fields
    ensures SameButValue(fields[i], FieldOf(col, fixedCount, h, page, rowStart, rowSize))
    ensures needValue ==> fields[i] == FieldOf(col, fixedCount, h, page, rowStart, rowSize)
    ensures forall k :: 0 <= k < fields.Length && k != i ==> fields[k] == old(fields[k])
  {
    var f := fields[i];
    if needValue {
      f := f.(value := None);
    }
    if col.nullByte < |h.nullMask| {
      f := f.(isNull := h.nullMask[col.nullByte] & col.nullBit == 0);
    } else {
      f := f.(isNull := true);
    }
    if col.isFixed && fixedCount < h.rowFixedCols {
      var colStart := col.fixedOffset + 2;
      f := f.(start := rowStart + colStart, siz := col.colSize);
      if needValue {
        f := f.(value := ValueAt(page, f.start, f.siz));
      }
    } else if !col.isFixed && 0 <= col.varNum < |h.varOffsets| - 1 {
      var colStart := h.varOffsets[col.varNum];
      f := f.(start := rowStart + colStart, siz := h.varOffsets[col.varNum + 1] - colStart);
      if needValue {
        f := f.(value := ValueAt(page, f.start, f.siz));
      }
    } else {
      f := Field(0, 0, true, None);
    }
    if f.start + f.siz > rowStart + rowSize {
      f := f.(start := rowStart, siz := 0);
    }
    fields[i] := f;
  }

  predicate SameButValue(f: Field, g: Field) { f.start == g.start && f.siz == g.siz && f.isNull == g.isNull }

  /** The synchronous crack: every column, counting fixed columns on the way. */
  method CrackRow(cols: seq<Column>, hasVar: bool, page: seq<byte>, rowStart: int, rowSize: int, fields: array<Field>) returns (ok: bool)
    requires fields.Length == |cols|
    modifies fields
    ensures ok <==> CrackHeader(page, rowStart, rowSize, hasVar).Some?
    ensures ok ==> forall i :: 0 <= i < |cols| ==>
      fields[i] == FieldAt(cols, i, CrackHeader(page, rowStart, rowSize, hasVar).value, page, rowStart, rowSize)
  {
    hide FieldOf, CrackHeader;
    var header := CrackHeader(page, rowStart, rowSize, hasVar);
    if header.None? {
      return false;
    }
    var h := header.value;
    var fixedColsFound := 0;
    for i := 0 to |cols|
      invariant fixedColsFound == FixedBefore(cols, i)
      invariant forall k :: 0 <= k < i ==> fields[k] == FieldAt(cols, k, h, page, rowStart, rowSize)
    {
      CrackColumn(fields, i, cols[i], fixedColsFound, h, page, rowStart, rowSize, true);
      if cols[i].isFixed {
        fixedColsFound := fixedColsFound + 1;
      }
    }
    return true;
  }

  /** The projected crack: only the listed columns, fixed ones first, values only where the condition looks. */
  method CrackProjected(cols: seq<Column>, layouts: seq<Layout>, fixedCols: seq<nat>, varCols: seq<nat>,
                        needValue: seq<bool>, hasVar: bool, page: seq<byte>, rowStart: int, rowSize: int, fields: array<Field>)
      returns (ok: bool)
    requires fields.Length == |cols| == |layouts| == |needValue|
    requires forall i :: 0 <= i < |cols| ==> layouts[i] == Layout(cols[i], FixedBefore(cols, i))
    requires forall j :: 0 <= j < |fixedCols| ==> fixedCols[j] < |cols|
    requires forall j :: 0 <= j < |varCols| ==> varCols[j] < |cols|
    modifies fields
    ensures ok <==> CrackHeader(page, rowStart, rowSize, hasVar).Some?
    ensures ok ==> forall i :: i in fixedCols || i in varCols ==>
      Projected(fields[i], needValue[i],
        FieldAt(cols, i, CrackHeader(page, rowStart, rowSize, hasVar).value, page, rowStart, rowSize))
  {
    hide FieldOf, CrackHeader, FixedBefore;
    var header := CrackHeader(page, rowStart, rowSize, hasVar);
    if header.None? {
      return false;
    }
    var h := header.value;
    for k := 0 to |fixedCols|
      invariant forall j :: 0 <= j < k ==>
        Projected(fields[fixedCols[j]], needValue[fixedCols[j]], FieldAt(cols, fixedCols[j], h, page, rowStart, rowSize))
    {
      var i := fixedCols[k];
      CrackColumn(fields, i, layouts[i].col, layouts[i].fixedBefore, h, page, rowStart, rowSize, needValue[i]);
    }
    for k := 0 to |varCols|
      invariant forall j :: 0 <= j < |fixedCols| ==>
        Projected(fields[fixedCols[j]], needValue[fixedCols[j]], FieldAt(cols, fixedCols[j], h, page, rowStart, rowSize))
      invariant forall j :: 0 <= j < k ==>
        Projected(fields[varCols[j]], needValue[varCols[j]], FieldAt(cols, varCols[j], h, page, rowStart, rowSize))
    {
      var i := varCols[k];
      CrackColumn(fields, i, layouts[i].col, layouts[i].fixedBefore, h, page, rowStart, rowSize, needValue[i]);
    }
    return true;
  }

  predicate Projected(f: Field, needValue: bool, full: Field) { SameButValue(f, full) && (needValue ==> f == full) }
}
