/** Packing rows for temp tables (internal/gomdb/worktable.go) and what cracking them gives back. */
module RowPack {
  import opened Bytes
  import opened RowFormat
  import opened Wrappers

  datatype InField = InField(colNum: nat, value: Option<seq<byte>>, isNull: bool)

  // --- the packed form ---

  /** The first field given for a column. */
  function Find(fields: seq<InField>, colNum: nat): Option<InField> {
    if fields == [] then None else if fields[0].colNum == colNum then Some(fields[0]) else Find(fields[1..], colNum)
  }

  predicate NotNull(f: Option<InField>) { f.Some? && !f.value.isNull }

  predicate Stored(f: Option<InField>) { NotNull(f) && f.value.value.Some? }

  function Zeros(n: nat): seq<byte> { seq(n, _ => 0) }

  /** The bytes written for a column; `size` fills in for a missing fixed value. */
  function Payload(f: Option<InField>, size: nat): seq<byte> { if Stored(f) then f.value.value.value else Zeros(size) }

  /** A column as a temp table stores it. */
  datatype TempCol = TempCol(isFixed: bool, size: nat, fixedOffset: nat)

  function FixedData(cols: seq<TempCol>, fields: seq<InField>, n: nat): seq<byte>
    requires n <= |cols|
  {
    if n == 0 then []
    else FixedData(cols, fields, n - 1) + if cols[n - 1].isFixed then Payload(Find(fields, n - 1), cols[n - 1].size) else []
  }

  /** The fields of the variable columns. */
  function VarFields(cols: seq<TempCol>, fields: seq<InField>, n: nat): seq<Option<InField>>
    requires n <= |cols|
  {
    if n == 0 then []
    else VarFields(cols, fields, n - 1) + if cols[n - 1].isFixed then [] else [Find(fields, n - 1)]
  }

  function VarData(vf: seq<Option<InField>>, j: nat): seq<byte>
    requires j <= |vf|
  {
    if j == 0 then [] else VarData(vf, j - 1) + Payload(vf[j - 1], 0)
  }

  /** Where each variable value starts, and where the last one ends. */
  function Offsets(vf: seq<Option<InField>>, base: nat): (r: seq<nat>)
    ensures |r| == |vf| + 1 && forall j :: 0 <= j <= |vf| ==> r[j] == base + |VarData(vf, j)|
  {
    seq(|vf| + 1, j requires 0 <= j <= |vf| => base + |VarData(vf, j)|)
  }

  function Lo(x: nat): byte { (x % 256) as bv8 }
  function Hi(x: nat): byte { (x / 256 % 256) as bv8 }

  /** The first `k` offsets, last one first. */
  function OffsetTable(offs: seq<nat>, k: nat): seq<byte>
    requires k <= |offs|
  {
    if k == 0 then [] else [Lo(offs[k - 1]), Hi(offs[k - 1])] + OffsetTable(offs, k - 1)
  }

  function BitOf(i: nat): byte { (1 as bv8) << (i % 8) }

  /** One bit a column, set for a value that is not null. */
  function NullMask(fields: seq<InField>, total: nat, n: nat): (m: seq<byte>)
    requires n <= total
    ensures |m| == (total + 7) / 8
  {
    if n == 0 then Zeros((total + 7) / 8)
    else
      var m := NullMask(fields, total, n - 1);
      if NotNull(Find(fields, n - 1)) then m[(n - 1) / 8 := m[(n - 1) / 8] | BitOf(n - 1)] else m
  }

  function Packed(cols: seq<TempCol>, fields: seq<InField>): seq<byte> {
    var n := |cols|;
    var fixedData, vf := FixedData(cols, fields, n), VarFields(cols, fields, n);
    var offs := Offsets(vf, 2 + |fixedData|);
    [Lo(n), Hi(n)] + fixedData + VarData(vf, |vf|) + OffsetTable(offs, |offs|) + [Lo(|vf|), Hi(|vf|)] + NullMask(fields, n, n)
  }

  // --- PackRow ---

  method FindField(fields: seq<InField>, colNum: nat) returns (f: Option<InField>)
    ensures f == Find(fields, colNum)
  {
    assert fields[0..] == fields;
    for fi := 0 to |fields|
      invariant Find(fields, colNum) == Find(fields[fi..], colNum)
    {
      assert fields[fi..][1..] == fields[fi + 1..];
      if fields[fi].colNum == colNum {
        return Some(fields[fi]);
      }
    }
    return None;
  }

  method Put(buf: array<byte>, pos: nat, data: seq<byte>)
    requires pos + |data| <= buf.Length
    modifies buf
    ensures buf[..pos + |data|] == old(buf[..pos]) + data
    ensures buf[pos + |data|..] == old(buf[pos + |data|..])
  {
    forall k | 0 <= k < |data| {
      buf[pos + k] := data[k];
    }
  }

  lemma {:induction false} FixedGrows(cols: seq<TempCol>, fields: seq<InField>, i: nat, n: nat)
    requires i <= n <= |cols|
    ensures FixedData(cols, fields, i) <= FixedData(cols, fields, n)
    ensures |VarFields(cols, fields, i)| <= |VarFields(cols, fields, n)|
    ensures VarFields(cols, fields, i) <= VarFields(cols, fields, n)
    decreases n - i
  {
    if i < n {
      FixedGrows(cols, fields, i, n - 1);
    }
  }

  lemma {:induction false} VarGrows(vf: seq<Option<InField>>, j: nat, k: nat)
    requires j <= k <= |vf|
    ensures VarData(vf, j) <= VarData(vf, k)
    decreases k - j
  {
    if j < k { VarGrows(vf, j, k - 1); }
  }

  lemma VarStep(vf: seq<Option<InField>>, j: nat)
    requires j <= |vf|
    ensures VarData(vf, j) == if j == 0 then [] else VarData(vf, j - 1) + Payload(vf[j - 1], 0)
  {
  }

  lemma {:induction false} TableLength(offs: seq<nat>, k: nat)
    requires k <= |offs|
    ensures |OffsetTable(offs, k)| == 2 * k
  {
    if k > 0 { TableLength(offs, k - 1); }
  }

  method PutFixed(cols: seq<TempCol>, buf: array<byte>, fields: seq<InField>) returns (pos: nat)
    requires 2 + |FixedData(cols, fields, |cols|)| <= buf.Length
    modifies buf
    ensures pos == 2 + |FixedData(cols, fields, |cols|)| && buf[2..pos] == FixedData(cols, fields, |cols|)
  {
    hide Find, Payload, VarFields;
    pos := 2;
    for i := 0 to |cols|
      invariant pos == 2 + |FixedData(cols, fields, i)| <= buf.Length && buf[2..pos] == FixedData(cols, fields, i)
    {
      FixedGrows(cols, fields, i + 1, |cols|);
      if cols[i].isFixed {
        var f := FindField(fields, i);
        var data := Payload(f, cols[i].size);
        ghost var before := buf[..pos];
        Put(buf, pos, data);
        pos := pos + |data|;
        assert buf[..pos] == before + data;
        assert buf[2..pos] == buf[..pos][2..] == before[2..] + data;
      }
    }
  }

  method PutVar(buf: array<byte>, start: nat, vf: seq<Option<InField>>) returns (pos: nat, offs: seq<nat>)
    requires start + |VarData(vf, |vf|)| <= buf.Length
    modifies buf
    ensures pos == start + |VarData(vf, |vf|)| && offs == Offsets(vf, start)
    ensures buf[..pos] == old(buf[..start]) + VarData(vf, |vf|)
  {
    hide Payload, VarData, Offsets;
    pos, offs := start, [];
    VarStep(vf, 0);
    for i := 0 to |vf|
      invariant pos == start + |VarData(vf, i)| <= buf.Length && buf[..pos] == old(buf[..start]) + VarData(vf, i)
      invariant |offs| == i && forall j :: 0 <= j < i ==> offs[j] == start + |VarData(vf, j)|
    {
      VarGrows(vf, i + 1, |vf|);
      VarStep(vf, i + 1);
      offs := offs + [pos];
      var data := Payload(vf[i], 0);
      ghost var before := buf[..pos];
      Put(buf, pos, data);
      pos := pos + |data|;
      assert buf[..pos] == before + data;
    }
    offs := offs + [pos];
  }

  method PutOffsets(buf: array<byte>, start: nat, offs: seq<nat>) returns (pos: nat)
    requires start + 2 * |offs| <= buf.Length
    modifies buf
    ensures pos == start + 2 * |offs| && buf[..pos] == old(buf[..start]) + OffsetTable(offs, |offs|)
  {
    hide Lo, Hi;
    pos := start;
    var i := |offs|;
    while i > 0
      invariant 0 <= i <= |offs| && pos == start + 2 * (|offs| - i)
      invariant buf[..pos] + OffsetTable(offs, i) == old(buf[..start]) + OffsetTable(offs, |offs|)
    {
      i := i - 1;
      ghost var before := buf[..pos];
      buf[pos] := Lo(offs[i]);
      pos := pos + 1;
      buf[pos] := Hi(offs[i]);
      pos := pos + 1;
      assert buf[..pos] == before + [Lo(offs[i]), Hi(offs[i])];
    }
  }

  method PutMask(buf: array<byte>, start: nat, fields: seq<InField>, total: nat)
    requires start + (total + 7) / 8 <= buf.Length
    modifies buf
    ensures buf[..start + (total + 7) / 8] == old(buf[..start]) + NullMask(fields, total, total)
  {
    hide Find, BitOf, NotNull;
    Put(buf, start, Zeros((total + 7) / 8));
    ghost var end := start + (total + 7) / 8;
    for i := 0 to total
      invariant buf[..end] == old(buf[..start]) + NullMask(fields, total, i)
    {
      var f := FindField(fields, i);
      if NotNull(f) {
        ghost var m := NullMask(fields, total, i);
        assert buf[start + i / 8] == buf[..end][start + i / 8] == m[i / 8];
        buf[start + i / 8] := buf[start + i / 8] | BitOf(i);
      }
    }
  }

  lemma PackedLength(cols: seq<TempCol>, fields: seq<InField>)
    ensures var vf := VarFields(cols, fields, |cols|);
            |Packed(cols, fields)| == 2 + |FixedData(cols, fields, |cols|)| + |VarData(vf, |vf|)|
              + 2 * (|vf| + 1) + 2 + (|cols| + 7) / 8
  {
    hide FixedData, VarFields, VarData, OffsetTable, NullMask;
    var vf := VarFields(cols, fields, |cols|);
    var offs := Offsets(vf, 2 + |FixedData(cols, fields, |cols|)|);
    TableLength(offs, |offs|);
  }

  method CountColumns(cols: seq<TempCol>, fields: seq<InField>)
      returns (varColCount: nat, totalCols: nat, vf: seq<Option<InField>>)
    ensures totalCols == |cols| && varColCount == |vf| && vf == VarFields(cols, fields, |cols|)
  {
    hide Find;
    var fixedColCount := 0;
    varColCount, vf := 0, [];
    for i := 0 to |cols|
      invariant fixedColCount + varColCount == i && varColCount == |vf| && vf == VarFields(cols, fields, i)
    {
      if cols[i].isFixed {
        fixedColCount := fixedColCount + 1;
      } else {
        varColCount := varColCount + 1;
        var f := FindField(fields, i);
        vf := vf + [f];
      }
    }
    totalCols := varColCount + fixedColCount;
  }

  /** Everything after the fixed data. */
  function Trailer(fields: seq<InField>, total: nat, vf: seq<Option<InField>>, base: nat): seq<byte> {
    var offs := Offsets(vf, base);
    VarData(vf, |vf|) + OffsetTable(offs, |offs|) + [Lo(|vf|), Hi(|vf|)] + NullMask(fields, total, total)
  }

  method PutTrailer(buf: array<byte>, start: nat, fields: seq<InField>, total: nat, vf: seq<Option<InField>>) returns (pos: nat)
    requires start + |VarData(vf, |vf|)| + 2 * (|vf| + 1) + 2 + (total + 7) / 8 <= buf.Length
    modifies buf
    ensures pos == start + |Trailer(fields, total, vf, start)| <= buf.Length && buf[..pos] == old(buf[..start]) + Trailer(fields, total, vf, start)
  {
    hide VarData, OffsetTable, NullMask, Lo, Hi, Offsets;
    var offs;
    pos, offs := PutVar(buf, start, vf);
    TableLength(offs, |offs|);
    pos := PutOffsets(buf, pos, offs);
    ghost var before := buf[..pos];
    Put(buf, pos, [Lo(|vf|), Hi(|vf|)]);
    pos := pos + 2;
    PutMask(buf, pos, fields, total);
    pos := pos + (total + 7) / 8;
    assert buf[..pos] == before + [Lo(|vf|), Hi(|vf|)] + NullMask(fields, total, total);
  }

  method PackRow(cols: seq<TempCol>, buf: array<byte>, fields: seq<InField>) returns (n: nat)
    requires |Packed(cols, fields)| <= buf.Length
    modifies buf
    ensures n == |Packed(cols, fields)| && buf[..n] == Packed(cols, fields)
  {
    hide FixedData, VarData, Trailer, Lo, Hi, Packed, VarFields;
    PackedLength(cols, fields);
    PackedShape(cols, fields);
    var varColCount, totalCols, vf := CountColumns(cols, fields);
    var start := PutFixed(cols, buf, fields);
    ghost var head := buf[..start];
    var pos := PutTrailer(buf, start, fields, totalCols, vf);
    ghost var tail := Trailer(fields, totalCols, vf, start);
    buf[0], buf[1] := Lo(totalCols), Hi(totalCols);
    assert buf[..pos] == [Lo(totalCols), Hi(totalCols)] + head[2..] + tail;
    return pos;
  }

  lemma PackedShape(cols: seq<TempCol>, fields: seq<InField>)
    ensures var n, fixedData := |cols|, FixedData(cols, fields, |cols|);
            Packed(cols, fields) == [Lo(n), Hi(n)] + fixedData + Trailer(fields, n, VarFields(cols, fields, n), 2 + |fixedData|)
  {
    hide FixedData, VarFields, VarData, OffsetTable, NullMask, Lo, Hi;
  }

  // --- what cracking gives back ---

  function VarBefore(cols: seq<TempCol>, i: nat): nat
    requires i <= |cols|
  {
    if i == 0 then 0 else VarBefore(cols, i - 1) + if cols[i - 1].isFixed then 0 else 1
  }

  function FixedSize(cols: seq<TempCol>, i: nat): nat
    requires i <= |cols|
  {
    if i == 0 then 0 else FixedSize(cols, i - 1) + if cols[i - 1].isFixed then cols[i - 1].size else 0
  }

  /** The definition `TempTableAddCol` gives the `i`-th column. */
  function ColumnOf(cols: seq<TempCol>, i: nat): Column
    requires i < |cols|
  {
    Column(cols[i].isFixed, i / 8, BitOf(i), cols[i].fixedOffset, cols[i].size, VarBefore(cols, i))
  }

  function Columns(cols: seq<TempCol>): (r: seq<Column>)
    ensures |r| == |cols| && forall i :: 0 <= i < |cols| ==> r[i] == ColumnOf(cols, i)
  {
    seq(|cols|, i requires 0 <= i < |cols| => ColumnOf(cols, i))
  }

  /** Fixed columns follow one another. */
  predicate Cumulative(cols: seq<TempCol>) {
    forall i :: 0 <= i < |cols| && cols[i].isFixed ==> cols[i].fixedOffset == FixedSize(cols, i)
  }

  predicate FullSize(cols: seq<TempCol>, fields: seq<InField>) {
    forall i :: 0 <= i < |cols| && cols[i].isFixed && Stored(Find(fields, i)) ==>
      |Find(fields, i).value.value.value| == cols[i].size
  }

  /** Where each part of a packed row lies. */
  predicate PartsOf(p: seq<byte>, n: nat, fixedData: seq<byte>, varData: seq<byte>, offs: seq<nat>, v: nat, mask: seq<byte>) {
    var size, m := |p|, |mask|;
    && size == 2 + |fixedData| + |varData| + 2 * |offs| + 2 + m
    && p[0] == Lo(n) && p[1] == Hi(n)
    && p[2..2 + |fixedData|] == fixedData
    && p[2 + |fixedData|..2 + |fixedData| + |varData|] == varData
    && p[size - m - 2 - 2 * |offs|..size - m - 2] == OffsetTable(offs, |offs|)
    && p[size - m - 2] == Lo(v) && p[size - m - 1] == Hi(v)
    && p[size - m..] == mask
  }

  lemma {:induction false} OffsetTableAt(offs: seq<nat>, k: nat, i: nat)
    requires i < k <= |offs|
    ensures |OffsetTable(offs, k)| == 2 * k
    ensures OffsetTable(offs, k)[2 * (k - 1 - i)] == Lo(offs[i]) && OffsetTable(offs, k)[2 * (k - 1 - i) + 1] == Hi(offs[i])
  {
    hide Lo, Hi;
    TableLength(offs, k);
    if i < k - 1 { OffsetTableAt(offs, k - 1, i); }
  }

  lemma PartsInOrder(p: seq<byte>, n: nat, fixedData: seq<byte>, varData: seq<byte>, offs: seq<nat>, v: nat, mask: seq<byte>)
    requires p == [Lo(n), Hi(n)] + fixedData + (varData + OffsetTable(offs, |offs|) + [Lo(v), Hi(v)] + mask)
    ensures PartsOf(p, n, fixedData, varData, offs, v, mask)
  {
    hide OffsetTable, Lo, Hi;
    TableLength(offs, |offs|);
    PartsOfConcat([Lo(n), Hi(n)], fixedData, varData, OffsetTable(offs, |offs|), [Lo(v), Hi(v)], mask, p);
  }

  lemma Parts(cols: seq<TempCol>, fields: seq<InField>)
    ensures var n, vf := |cols|, VarFields(cols, fields, |cols|);
            var fixedData := FixedData(cols, fields, n);
            PartsOf(Packed(cols, fields), n, fixedData, VarData(vf, |vf|), Offsets(vf, 2 + |fixedData|), |vf|, NullMask(fields, n, n))
  {
    hide FixedData, VarFields, VarData, OffsetTable, NullMask, Lo, Hi, Offsets, Packed, PartsOf;
    var n, vf := |cols|, VarFields(cols, fields, |cols|);
    var fixedData := FixedData(cols, fields, n);
    PackedShape(cols, fields);
    PartsInOrder(Packed(cols, fields), n, fixedData, VarData(vf, |vf|), Offsets(vf, 2 + |fixedData|), |vf|, NullMask(fields, n, n));
  }

  /** The offset table read from its end. */
  lemma TablePart(p: seq<byte>, offs: seq<nat>, at: nat, j: nat, k: nat)
    requires at + 2 * |offs| <= |p| && p[at..at + 2 * |offs|] == OffsetTable(offs, |offs|)
    requires j < |offs| && k == at + 2 * |offs| - 2 - 2 * j
    ensures p[k] == Lo(offs[j]) && p[k + 1] == Hi(offs[j])
  {
    hide OffsetTable, Lo, Hi;
    OffsetTableAt(offs, |offs|, j);
    assert p[at..at + 2 * |offs|][k - at] == p[k] && p[at..at + 2 * |offs|][k + 1 - at] == p[k + 1];
  }

  lemma PartsOfConcat(a: seq<byte>, b: seq<byte>, c: seq<byte>, d: seq<byte>, e: seq<byte>, f: seq<byte>, p: seq<byte>)
    requires p == a + b + (c + d + e + f) && |a| == |e| == 2
    ensures |p| == 4 + |b| + |c| + |d| + |f|
    ensures p[0] == a[0] && p[1] == a[1] && p[2..2 + |b|] == b && p[2 + |b|..2 + |b| + |c|] == c
    ensures p[|p| - |f| - 2 - |d|..|p| - |f| - 2] == d
    ensures p[|p| - |f| - 2] == e[0] && p[|p| - |f| - 1] == e[1] && p[|p| - |f|..] == f
  {
  }

  // --- bits of the null mask ---

  lemma BitOr(m: byte, a: nat, b: nat)
    ensures (m | BitOf(a)) & BitOf(b) != 0 <==> a % 8 == b % 8 || m & BitOf(b) != 0
  {
    Powers(a);
    Powers(b);
  }

  lemma Powers(i: nat)
    ensures BitOf(i) == [1, 2, 4, 8, 16, 32, 64, 128][i % 8]
  {
    assert (1 as bv8) << 0 == 1 && (1 as bv8) << 1 == 2 && (1 as bv8) << 2 == 4 && (1 as bv8) << 3 == 8;
    assert (1 as bv8) << 4 == 16 && (1 as bv8) << 5 == 32 && (1 as bv8) << 6 == 64 && (1 as bv8) << 7 == 128;
  }

  lemma {:induction false} MaskBit(fields: seq<InField>, total: nat, n: nat, j: nat)
    requires n <= total && j < total
    ensures NullMask(fields, total, n)[j / 8] & BitOf(j) != 0 <==> j < n && NotNull(Find(fields, j))
  {
    hide Find, NotNull, BitOf;
    if n > 0 {
      MaskBit(fields, total, n - 1, j);
      BitOr(NullMask(fields, total, n - 1)[j / 8], n - 1, j);
    }
  }

  // --- fields in place ---

  lemma {:induction false} FixedSized(cols: seq<TempCol>, fields: seq<InField>, i: nat)
    requires FullSize(cols, fields) && i <= |cols|
    ensures |FixedData(cols, fields, i)| == FixedSize(cols, i)
  {
    hide Find;
    if i > 0 { FixedSized(cols, fields, i - 1); }
  }

  lemma {:induction false} VarIndex(cols: seq<TempCol>, fields: seq<InField>, i: nat)
    requires i <= |cols|
    ensures |VarFields(cols, fields, i)| == VarBefore(cols, i)
  {
    hide Find;
    if i > 0 { VarIndex(cols, fields, i - 1); }
  }

  function FixedCount(cols: seq<TempCol>, i: nat): nat
    requires i <= |cols|
  {
    if i == 0 then 0 else FixedCount(cols, i - 1) + if cols[i - 1].isFixed then 1 else 0
  }

  lemma {:induction false} SameCount(cols: seq<TempCol>, i: nat)
    requires i <= |cols|
    ensures FixedBefore(Columns(cols), i) == FixedCount(cols, i)
  {
    hide BitOf, VarBefore, FixedBefore;
    FixedBeforeStep(Columns(cols), i);
    if i > 0 { SameCount(cols, i - 1); }
  }

  lemma {:induction false} Counts(cols: seq<TempCol>, i: nat, n: nat)
    requires i <= n <= |cols|
    ensures FixedCount(cols, n) + VarBefore(cols, n) == n
    ensures i < n && cols[i].isFixed ==> FixedCount(cols, i) < FixedCount(cols, n)
    ensures i < n && !cols[i].isFixed ==> VarBefore(cols, i) < VarBefore(cols, n)
    decreases n
  {
    if n > 0 { Counts(cols, if i < n then i else n - 1, n - 1); }
  }

  lemma Read16(b: seq<byte>, off: nat, x: nat)
    requires off + 1 < |b| && x < 0x8000 && b[off] == Lo(x) && b[off + 1] == Hi(x)
    ensures Int16At(b, off) == x
  {
    ByteValue(x % 256);
    ByteValue(x / 256);
    assert x / 256 % 256 == x / 256;
  }

  lemma Slice(page: seq<byte>, at: nat, whole: seq<byte>, a: nat, b: nat)
    requires at + |whole| <= |page| && page[at..at + |whole|] == whole && a <= b <= |whole|
    ensures page[at + a..at + b] == whole[a..b]
    ensures a < |whole| ==> page[at + a] == whole[a]
  {
    forall k | 0 <= k < |whole| ensures page[at + k] == whole[k] { assert page[at..at + |whole|][k] == page[at + k]; }
  }

  lemma Seen16(page: seq<byte>, start: nat, p: seq<byte>, i: nat, x: nat)
    requires start + |p| <= |page| && page[start..start + |p|] == p && i + 1 < |p|
    requires x < 0x8000 && p[i] == Lo(x) && p[i + 1] == Hi(x)
    ensures Int16At(page, start + i) == x
  {
    hide Lo, Hi, Int16At;
    Slice(page, start, p, i, i);
    Slice(page, start, p, i + 1, i + 1);
    Read16(page, start + i, x);
  }

  /** The `j`-th variable offset, counted back from the null mask. */
  lemma OffsetSeen(page: seq<byte>, start: nat, p: seq<byte>, offs: seq<nat>, m: nat, j: nat)
    requires start + |p| <= |page| && page[start..start + |p|] == p && j < |offs| && offs[j] < 0x8000
    requires 2 * |offs| + 2 + m <= |p| && p[|p| - m - 2 - 2 * |offs|..|p| - m - 2] == OffsetTable(offs, |offs|)
    ensures Int16At(page, start + |p| - 1 - m - 3 - j * 2) == offs[j]
  {
    hide Lo, Hi, Int16At, OffsetTable;
    var k := |p| - m - 4 - 2 * j;
    TablePart(p, offs, |p| - m - 2 - 2 * |offs|, j, k);
    Seen16(page, start, p, k, offs[j]);
    assert start + |p| - 1 - m - 3 - j * 2 == start + k;
  }

  lemma MaskSeen(page: seq<byte>, start: nat, p: seq<byte>, m: nat)
    requires start + |p| <= |page| && page[start..start + |p|] == p && m <= |p|
    ensures |From(page, start + |p| - m)| >= m && From(page, start + |p| - m)[..m] == p[|p| - m..]
  {
    Slice(page, start, p, |p| - m, |p|);
    assert page[start + |p| - m..][..m] == page[start + (|p| - m)..start + |p|];
  }

  lemma MaskFits(n: nat, m: nat)
    requires m == (n + 7) / 8 && m + 6 <= PG_SIZE
    ensures n < 0x8000 && MaskSize(n) == m
  {
  }

  /** The numbers at both ends of a packed row, as they are read from a page; the offsets lie after the column count. */
  lemma NumbersOfParts(page: seq<byte>, start: nat, p: seq<byte>, n: nat, fixedData: seq<byte>, varData: seq<byte>,
                       offs: seq<nat>, v: nat, mask: seq<byte>)
    requires PartsOf(p, n, fixedData, varData, offs, v, mask)
    requires start + |p| <= |page| && page[start..start + |p|] == p && |p| <= PG_SIZE
    requires |mask| == (n + 7) / 8 && |offs| == v + 1 && (forall j :: 0 <= j <= v ==> offs[j] < 0x8000) && v <= n
    ensures var rowEnd, m := start + |p| - 1, |mask|;
      && Int16At(page, start) == n && MaskSize(n) == m < rowEnd - start
      && Int16At(page, rowEnd - m - 1) == v && start + 2 <= rowEnd - m - 3 - 2 * v
      && forall j :: 0 <= j <= v ==> Int16At(page, rowEnd - m - 3 - j * 2) == offs[j]
  {
    hide Lo, Hi, Int16At, OffsetTable, MaskSize;
    var size, m := |p|, |mask|;
    MaskFits(n, m);
    Seen16(page, start, p, 0, n);
    Seen16(page, start, p, size - m - 2, v);
    var rowEnd := start + size - 1;
    assert rowEnd - m - 1 == start + (size - m - 2);
    forall j | 0 <= j <= v ensures Int16At(page, rowEnd - m - 3 - j * 2) == offs[j] {
      OffsetSeen(page, start, p, offs, m, j);
    }
  }

  /** The header of a packed row as `CrackHeader` reads it from a page. */
  lemma HeaderOfParts(page: seq<byte>, start: nat, p: seq<byte>, n: nat, fixedData: seq<byte>, varData: seq<byte>,
                      offs: seq<nat>, v: nat, mask: seq<byte>, hasVar: bool)
    requires PartsOf(p, n, fixedData, varData, offs, v, mask) && (v > 0 ==> hasVar)
    requires start + |p| <= |page| && page[start..start + |p|] == p && |p| <= PG_SIZE
    requires |mask| == (n + 7) / 8 && |offs| == v + 1 && (forall j :: 0 <= j <= v ==> offs[j] < 0x8000) && v <= n
    ensures var h := CrackHeader(page, start, |p|, hasVar);
            h.Some? && h.value.rowFixedCols == n - v
            && |h.value.nullMask| >= |mask| && h.value.nullMask[..|mask|] == mask
            && h.value.varOffsets == if hasVar then offs else []
  {
    hide Lo, Hi, Int16At, OffsetTable, From, MaskSize;
    NumbersOfParts(page, start, p, n, fixedData, varData, offs, v, mask);
    MaskSeen(page, start, p, |mask|);
    assert start + |p| - 1 - |mask| + 1 == start + |p| - |mask|;
  }

  /** What a stored field comes back as, wherever its row lies. */
  predicate Back(f: Field, given: Option<InField>, size: nat) { Holds(f, Payload(given, size), NotNull(given)) }

  lemma FixedIn(cols: seq<TempCol>, fields: seq<InField>, i: nat)
    requires i < |cols| && cols[i].isFixed && FullSize(cols, fields)
    ensures var all, a, data := FixedData(cols, fields, |cols|), FixedSize(cols, i), Payload(Find(fields, i), cols[i].size);
            |data| == cols[i].size && a + |data| <= |all| && all[a..a + |data|] == data
  {
    hide Find, Zeros;
    FixedSized(cols, fields, i);
    FixedGrows(cols, fields, i + 1, |cols|);
    ZerosLength(cols[i].size);
  }

  lemma ZerosLength(n: nat)
    ensures |Zeros(n)| == n && forall k :: 0 <= k < n ==> Zeros(n)[k] == 0
  {
  }

  lemma VarIn(vf: seq<Option<InField>>, j: nat)
    requires j < |vf|
    ensures var a, b := |VarData(vf, j)|, |VarData(vf, j + 1)|;
            a <= b <= |VarData(vf, |vf|)| && VarData(vf, |vf|)[a..b] == Payload(vf[j], 0)
  {
    hide Payload;
    VarGrows(vf, j, j + 1);
    VarGrows(vf, j + 1, |vf|);
  }

  lemma {:induction false} VarFieldIs(cols: seq<TempCol>, fields: seq<InField>, i: nat, n: nat)
    requires i < n <= |cols| && !cols[i].isFixed
    ensures VarBefore(cols, i) < |VarFields(cols, fields, n)| && VarFields(cols, fields, n)[VarBefore(cols, i)] == Find(fields, i)
    decreases n
  {
    hide Find;
    if i == n - 1 { VarIndex(cols, fields, i); } else { VarFieldIs(cols, fields, i, n - 1); }
  }

  predicate Holds(f: Field, data: seq<byte>, notNull: bool) {
    f.siz == |data| && f.isNull == !notNull && f.value == if |data| > 0 then Some(data) else None
  }

  lemma FixedField(col: Column, fixedBefore: nat, h: Header, page: seq<byte>, start: nat, size: nat, data: seq<byte>, notNull: bool)
    requires col.isFixed && fixedBefore < h.rowFixedCols && col.nullByte < |h.nullMask|
    requires h.nullMask[col.nullByte] & col.nullBit != 0 <==> notNull
    requires col.colSize == |data| && 0 <= col.fixedOffset && 2 + col.fixedOffset + |data| <= size && start + size <= |page|
    requires page[start + (2 + col.fixedOffset)..start + (2 + col.fixedOffset + |data|)] == data
    ensures Holds(FieldOf(col, fixedBefore, h, page, start, size), data, notNull)
  {
  }

  lemma VarField(col: Column, fixedBefore: nat, h: Header, page: seq<byte>, start: nat, size: nat, data: seq<byte>, notNull: bool)
    requires !col.isFixed && 0 <= col.varNum < |h.varOffsets| - 1 && col.nullByte < |h.nullMask|
    requires h.nullMask[col.nullByte] & col.nullBit != 0 <==> notNull
    requires var a := h.varOffsets[col.varNum];
             0 <= a && h.varOffsets[col.varNum + 1] == a + |data| <= size && start + size <= |page|
             && page[start + a..start + (a + |data|)] == data
    ensures Holds(FieldOf(col, fixedBefore, h, page, start, size), data, notNull)
  {
  }

  /** The data of a packed row, seen on its page. */
  lemma DataSeen(cols: seq<TempCol>, fields: seq<InField>, page: seq<byte>, start: nat)
    requires var p := Packed(cols, fields); start + |p| <= |page| && page[start..start + |p|] == p
    ensures var fixedData, vf := FixedData(cols, fields, |cols|), VarFields(cols, fields, |cols|);
            var varData := VarData(vf, |vf|);
            2 + |fixedData| + |varData| <= |Packed(cols, fields)|
            && page[start + 2..start + 2 + |fixedData|] == fixedData
            && page[start + 2 + |fixedData|..start + 2 + |fixedData| + |varData|] == varData
  {
    hide Packed, Lo, Hi, OffsetTable, FixedData, NullMask, VarFields, VarData, Offsets;
    var p := Packed(cols, fields);
    Parts(cols, fields);
    var fixedData, vf := FixedData(cols, fields, |cols|), VarFields(cols, fields, |cols|);
    Slice(page, start, p, 2, 2 + |fixedData|);
    Slice(page, start, p, 2 + |fixedData|, 2 + |fixedData| + |VarData(vf, |vf|)|);
  }

  lemma FixedBack(cols: seq<TempCol>, fields: seq<InField>, page: seq<byte>, start: nat, i: nat, h: Header)
    requires i < |cols| && cols[i].isFixed && cols[i].fixedOffset == FixedSize(cols, i) && FullSize(cols, fields)
    requires var p := Packed(cols, fields); start + |p| <= |page| && page[start..start + |p|] == p
    requires h.rowFixedCols == FixedCount(cols, |cols|) && i / 8 < |h.nullMask|
    requires h.nullMask[i / 8] & BitOf(i) != 0 <==> NotNull(Find(fields, i))
    ensures Back(FieldAt(Columns(cols), i, h, page, start, |Packed(cols, fields)|), Find(fields, i), cols[i].size)
  {
    hide Find, Packed, Payload, FixedData, FixedBefore, BitOf, NotNull, VarFields, VarData, FieldOf, FullSize, FixedSize,
      FixedCount, VarBefore, Holds;
    DataSeen(cols, fields, page, start);
    SameCount(cols, i);
    Counts(cols, i, |cols|);
    FixedIn(cols, fields, i);
    var a, data := FixedSize(cols, i), Payload(Find(fields, i), cols[i].size);
    Slice(page, start + 2, FixedData(cols, fields, |cols|), a, a + |data|);
    assert start + 2 + a == start + (2 + a) && start + 2 + (a + |data|) == start + (2 + a + |data|);
    FixedField(Columns(cols)[i], FixedCount(cols, i), h, page, start, |Packed(cols, fields)|, data, NotNull(Find(fields, i)));
  }

  lemma VarBack(cols: seq<TempCol>, fields: seq<InField>, page: seq<byte>, start: nat, i: nat, h: Header)
    requires i < |cols| && !cols[i].isFixed
    requires var p := Packed(cols, fields); start + |p| <= |page| && page[start..start + |p|] == p
    requires h.varOffsets == Offsets(VarFields(cols, fields, |cols|), 2 + |FixedData(cols, fields, |cols|)|) && i / 8 < |h.nullMask|
    requires h.nullMask[i / 8] & BitOf(i) != 0 <==> NotNull(Find(fields, i))
    ensures Back(FieldAt(Columns(cols), i, h, page, start, |Packed(cols, fields)|), Find(fields, i), 0)
  {
    hide Find, Packed, Payload, FixedData, FixedBefore, BitOf, NotNull, VarFields, VarData, Offsets, FieldOf, VarBefore, Holds;
    var vf := VarFields(cols, fields, |cols|);
    DataSeen(cols, fields, page, start);
    VarFieldIs(cols, fields, i, |cols|);
    var j := VarBefore(cols, i);
    VarIn(vf, j);
    var base := 2 + |FixedData(cols, fields, |cols|)|;
    var a, b := |VarData(vf, j)|, |VarData(vf, j + 1)|;
    Slice(page, start + base, VarData(vf, |vf|), a, b);
    assert start + base + a == start + (base + a) && start + base + b == start + (base + b);
    VarField(Columns(cols)[i], FixedBefore(Columns(cols), i), h, page, start, |Packed(cols, fields)|, Payload(vf[j], 0), NotNull(Find(fields, i)));
  }

  /** What the cracker makes of the ends of a packed row. */
  predicate HeaderOk(h: Header, cols: seq<TempCol>, fields: seq<InField>) {
    var n, vf := |cols|, VarFields(cols, fields, |cols|);
    && h.rowFixedCols == FixedCount(cols, n)
    && |h.nullMask| >= (n + 7) / 8 && h.nullMask[..(n + 7) / 8] == NullMask(fields, n, n)
    && (h.varOffsets == Offsets(vf, 2 + |FixedData(cols, fields, n)|) || (|vf| == 0 && h.varOffsets == []))
  }

  lemma PackedHeader(cols: seq<TempCol>, fields: seq<InField>, page: seq<byte>, start: nat, hasVar: bool)
    requires VarBefore(cols, |cols|) > 0 ==> hasVar
    requires var p := Packed(cols, fields);
             |p| <= PG_SIZE && start + |p| <= |page| && page[start..start + |p|] == p
    ensures var h := CrackHeader(page, start, |Packed(cols, fields)|, hasVar);
            h.Some? && HeaderOk(h.value, cols, fields)
  {
    hide Find, Packed, Payload, Lo, Hi, OffsetTable, FixedData, NullMask, VarFields, VarData, Offsets, CrackHeader, PartsOf,
      FixedCount, VarBefore;
    var n, vf := |cols|, VarFields(cols, fields, |cols|);
    var fixedData := FixedData(cols, fields, n);
    Parts(cols, fields);
    VarIndex(cols, fields, n);
    Counts(cols, n, n);
    var offs := Offsets(vf, 2 + |fixedData|);
    PackedLength(cols, fields);
    forall j | 0 <= j <= |vf| ensures offs[j] < 0x8000 { VarGrows(vf, j, |vf|); }
    HeaderOfParts(page, start, Packed(cols, fields), n, fixedData, VarData(vf, |vf|), offs, |vf|, NullMask(fields, n, n),
      hasVar);
  }

  /** Cracking a packed row reads nothing before it. */
  lemma PackedNumbers(cols: seq<TempCol>, fields: seq<InField>, page: seq<byte>, start: nat)
    requires var p := Packed(cols, fields);
             |p| <= PG_SIZE && start + |p| <= |page| && page[start..start + |p|] == p
    ensures var rowEnd := start + |Packed(cols, fields)| - 1;
            var m := MaskSize(Int16At(page, start));
            var v := Int16At(page, rowEnd - m - 1);
      && 0 <= m < rowEnd - start && v >= 0 && start + 2 <= rowEnd - m - 3 - 2 * v
      && forall j :: 0 <= j <= v ==> Int16At(page, rowEnd - m - 3 - j * 2) >= 0
  {
    hide Find, Packed, Payload, Lo, Hi, OffsetTable, FixedData, NullMask, VarFields, VarData, Offsets, PartsOf, VarBefore,
      FixedCount, Int16At, MaskSize;
    var n, vf := |cols|, VarFields(cols, fields, |cols|);
    var fixedData := FixedData(cols, fields, n);
    Parts(cols, fields);
    VarIndex(cols, fields, n);
    Counts(cols, n, n);
    var offs := Offsets(vf, 2 + |fixedData|);
    PackedLength(cols, fields);
    forall j | 0 <= j <= |vf| ensures offs[j] < 0x8000 { VarGrows(vf, j, |vf|); }
    NumbersOfParts(page, start, Packed(cols, fields), n, fixedData, VarData(vf, |vf|), offs, |vf|, NullMask(fields, n, n));
    var rowEnd, m := start + |Packed(cols, fields)| - 1, |NullMask(fields, n, n)|;
    assert MaskSize(Int16At(page, start)) == m && Int16At(page, rowEnd - m - 1) == |vf|;
    forall j | 0 <= j <= |vf| ensures Int16At(page, rowEnd - m - 3 - j * 2) >= 0 {
      assert Int16At(page, rowEnd - m - 3 - j * 2) == offs[j];
    }
  }

  lemma ColumnBack(cols: seq<TempCol>, fields: seq<InField>, page: seq<byte>, start: nat, i: nat, h: Header)
    requires i < |cols| && Cumulative(cols) && FullSize(cols, fields) && HeaderOk(h, cols, fields)
    requires var p := Packed(cols, fields); start + |p| <= |page| && page[start..start + |p|] == p
    ensures Back(FieldAt(Columns(cols), i, h, page, start, |Packed(cols, fields)|), Find(fields, i),
                 if cols[i].isFixed then cols[i].size else 0)
  {
    hide Find, Packed, FixedData, NullMask, BitOf, NotNull, VarFields, Offsets, Columns, FieldAt, Back, FixedSize, FullSize,
      FixedCount, VarBefore;
    MaskBit(fields, |cols|, |cols|, i);
    assert h.nullMask[i / 8] == h.nullMask[..(|cols| + 7) / 8][i / 8];
    if cols[i].isFixed {
      FixedBack(cols, fields, page, start, i, h);
    } else {
      VarFieldIs(cols, fields, i, |cols|);
      VarBack(cols, fields, page, start, i, h);
    }
  }

  /** Cracking a packed row, wherever it lies on a page, gives back every field with its bytes and null flag. */
  lemma CrackPacked(cols: seq<TempCol>, fields: seq<InField>, page: seq<byte>, start: nat)
    requires Cumulative(cols) && FullSize(cols, fields)
    requires var p := Packed(cols, fields);
             |p| <= PG_SIZE && start + |p| <= |page| && page[start..start + |p|] == p
    ensures var p := Packed(cols, fields);
            var h := CrackHeader(page, start, |p|, VarBefore(cols, |cols|) > 0);
            h.Some? && forall i :: 0 <= i < |cols| ==>
              Back(FieldAt(Columns(cols), i, h.value, page, start, |p|), Find(fields, i), if cols[i].isFixed then cols[i].size else 0)
  {
    hide Find, Packed, Columns, CrackHeader, FieldAt, Back, Cumulative, FullSize, HeaderOk, VarBefore;
    PackedHeader(cols, fields, page, start, VarBefore(cols, |cols|) > 0);
    var h := CrackHeader(page, start, |Packed(cols, fields)|, VarBefore(cols, |cols|) > 0).value;
    forall i | 0 <= i < |cols|
      ensures Back(FieldAt(Columns(cols), i, h, page, start, |Packed(cols, fields)|), Find(fields, i),
                   if cols[i].isFixed then cols[i].size else 0)
    {
      ColumnBack(cols, fields, page, start, i, h);
    }
  }

  /** In terms of what was given: bytes come back as bytes, null as null, and what is missing of a fixed column as zeros. */
  lemma BackMeans(f: Field, given: Option<InField>, size: nat)
    requires Back(f, given, size)
    ensures f.isNull <==> given.None? || given.value.isNull
    ensures given.Some? && !given.value.isNull && given.value.value.Some? ==>
      var bytes := given.value.value.value; f.siz == |bytes| && (bytes != [] ==> f.value == Some(bytes))
    ensures given.None? || given.value.isNull || given.value.value.None? ==>
      f.siz == size && (size > 0 ==> f.value.Some? && |f.value.value| == size && forall k :: 0 <= k < size ==> f.value.value[k] == 0)
  {
    ZerosLength(size);
  }

  /** The field given for a column is the first with its number. */
  lemma {:induction false} FindFirst(fields: seq<InField>, colNum: nat)
    ensures Find(fields, colNum).None? <==> forall k :: 0 <= k < |fields| ==> fields[k].colNum != colNum
    ensures Find(fields, colNum).Some? ==>
      exists k :: 0 <= k < |fields| && fields[k] == Find(fields, colNum).value && fields[k].colNum == colNum
                  && forall j :: 0 <= j < k ==> fields[j].colNum != colNum
  {
    if fields != [] && fields[0].colNum != colNum {
      FindFirst(fields[1..], colNum);
      if Find(fields[1..], colNum).Some? {
        var k :| 0 <= k < |fields[1..]| && fields[1..][k] == Find(fields[1..], colNum).value && fields[1..][k].colNum == colNum
          && forall j :: 0 <= j < k ==> fields[1..][j].colNum != colNum;
        assert fields[k + 1] == fields[1..][k];
        forall j | 0 <= j < k + 1 ensures fields[j].colNum != colNum { if j > 0 { assert fields[1..][j - 1] == fields[j]; } }
      }
    }
  }

  // --- rows from before columns were added ---

  lemma {:induction false} PrefixCounts(cols: seq<TempCol>, n: nat, i: nat)
    requires n <= |cols| && i <= |cols|
    ensures i <= n ==> FixedCount(cols[..n], i) == FixedCount(cols, i) && VarBefore(cols[..n], i) == VarBefore(cols, i)
    ensures i >= n ==> FixedCount(cols, i) >= FixedCount(cols, n) && VarBefore(cols, i) >= VarBefore(cols, n)
    decreases i
  {
    if i > 0 { PrefixCounts(cols, n, i - 1); }
  }

  lemma PrefixColumn(cols: seq<TempCol>, n: nat, i: nat)
    requires i < n <= |cols|
    ensures Columns(cols)[i] == Columns(cols[..n])[i] && FixedBefore(Columns(cols), i) == FixedBefore(Columns(cols[..n]), i)
  {
    hide BitOf, VarBefore, FixedBefore, FixedCount;
    PrefixCounts(cols, n, i);
    SameCount(cols, i);
    SameCount(cols[..n], i);
  }

  /** A column the row does not reach: no place, no bytes, null. */
  lemma Unreached(col: Column, fixedBefore: nat, h: Header, page: seq<byte>, start: nat, size: nat)
    requires col.isFixed ==> fixedBefore >= h.rowFixedCols
    requires !col.isFixed ==> col.varNum >= |h.varOffsets| - 1
    ensures FieldOf(col, fixedBefore, h, page, start, size) == Field(0, 0, true, None)
  {
  }

  /**
   A row packed when the table had its first `n` columns gives these back, and every later column as null,
   whether it is fixed or variable.
   */
  lemma CrackOlder(cols: seq<TempCol>, n: nat, fields: seq<InField>, page: seq<byte>, start: nat)
    requires n <= |cols| && Cumulative(cols[..n]) && FullSize(cols[..n], fields)
    requires var p := Packed(cols[..n], fields);
             |p| <= PG_SIZE && start + |p| <= |page| && page[start..start + |p|] == p
    ensures var p := Packed(cols[..n], fields);
            var h := CrackHeader(page, start, |p|, VarBefore(cols, |cols|) > 0);
            h.Some?
            && (forall i :: 0 <= i < n ==>
                  Back(FieldAt(Columns(cols), i, h.value, page, start, |p|), Find(fields, i), if cols[i].isFixed then cols[i].size else 0))
            && forall i :: n <= i < |cols| ==> FieldAt(Columns(cols), i, h.value, page, start, |p|) == Field(0, 0, true, None)
  {
    hide Find, Packed, CrackHeader, FieldOf, Back, Cumulative, FullSize, HeaderOk, VarBefore, FixedCount, FixedBefore, Columns;
    var short, hasVar := cols[..n], VarBefore(cols, |cols|) > 0;
    PrefixCounts(cols, n, n);
    PrefixCounts(cols, n, |cols|);
    PackedHeader(short, fields, page, start, hasVar);
    var h := CrackHeader(page, start, |Packed(short, fields)|, hasVar).value;
    forall i | 0 <= i < n
      ensures Back(FieldAt(Columns(cols), i, h, page, start, |Packed(short, fields)|), Find(fields, i), if cols[i].isFixed then cols[i].size else 0)
    {
      PrefixColumn(cols, n, i);
      ColumnBack(short, fields, page, start, i, h);
    }
    forall i | n <= i < |cols| ensures FieldAt(Columns(cols), i, h, page, start, |Packed(short, fields)|) == Field(0, 0, true, None) {
      LaterColumn(cols, n, fields, i, h);
      Unreached(Columns(cols)[i], FixedBefore(Columns(cols), i), h, page, start, |Packed(short, fields)|);
    }
  }

  lemma LaterColumn(cols: seq<TempCol>, n: nat, fields: seq<InField>, i: nat, h: Header)
    requires n <= i < |cols| && HeaderOk(h, cols[..n], fields)
    ensures Columns(cols)[i].isFixed ==> FixedBefore(Columns(cols), i) >= h.rowFixedCols
    ensures !Columns(cols)[i].isFixed ==> Columns(cols)[i].varNum >= |h.varOffsets| - 1
  {
    hide Find, FixedData, NullMask, BitOf, VarFields, FixedBefore, FixedCount, VarBefore;
    PrefixCounts(cols, n, n);
    PrefixCounts(cols, n, i);
    SameCount(cols, i);
    VarIndex(cols[..n], fields, n);
  }
}
