/** Exactly which temp table definitions give packed rows back (internal/gomdb/worktable.go, crack.go). */
module RowOffsets {
  import opened Bytes
  import opened RowFormat
  import opened RowPack
  import opened Wrappers

  /** Fixed columns that hold anything have the offset at which packing puts them. */
  predicate Placed(cols: seq<TempCol>) {
    forall i :: 0 <= i < |cols| && cols[i].isFixed && cols[i].size > 0 ==> cols[i].fixedOffset == FixedSize(cols, i)
  }

  /** Cracking the packed row, on its own, gives every field back. */
  predicate GivesBack(cols: seq<TempCol>, fields: seq<InField>) {
    var p := Packed(cols, fields);
    var h := CrackHeader(p, 0, |p|, VarBefore(cols, |cols|) > 0);
    h.Some? && forall i :: 0 <= i < |cols| ==>
      Back(FieldAt(Columns(cols), i, h.value, p, 0, |p|), Find(fields, i), if cols[i].isFixed then cols[i].size else 0)
  }

  predicate Storable(cols: seq<TempCol>, fields: seq<InField>) {
    FullSize(cols, fields) && |Packed(cols, fields)| <= PG_SIZE
  }

  // --- the offsets suffice ---

  /** The columns with the offsets packing uses. */
  function Corrected(cols: seq<TempCol>): (r: seq<TempCol>)
    ensures |r| == |cols| && forall i :: 0 <= i < |cols| ==> r[i] == cols[i].(fixedOffset := FixedSize(cols, i))
  {
    seq(|cols|, i requires 0 <= i < |cols| => cols[i].(fixedOffset := FixedSize(cols, i)))
  }

  lemma {:induction false} SameShape(cols: seq<TempCol>, other: seq<TempCol>, fields: seq<InField>, n: nat)
    requires |cols| == |other| && n <= |cols|
    requires forall i :: 0 <= i < |cols| ==> other[i].isFixed == cols[i].isFixed && other[i].size == cols[i].size
    ensures FixedData(cols, fields, n) == FixedData(other, fields, n) && VarFields(cols, fields, n) == VarFields(other, fields, n)
    ensures FixedSize(cols, n) == FixedSize(other, n) && VarBefore(cols, n) == VarBefore(other, n)
    ensures FixedCount(cols, n) == FixedCount(other, n)
  {
    hide Find, Payload;
    if n > 0 { SameShape(cols, other, fields, n - 1); }
  }

  /** A fixed column without width reads the same whatever its offset. */
  lemma NoWidth(a: Column, b: Column, fixedBefore: nat, h: Header, page: seq<byte>, start: int, size: int, given: Option<InField>)
    requires a.isFixed && b == a.(fixedOffset := b.fixedOffset) && a.colSize == 0
    requires Back(FieldOf(b, fixedBefore, h, page, start, size), given, 0)
    ensures Back(FieldOf(a, fixedBefore, h, page, start, size), given, 0)
  {
  }

  lemma PlacedGivesBack(cols: seq<TempCol>, fields: seq<InField>)
    requires Placed(cols) && Storable(cols, fields)
    ensures GivesBack(cols, fields)
  {
    hide Find, Packed, FieldOf, CrackHeader, Back, FixedSize, BitOf, Columns, VarBefore, FixedBefore;
    var other, p := Corrected(cols), Packed(cols, fields);
    SameShape(cols, other, fields, |cols|);
    forall i | 0 <= i <= |cols| ensures FixedSize(cols, i) == FixedSize(other, i) && VarBefore(cols, i) == VarBefore(other, i) {
      SameShape(cols, other, fields, i);
    }
    SamePacked(cols, other, fields);
    assert Cumulative(other) && FullSize(other, fields);
    assert p[0..0 + |p|] == p;
    CrackPacked(other, fields, p, 0);
    var h := CrackHeader(p, 0, |p|, VarBefore(cols, |cols|) > 0).value;
    forall i | 0 <= i < |cols|
      ensures Back(FieldAt(Columns(cols), i, h, p, 0, |p|), Find(fields, i), if cols[i].isFixed then cols[i].size else 0)
    {
      ColumnAgrees(cols, other, fields, i, h, p);
    }
  }

  lemma SamePacked(cols: seq<TempCol>, other: seq<TempCol>, fields: seq<InField>)
    requires |cols| == |other|
    requires FixedData(cols, fields, |cols|) == FixedData(other, fields, |cols|)
    requires VarFields(cols, fields, |cols|) == VarFields(other, fields, |cols|)
    ensures Packed(cols, fields) == Packed(other, fields)
  {
    hide FixedData, VarFields, VarData, OffsetTable, NullMask, Lo, Hi;
  }

  lemma ColumnAgrees(cols: seq<TempCol>, other: seq<TempCol>, fields: seq<InField>, i: nat, h: Header, p: seq<byte>)
    requires Placed(cols) && i < |cols| && other == Corrected(cols) && VarBefore(cols, i) == VarBefore(other, i)
    requires Back(FieldAt(Columns(other), i, h, p, 0, |p|), Find(fields, i), if cols[i].isFixed then cols[i].size else 0)
    ensures Back(FieldAt(Columns(cols), i, h, p, 0, |p|), Find(fields, i), if cols[i].isFixed then cols[i].size else 0)
  {
    hide Find, FieldOf, Back, FixedSize, BitOf, VarBefore, FixedBefore;
    SameCount(cols, i);
    SameCount(other, i);
    SameShape(cols, other, fields, i);
    var a, b := Columns(cols)[i], Columns(other)[i];
    assert a == ColumnOf(cols, i) && b == ColumnOf(other, i);
    if cols[i].isFixed && cols[i].size == 0 {
      NoWidth(a, b, FixedCount(cols, i), h, p, 0, |p|, Find(fields, i));
    } else if !cols[i].isFixed {
      OffsetUnused(a, b, FixedCount(cols, i), h, p, 0, |p|);
    } else {
      assert a == b;
    }
  }

  lemma OffsetUnused(a: Column, b: Column, fixedBefore: nat, h: Header, page: seq<byte>, start: int, size: int)
    requires !a.isFixed && b == a.(fixedOffset := b.fixedOffset)
    ensures FieldOf(a, fixedBefore, h, page, start, size) == FieldOf(b, fixedBefore, h, page, start, size)
  {
  }

  // --- and they are needed ---

  function Filled(n: nat, b: byte): (s: seq<byte>)
    ensures |s| == n && forall k :: 0 <= k < n ==> s[k] == b
  {
    seq(n, _ => b)
  }

  /** A row with only column `i` given. */
  function OnlyOne(cols: seq<TempCol>, i: nat, b: byte): seq<InField>
    requires i < |cols|
  {
    [InField(i, Some(Filled(cols[i].size, b)), false)]
  }

  lemma OnlyFound(cols: seq<TempCol>, i: nat, b: byte, j: nat)
    requires i < |cols|
    ensures Find(OnlyOne(cols, i, b), j) == if j == i then Some(OnlyOne(cols, i, b)[0]) else None
  {
    assert OnlyOne(cols, i, b)[1..] == [];
  }

  /** Two such rows differ only in the bytes of the column. */
  lemma {:induction false} OnlyThere(cols: seq<TempCol>, i: nat, a: byte, b: byte, n: nat, k: nat)
    requires i < |cols| && cols[i].isFixed && n <= |cols|
    ensures var x, y := FixedData(cols, OnlyOne(cols, i, a), n), FixedData(cols, OnlyOne(cols, i, b), n);
            |x| == |y| == FixedSize(cols, n)
            && (k < |x| && !(FixedSize(cols, i) <= k < FixedSize(cols, i) + cols[i].size) ==> x[k] == y[k])
            && VarFields(cols, OnlyOne(cols, i, a), n) == VarFields(cols, OnlyOne(cols, i, b), n)
  {
    hide Find, OnlyOne;
    if n > 0 {
      OnlyThere(cols, i, a, b, n - 1, k);
      OnlyFound(cols, i, a, n - 1);
      OnlyFound(cols, i, b, n - 1);
      OnlyShape(cols, i, a);
      OnlyShape(cols, i, b);
    }
  }

  lemma OnlyShape(cols: seq<TempCol>, i: nat, b: byte)
    requires i < |cols|
    ensures OnlyOne(cols, i, b) == [InField(i, Some(Filled(cols[i].size, b)), false)]
  {
  }

  lemma {:induction false} SameMask(cols: seq<TempCol>, i: nat, a: byte, b: byte, total: nat, n: nat)
    requires i < |cols| && n <= total
    ensures NullMask(OnlyOne(cols, i, a), total, n) == NullMask(OnlyOne(cols, i, b), total, n)
  {
    hide Find, OnlyOne, BitOf;
    if n > 0 {
      SameMask(cols, i, a, b, total, n - 1);
      OnlyFound(cols, i, a, n - 1);
      OnlyFound(cols, i, b, n - 1);
      OnlyShape(cols, i, a);
      OnlyShape(cols, i, b);
    }
  }

  lemma PackedOnlyThere(cols: seq<TempCol>, i: nat, a: byte, b: byte, k: nat)
    requires i < |cols| && cols[i].isFixed
    ensures var x, y := Packed(cols, OnlyOne(cols, i, a)), Packed(cols, OnlyOne(cols, i, b));
            |x| == |y| && (k < |x| && !(2 + FixedSize(cols, i) <= k < 2 + FixedSize(cols, i) + cols[i].size) ==> x[k] == y[k])
  {
    hide FixedData, VarFields, VarData, OffsetTable, NullMask, Lo, Hi, OnlyOne, FixedSize, Packed;
    var n := |cols|;
    OnlyThere(cols, i, a, b, n, if k >= 2 then k - 2 else 0);
    SameMask(cols, i, a, b, n, n);
    PackedShape(cols, OnlyOne(cols, i, a));
    PackedShape(cols, OnlyOne(cols, i, b));
    var f, g := FixedData(cols, OnlyOne(cols, i, a), n), FixedData(cols, OnlyOne(cols, i, b), n);
    var vf := VarFields(cols, OnlyOne(cols, i, a), n);
    assert Trailer(OnlyOne(cols, i, a), n, vf, 2 + |f|) == Trailer(OnlyOne(cols, i, b), n, vf, 2 + |g|);
    if !(2 + FixedSize(cols, i) <= k < 2 + FixedSize(cols, i) + cols[i].size) {
      Inside(Lo(n), Hi(n), f, g, Trailer(OnlyOne(cols, i, a), n, vf, 2 + |f|), k);
    }
  }

  lemma Inside(l: byte, h: byte, f: seq<byte>, g: seq<byte>, t: seq<byte>, k: nat)
    requires |f| == |g| && (2 <= k < 2 + |f| ==> f[k - 2] == g[k - 2])
    ensures k < 2 + |f| + |t| ==> ([l, h] + f + t)[k] == ([l, h] + g + t)[k]
  {
  }

  lemma OnlyStorable(cols: seq<TempCol>, i: nat, b: byte)
    requires i < |cols|
    ensures FullSize(cols, OnlyOne(cols, i, b))
  {
    hide OnlyOne;
    forall j | 0 <= j < |cols| && cols[j].isFixed && Stored(Find(OnlyOne(cols, i, b), j))
      ensures |Find(OnlyOne(cols, i, b), j).value.value.value| == cols[j].size
    {
      OnlyFound(cols, i, b, j);
      OnlyShape(cols, i, b);
    }
  }

  /** The value cracked from column `i`: the bytes at its offset. */
  lemma ReadAtOffset(cols: seq<TempCol>, i: nat, b: byte)
    requires i < |cols| && cols[i].isFixed && cols[i].size > 0 && GivesBack(cols, OnlyOne(cols, i, b))
    ensures var p, o := Packed(cols, OnlyOne(cols, i, b)), 2 + cols[i].fixedOffset;
            o + cols[i].size <= |p| && forall k :: o <= k < o + cols[i].size ==> p[k] == b
  {
    hide Packed, CrackHeader, OnlyOne, Find, VarBefore, BitOf, FixedBefore;
    var fields := OnlyOne(cols, i, b);
    var p := Packed(cols, fields);
    var h := CrackHeader(p, 0, |p|, VarBefore(cols, |cols|) > 0).value;
    var f := FieldAt(Columns(cols), i, h, p, 0, |p|);
    OnlyFound(cols, i, b, i);
    OnlyShape(cols, i, b);
    assert Back(f, Find(fields, i), cols[i].size);
    var o := 2 + cols[i].fixedOffset;
    assert p[o..o + cols[i].size] == Filled(cols[i].size, b);
    forall k | o <= k < o + cols[i].size ensures p[k] == b { assert p[o..o + cols[i].size][k - o] == p[k]; }
  }

  lemma NeedsOffset(cols: seq<TempCol>, i: nat)
    requires i < |cols| && cols[i].isFixed && cols[i].size > 0
    requires GivesBack(cols, OnlyOne(cols, i, 0)) && GivesBack(cols, OnlyOne(cols, i, 0xFF))
    ensures cols[i].fixedOffset == FixedSize(cols, i)
  {
    hide GivesBack, Packed, OnlyOne;
    var o, at, size := cols[i].fixedOffset, FixedSize(cols, i), cols[i].size;
    ReadAtOffset(cols, i, 0);
    ReadAtOffset(cols, i, 0xFF);
    PackedOnlyThere(cols, i, 0, 0xFF, if o < at then 2 + o else 2 + o + size - 1);
  }

  /**
   If a row with a single fixed value fits a page, packed rows come back unchanged for all full-size
   inputs exactly when every fixed column has the offset at which packing puts it.
   */
  lemma OffsetsExact(cols: seq<TempCol>)
    requires forall i :: 0 <= i < |cols| && cols[i].isFixed ==> |Packed(cols, OnlyOne(cols, i, 0))| <= PG_SIZE
    ensures Placed(cols) <==> forall fields :: Storable(cols, fields) ==> GivesBack(cols, fields)
  {
    hide GivesBack, Packed, OnlyOne, FullSize;
    if Placed(cols) {
      forall fields | Storable(cols, fields) ensures GivesBack(cols, fields) { PlacedGivesBack(cols, fields); }
    } else {
      var i :| 0 <= i < |cols| && cols[i].isFixed && cols[i].size > 0 && cols[i].fixedOffset != FixedSize(cols, i);
      PackedOnlyThere(cols, i, 0, 0xFF, 0);
      OnlyStorable(cols, i, 0);
      OnlyStorable(cols, i, 0xFF);
      if GivesBack(cols, OnlyOne(cols, i, 0)) && GivesBack(cols, OnlyOne(cols, i, 0xFF)) { NeedsOffset(cols, i); }
    }
  }
}
