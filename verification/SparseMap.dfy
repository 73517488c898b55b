/** A file whose table loses its first data page in a scan: the offset carried over in mapFindNext1. */
module SparseMap {
  import opened Bytes
  import opened PageWalk

  /** Page 1 is a map page with its first two bits set, the last two pages are data pages of table 7. */
  function SparsePage(p: int): (s: seq<byte>)
    ensures |s| == 2048
  {
    if p == 1 then [0, 0, 0, 0, 3] + seq(2043, _ => 0)
    else if p >= 16352 then [1, 0, 0, 0, 7, 0, 0, 0] + seq(2040, _ => 0)
    else seq(2048, _ => 0)
  }

  /** Page 1 maps pages 16352 and 16353; the first 16352 pages have no map page. */
  const SPARSE_DISK: Disk := Disk(seq(16354, (p: int) => SparsePage(p)), 2048)
  const SPARSE_TABLE: Table := Table(7, [1, 0, 0, 0, 0, 1, 0, 0, 0], 9, 5)

  lemma SparseBits(i: nat)
    requires i < 16352
    ensures Bit(SparsePage(1)[4..], i) <==> i < 2
  {
    assert SparsePage(1)[4..][i / 8] == if i < 8 then 3 else 0;
    if i < 8 {
      assert (1 as bv8) << 0 == 1 && (1 as bv8) << 1 == 2 && (1 as bv8) << 2 == 4 && (1 as bv8) << 3 == 8;
      assert (1 as bv8) << 4 == 16 && (1 as bv8) << 5 == 32 && (1 as bv8) << 6 == 64 && (1 as bv8) << 7 == 128;
    }
  }

  lemma SparseOk()
    ensures SPARSE_DISK.Ok() && forall p :: 0 <= p < 16354 ==> SPARSE_DISK.pages[p] == SparsePage(p)
  {
  }

  lemma SmallInt(b: seq<byte>, off: nat)
    requires off + 4 <= |b| && b[off] < 8 && b[off + 1] == 0 && b[off + 2] == 0 && b[off + 3] == 0
    ensures Int32At(b, off) == b[off] as int
  {
  }

  lemma SparseOwn(p: nat)
    ensures SPARSE_DISK.Ok()
    ensures Own(SPARSE_DISK, SPARSE_TABLE, p) <==> 16352 <= p < 16354
  {
    hide Int32At;
    SparseOk();
    var s := SparsePage(p);
    if p >= 16352 {
      assert s[0] == 1 && s[4] == 7 && s[5] == 0 && s[6] == 0 && s[7] == 0;
      SmallInt(s, 4);
    } else {
      assert s[0] == 0;
    }
  }

  lemma SparseMapPages()
    ensures Readable(SPARSE_TABLE) && MapPages(SPARSE_TABLE) == 2
    ensures MapPage(SPARSE_TABLE, 0) == 0 && MapPage(SPARSE_TABLE, 1) == 1
  {
    hide Int32At;
    var b: seq<byte> := SPARSE_TABLE.usageMap;
    assert b[1] == 0 && b[2] == 0 && b[3] == 0 && b[4] == 0;
    assert b[5] == 1 && b[6] == 0 && b[7] == 0 && b[8] == 0;
    SmallInt(b, 1);
    SmallInt(b, 5);
  }

  lemma SparseMapped(p: nat)
    ensures SPARSE_DISK.Ok() && Readable(SPARSE_TABLE)
    ensures Mapped(SPARSE_DISK, SPARSE_TABLE, p) <==> 16352 <= p < 16354
  {
    hide Bit, MapPage, SparsePage;
    SparseOk();
    SparseMapPages();
    SparseBits(p % 16352);
  }

  /** A map of exactly the table's pages and a non-empty table are not enough: this scan misses the table's first page. */
  lemma OverlooksHappens()
    ensures SPARSE_DISK.Ok() && SPARSE_TABLE.Ok() && Covers(SPARSE_DISK, SPARSE_TABLE) && SPARSE_TABLE.numRows > 0
    ensures forall p: nat :: p >= 1 ==> (Mapped(SPARSE_DISK, SPARSE_TABLE, p) <==> Own(SPARSE_DISK, SPARSE_TABLE, p))
    ensures Own(SPARSE_DISK, SPARSE_TABLE, 16352) && Overlooks(SPARSE_DISK, SPARSE_TABLE)
    ensures Walk(SPARSE_DISK, SPARSE_TABLE, 0) != OwnFrom(SPARSE_DISK, SPARSE_TABLE, 1)
  {
    hide Own, Mapped, MapPage, Bit, Walk;
    var d, t := SPARSE_DISK, SPARSE_TABLE;
    SparseMapped(1);
    SparseMapPages();
    forall p: nat ensures Own(d, t, p) <==> 16352 <= p < 16354 { SparseOwn(p); }
    forall p: nat | p >= 1 ensures Mapped(d, t, p) <==> Own(d, t, p) { SparseMapped(p); }
    assert MapPageOk(d, t, 0) && MapPageOk(d, t, 1);
    assert FirstMapped(t, 0) == 1;
    assert Hidden(d, t) < 16353 < |d.pages| && Mapped(d, t, 16353);
    WalkExact(d, t);
  }
}
