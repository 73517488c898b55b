/** The walk over a table's data pages: internal/gomdb/map.go. */
module PageWalk {
  import opened Bytes

  /** A file as whole pages; reading at or past the end fails. */
  datatype Disk = Disk(pages: seq<seq<byte>>, pgSize: nat) {
    predicate Ok() {
      && (pgSize == 2048 || pgSize == 4096) && |pages| < 0x1_0000_0000
      && forall p :: 0 <= p < |pages| ==> |pages[p]| == pgSize
    }
  }

  /** What the walk needs of a table; the usage map is one row of a page, so at most a page long. */
  datatype Table = Table(tablePg: int, usageMap: seq<byte>, mapSz: int, numRows: int) {
    predicate Ok() { |usageMap| <= 4096 }
  }

  const PAGE_DATA: byte := 1

  /** A little-endian signed 32-bit integer. */
  function Int32At(b: seq<byte>, off: nat): (v: int)
    requires off + 4 <= |b|
    ensures -0x8000_0000 <= v < 0x8000_0000
  {
    var u := b[off] as int + 0x100 * b[off + 1] as int + 0x1_0000 * b[off + 2] as int + 0x100_0000 * b[off + 3] as int;
    if u < 0x8000_0000 then u else u - 0x1_0000_0000
  }

  /** Two's complement: the only number of 32 bits with these four bytes, low byte first. */
  lemma Int32Exact(b: seq<byte>, off: nat)
    requires off + 4 <= |b|
    ensures var u := b[off] as int + 0x100 * b[off + 1] as int + 0x1_0000 * b[off + 2] as int + 0x100_0000 * b[off + 3] as int;
      Int32At(b, off) == u || Int32At(b, off) + 0x1_0000_0000 == u
    ensures -0x8000_0000 <= Int32At(b, off) < 0x8000_0000
  {
  }

  /** Conversion to a 32-bit page number. */
  function U32(x: int): nat { x % 0x1_0000_0000 }

  /** A negative page number stands 2^32 higher, beyond any file of fewer than 2^31 pages. */
  lemma U32Exact(x: int)
    requires -0x8000_0000 <= x < 0x1_0000_0000
    ensures U32(x) == if x < 0 then x + 0x1_0000_0000 else x
  {
  }

  predicate Bit(b: seq<byte>, i: nat)
    requires i < 8 * |b|
  {
    b[i / 8] & ((1 as bv8) << (i % 8)) != 0
  }

  /** A data page of the table. */
  predicate Own(d: Disk, t: Table, p: nat)
    requires d.Ok()
  {
    p < |d.pages| && d.pages[p][0] == PAGE_DATA && Int32At(d.pages[p], 4) == t.tablePg
  }

  // --- the usage map ---

  /** Page numbers one page of an extended map stands for. */
  function BitsPerMapPage(d: Disk): (n: int)
    requires d.Ok()
    ensures n == 16352 || n == 32736
  {
    (d.pgSize - 4) * 8
  }

  predicate Readable(t: Table) {
    5 <= t.mapSz <= |t.usageMap| && (t.usageMap[0] == 0 || t.usageMap[0] == 1)
  }

  function MapPages(t: Table): int { (t.mapSz - 1) / 4 }

  /** The map page that holds the bits of the `ind`-th stretch of pages; 0 if there is none. */
  function MapPage(t: Table, ind: nat): int
    requires Readable(t) && ind < MapPages(t)
  {
    Int32At(t.usageMap, ind * 4 + 1)
  }

  predicate MapPageOk(d: Disk, t: Table, ind: nat)
    requires Readable(t) && ind < MapPages(t)
  {
    U32(MapPage(t, ind)) < |d.pages|
  }

  predicate Bit1(d: Disk, t: Table, ind: nat, i: nat)
    requires d.Ok() && Readable(t) && ind < MapPages(t) && i < BitsPerMapPage(d)
  {
    MapPage(t, ind) != 0 && MapPageOk(d, t, ind) && Bit(d.pages[U32(MapPage(t, ind))][4..], i)
  }

  /** The map says that page `p` belongs to the table. */
  predicate Mapped(d: Disk, t: Table, p: nat)
    requires d.Ok() && Readable(t)
  {
    if t.usageMap[0] == 0 then
      var i := p - Int32At(t.usageMap, 1);
      0 <= i < (t.mapSz - 5) * 8 && Bit(t.usageMap[5..t.mapSz], i)
    else
      p / BitsPerMapPage(d) < MapPages(t) && Bit1(d, t, p / BitsPerMapPage(d), p % BitsPerMapPage(d))
  }

  // --- mapFindNext ---

  function Scan0(t: Table, i: nat): (r: int)
    requires Readable(t)
    ensures r == 0 || r >= Int32At(t.usageMap, 1) + i
    decreases (t.mapSz - 5) * 8 - i
  {
    if i >= (t.mapSz - 5) * 8 then 0
    else if Bit(t.usageMap[5..t.mapSz], i) then Int32At(t.usageMap, 1) + i
    else Scan0(t, i + 1)
  }

  /** A missing map page leaves the position `i` inside the stretch unchanged. */
  function Scan1(d: Disk, t: Table, ind: nat, i: nat): (r: int)
    requires d.Ok() && Readable(t) && i <= BitsPerMapPage(d)
    ensures r <= 0 || r >= ind * BitsPerMapPage(d) + i
    ensures r < 0 ==> r == -1
    decreases MapPages(t) - ind, BitsPerMapPage(d) - i
  {
    if ind >= MapPages(t) then 0
    else if MapPage(t, ind) == 0 then Scan1(d, t, ind + 1, i)
    else if !MapPageOk(d, t, ind) then -1
    else if i >= BitsPerMapPage(d) then Scan1(d, t, ind + 1, 0)
    else if Bit1(d, t, ind, i) then ind * BitsPerMapPage(d) + i
    else Scan1(d, t, ind, i + 1)
  }

  function From0(t: Table, start: nat): nat
    requires Readable(t)
  {
    if start >= Int32At(t.usageMap, 1) then start - Int32At(t.usageMap, 1) + 1 else 0
  }

  /** The next page after `start` the map offers; 0 if there is none, -1 if the map is unusable. */
  function MapNext(d: Disk, t: Table, start: nat): (r: int)
    requires d.Ok()
    ensures r <= 0 || start < r
  {
    if !Readable(t) then -1
    else if t.usageMap[0] == 0 then Scan0(t, From0(t, start))
    else
      Position(start + 1, BitsPerMapPage(d));
      Scan1(d, t, (start + 1) / BitsPerMapPage(d), (start + 1) % BitsPerMapPage(d))
  }

  lemma Position(p: nat, n: int)
    requires n == 16352 || n == 32736
    ensures 0 <= p % n < n && p / n >= 0 && p / n * n + p % n == p
  {
  }

  lemma Locate(ind: nat, i: nat, n: int)
    requires (n == 16352 || n == 32736) && i < n
    ensures (ind * n + i) / n == ind && (ind * n + i) % n == i
  {
  }

  method MapFindNext0(t: Table, startPg: nat) returns (r: int)
    requires |t.usageMap| > 0 && t.usageMap[0] == 0
    ensures r == if Readable(t) then Scan0(t, From0(t, startPg)) else -1
  {
    hide Bit, Int32At;
    if t.mapSz < 5 || t.mapSz > |t.usageMap| {
      return -1;
    }
    var pgnum := Int32At(t.usageMap, 1);
    var bitmap := t.usageMap[5..t.mapSz];
    var bitLen := (t.mapSz - 5) * 8;
    var i := 0;
    if startPg >= pgnum {
      i := startPg - pgnum + 1;
    }
    while i < bitLen
      invariant i >= 0 && Scan0(t, From0(t, startPg)) == Scan0(t, i)
    {
      if Bit(bitmap, i) {
        return pgnum + i;
      }
      i := i + 1;
    }
    return 0;
  }

  method MapFindNext1(d: Disk, t: Table, startPg: nat) returns (r: int)
    requires d.Ok() && |t.usageMap| > 0 && t.usageMap[0] == 1
    ensures r == MapNext(d, t, startPg)
  {
    hide Bit, U32, Int32At;
    if t.mapSz < 5 || t.mapSz > |t.usageMap| {
      return -1;
    }
    var bitLen := (d.pgSize - 4) * 8;
    var maxMapPgs := (t.mapSz - 1) / 4;
    var mapInd := (startPg + 1) / bitLen;
    var offset := (startPg + 1) % bitLen;
    Position(startPg + 1, bitLen);
    ghost var goal := Scan1(d, t, mapInd, offset);
    while mapInd < maxMapPgs
      invariant 0 <= offset < bitLen && 0 <= mapInd
      invariant goal == Scan1(d, t, mapInd, offset)
      decreases maxMapPgs - mapInd
    {
      var mapPg := Int32At(t.usageMap, mapInd * 4 + 1);
      if mapPg == 0 {
        mapInd := mapInd + 1;
        continue;
      }
      if U32(mapPg) >= |d.pages| {
        return -1;
      }
      var bitmap := d.pages[U32(mapPg)][4..];
      var i := offset;
      while i < bitLen
        invariant offset <= i <= bitLen
        invariant goal == Scan1(d, t, mapInd, i)
      {
        if Bit(bitmap, i) {
          return mapInd * bitLen + i;
        }
        i := i + 1;
      }
      offset := 0;
      mapInd := mapInd + 1;
    }
    return 0;
  }

  method MapFindNext(d: Disk, t: Table, startPg: nat) returns (r: int)
    requires d.Ok()
    ensures r == MapNext(d, t, startPg)
  {
    if t.mapSz < 1 || t.mapSz > |t.usageMap| {
      return -1;
    }
    if t.usageMap[0] == 0 {
      r := MapFindNext0(t, startPg);
    } else if t.usageMap[0] == 1 {
      r := MapFindNext1(d, t, startPg);
    } else {
      r := -1;
    }
  }

  // --- ReadNextDpg ---

  /** A page of the table, or the end with the cursor where it came to rest. */
  datatype Found = Page(p: nat) | NoMore(cursor: nat)

  function Brute(d: Disk, t: Table, p: nat): (f: Found)
    requires d.Ok()
    ensures f.Page? ==> p <= f.p && Own(d, t, f.p)
    decreases |d.pages| - p
  {
    if p >= |d.pages| then NoMore(p) else if Own(d, t, p) then Page(p) else Brute(d, t, p + 1)
  }

  lemma BruteStep(d: Disk, t: Table, p: nat)
    requires d.Ok()
    ensures Brute(d, t, p) == if p >= |d.pages| then NoMore(p) else if Own(d, t, p) then Page(p) else Brute(d, t, p + 1)
  {
  }

  function NextDpg(d: Disk, t: Table, cur: nat, broken: bool): (f: Found)
    requires d.Ok()
    ensures f.Page? ==> cur < f.p && Own(d, t, f.p)
    decreases |d.pages| - cur
  {
    var next := MapNext(d, t, cur);
    if next == 0 && !broken && !(cur == 0 && t.numRows > 0) then NoMore(cur)
    else if next <= 0 || next >= |d.pages| then Brute(d, t, cur + 1)
    else if Own(d, t, next) then Page(next)
    else NextDpg(d, t, next, true)
  }

  /** `table.CurPhysPg` and the page buffer of the handle. */
  class Cursor {
    const disk: Disk
    const table: Table
    var curPhysPg: nat
    var pgBuf: seq<byte>

    constructor (disk: Disk, table: Table)
      ensures this.disk == disk && this.table == table && curPhysPg == 0
    {
      this.disk, this.table, curPhysPg, pgBuf := disk, table, 0, [];
    }

    method ReadPage(p: nat) returns (ok: bool)
      requires disk.Ok()
      modifies this`pgBuf
      ensures ok <==> p < |disk.pages|
      ensures pgBuf == if ok then disk.pages[p] else old(pgBuf)
    {
      ok := p < |disk.pages|;
      if ok { pgBuf := disk.pages[p]; }
    }

    /** Moves to the table's next page and loads it. */
    method ReadNextDpg() returns (ok: bool)
      requires disk.Ok() && table.Ok() && curPhysPg < 0xFFFF_FFFF
      modifies this
      ensures ok <==> NextDpg(disk, table, old(curPhysPg), false).Page?
      ensures NextDpg(disk, table, old(curPhysPg), false) == if ok then Page(curPhysPg) else NoMore(curPhysPg)
      ensures ok ==> curPhysPg < |disk.pages| && pgBuf == disk.pages[curPhysPg]
    {
      hide MapNext, U32, Brute, Int32At;
      var broken := false;
      ghost var goal := NextDpg(disk, table, curPhysPg, false);
      while true
        invariant curPhysPg < 0xFFFF_FFFF && NextDpg(disk, table, curPhysPg, broken) == goal
        decreases |disk.pages| - curPhysPg
      {
        var nextPg := MapFindNext(disk, table, curPhysPg);
        if nextPg == 0 || nextPg == curPhysPg {
          if !broken {
            if nextPg == 0 && curPhysPg == 0 && table.numRows > 0 {
              broken := true;
              break;
            }
            return false;
          }
          break;
        }
        if nextPg < 0 {
          broken := true;
          break;
        }
        PageNumberFits(disk, table, curPhysPg);
        var readable := ReadPage(U32(nextPg));
        if !readable {
          broken := true;
          break;
        }
        curPhysPg := U32(nextPg);
        if pgBuf[0] == PAGE_DATA && Int32At(pgBuf, 4) == table.tablePg {
          return true;
        }
        broken := true;
      }
      assert goal == Brute(disk, table, curPhysPg + 1);
      while true
        invariant curPhysPg < 0xFFFF_FFFF && goal == Brute(disk, table, curPhysPg + 1)
        decreases |disk.pages| - curPhysPg
      {
        curPhysPg := curPhysPg + 1;
        BruteStep(disk, table, curPhysPg);
        var readable := ReadPage(curPhysPg);
        if !readable {
          return false;
        }
        if pgBuf[0] == PAGE_DATA && Int32At(pgBuf, 4) == table.tablePg {
          return true;
        }
      }
    }
  }

  /** Page numbers from a usage map of at most a page fit 32 bits. */
  lemma PageNumberFits(d: Disk, t: Table, start: nat)
    requires d.Ok() && t.Ok()
    ensures MapNext(d, t, start) > 0 ==> U32(MapNext(d, t, start)) == MapNext(d, t, start)
  {
    hide Scan0, Scan1, Int32At;
    if Readable(t) {
      if t.usageMap[0] == 0 {
        Scan0Below(t, From0(t, start));
      } else {
        Position(start + 1, BitsPerMapPage(d));
        Scan1Below(d, t, (start + 1) / BitsPerMapPage(d), (start + 1) % BitsPerMapPage(d));
      }
    }
  }

  lemma {:induction false} Scan0Below(t: Table, i: nat)
    requires Readable(t)
    ensures Scan0(t, i) != 0 ==> Scan0(t, i) < Int32At(t.usageMap, 1) + (t.mapSz - 5) * 8
    decreases (t.mapSz - 5) * 8 - i
  {
    if i < (t.mapSz - 5) * 8 { Scan0Below(t, i + 1); }
  }

  lemma {:induction false} Scan1Below(d: Disk, t: Table, ind: nat, i: nat)
    requires d.Ok() && t.Ok() && Readable(t) && i <= BitsPerMapPage(d)
    ensures Scan1(d, t, ind, i) < 1024 * 32736
    decreases MapPages(t) - ind, BitsPerMapPage(d) - i
  {
    hide MapPage, Bit1;
    if ind < MapPages(t) {
      if MapPage(t, ind) == 0 {
        Scan1Below(d, t, ind + 1, i);
      } else if i >= BitsPerMapPage(d) {
        Scan1Below(d, t, ind + 1, 0);
      } else if MapPageOk(d, t, ind) {
        if Bit1(d, t, ind, i) {
          assert ind <= 1022;
        } else {
          Scan1Below(d, t, ind, i + 1);
        }
      }
    }
  }

  // --- whole scans ---

  /** The pages successive calls deliver. */
  function Walk(d: Disk, t: Table, cur: nat): seq<nat>
    requires d.Ok()
    decreases |d.pages| - cur
  {
    match NextDpg(d, t, cur, false)
    case Page(p) => [p] + Walk(d, t, p)
    case NoMore(_) => []
  }

  /** Whatever the map holds, a scan ends, meets no page twice, and meets only pages of the table. */
  lemma {:induction false} WalkAscends(d: Disk, t: Table, cur: nat)
    requires d.Ok()
    ensures forall i :: 0 <= i < |Walk(d, t, cur)| ==> cur < Walk(d, t, cur)[i] && Own(d, t, Walk(d, t, cur)[i])
    ensures forall i, j :: 0 <= i < j < |Walk(d, t, cur)| ==> Walk(d, t, cur)[i] < Walk(d, t, cur)[j]
    decreases |d.pages| - cur
  {
    hide NextDpg;
    match NextDpg(d, t, cur, false)
    case Page(p) => WalkAscends(d, t, p);
    case NoMore(_) =>
  }

  /** The table's data pages from `p` on. */
  function OwnFrom(d: Disk, t: Table, p: nat): seq<nat>
    requires d.Ok()
    decreases |d.pages| - p
  {
    if p >= |d.pages| then [] else if Own(d, t, p) then [p] + OwnFrom(d, t, p + 1) else OwnFrom(d, t, p + 1)
  }

  lemma {:induction false} NoOwn(d: Disk, t: Table, p: nat, q: nat)
    requires d.Ok() && p <= q && forall k: nat :: p <= k < q ==> !Own(d, t, k)
    ensures OwnFrom(d, t, p) == OwnFrom(d, t, q)
    decreases q - p
  {
    hide Own;
    if p < q { NoOwn(d, t, p + 1, q); }
  }

  lemma NoOwnAtAll(d: Disk, t: Table, p: nat)
    requires d.Ok() && forall k: nat :: p <= k ==> !Own(d, t, k)
    ensures OwnFrom(d, t, p) == []
  {
    NoOwn(d, t, p, if p < |d.pages| then |d.pages| else p);
  }

  lemma {:induction false} BruteFindsFirst(d: Disk, t: Table, p: nat)
    requires d.Ok()
    ensures Brute(d, t, p).Page? ==> OwnFrom(d, t, p) == [Brute(d, t, p).p] + OwnFrom(d, t, Brute(d, t, p).p + 1)
    ensures Brute(d, t, p).NoMore? ==> OwnFrom(d, t, p) == []
    decreases |d.pages| - p
  {
    hide Own;
    if p < |d.pages| && !Own(d, t, p) { BruteFindsFirst(d, t, p + 1); }
  }

  /** The map can be read to its end. */
  ghost predicate Sound(d: Disk, t: Table)
    requires d.Ok()
  {
    && Readable(t)
    && (t.usageMap[0] == 1 ==> forall ind: nat :: ind < MapPages(t) ==> MapPage(t, ind) == 0 || MapPageOk(d, t, ind))
  }

  /** A map that has every data page of the table; it may also have pages that are none. */
  ghost predicate Covers(d: Disk, t: Table)
    requires d.Ok()
  {
    Sound(d, t) && forall p: nat :: p >= 1 && Own(d, t, p) ==> Mapped(d, t, p)
  }

  /** `r` is the first page from `p` on that the map has, or 0 if there is none. */
  ghost predicate FirstMappedFrom(d: Disk, t: Table, p: nat, r: int)
    requires d.Ok() && Readable(t)
  {
    if r == 0 then forall k: nat :: p <= k ==> !Mapped(d, t, k)
    else r >= p && r > 0 && Mapped(d, t, r) && forall k: nat :: p <= k < r ==> !Mapped(d, t, k)
  }

  lemma {:induction false} Scan0Exact(d: Disk, t: Table, i: nat)
    requires d.Ok() && Readable(t) && t.usageMap[0] == 0 && Int32At(t.usageMap, 1) + i >= 1
    ensures FirstMappedFrom(d, t, Int32At(t.usageMap, 1) + i, Scan0(t, i))
    decreases (t.mapSz - 5) * 8 - i
  {
    hide Bit, Int32At;
    var p := Int32At(t.usageMap, 1) + i;
    if i < (t.mapSz - 5) * 8 && !Mapped(d, t, p) {
      Scan0Exact(d, t, i + 1);
    }
  }

  lemma Stretch(d: Disk, t: Table, ind: nat, p: nat)
    requires d.Ok()
    ensures p >= ind * BitsPerMapPage(d) ==> p / BitsPerMapPage(d) >= ind
    ensures ind * BitsPerMapPage(d) <= p < (ind + 1) * BitsPerMapPage(d) ==> p / BitsPerMapPage(d) == ind
  {
  }

  /** A stretch the map has no page for holds no mapped page. */
  lemma EmptyStretch(d: Disk, t: Table, ind: nat)
    requires d.Ok() && Readable(t) && t.usageMap[0] == 1 && (ind >= MapPages(t) || MapPage(t, ind) == 0)
    ensures forall k: nat :: ind * BitsPerMapPage(d) <= k < (ind + 1) * BitsPerMapPage(d) ==> !Mapped(d, t, k)
    ensures ind >= MapPages(t) ==> forall k: nat :: ind * BitsPerMapPage(d) <= k ==> !Mapped(d, t, k)
  {
    hide MapPage, MapPageOk, Bit;
    forall k: nat | ind * BitsPerMapPage(d) <= k && (ind >= MapPages(t) || k < (ind + 1) * BitsPerMapPage(d))
      ensures !Mapped(d, t, k)
    {
      Stretch(d, t, ind, k);
    }
  }

  lemma {:induction false} Scan1Exact(d: Disk, t: Table, ind: nat, i: nat)
    requires d.Ok() && Sound(d, t) && t.usageMap[0] == 1 && i <= BitsPerMapPage(d)
    requires ind < MapPages(t) && MapPage(t, ind) == 0 ==> i == 0
    ensures ind * BitsPerMapPage(d) + i >= 1 ==>
      FirstMappedFrom(d, t, ind * BitsPerMapPage(d) + i, Scan1(d, t, ind, i))
    decreases MapPages(t) - ind, BitsPerMapPage(d) - i
  {
    hide MapPage, MapPageOk, Bit1, Mapped;
    var n := BitsPerMapPage(d);
    var p := ind * n + i;
    if ind >= MapPages(t) {
      EmptyStretch(d, t, ind);
    } else if MapPage(t, ind) == 0 {
      Scan1Exact(d, t, ind + 1, 0);
      EmptyStretch(d, t, ind);
    } else if i >= n {
      Scan1Exact(d, t, ind + 1, 0);
    } else {
      assert MapPageOk(d, t, ind);
      Locate(ind, i, n);
      BitIsMapped(d, t, p, ind, i);
      Scan1Exact(d, t, ind, i + 1);
    }
  }

  lemma BitIsMapped(d: Disk, t: Table, p: nat, ind: nat, i: nat)
    requires d.Ok() && Readable(t) && t.usageMap[0] == 1 && ind < MapPages(t) && i < BitsPerMapPage(d)
    requires p / BitsPerMapPage(d) == ind && p % BitsPerMapPage(d) == i
    ensures Mapped(d, t, p) <==> Bit1(d, t, ind, i)
  {
  }

  /** After `cur` the map is searched from a position that skips nothing. */
  predicate Steady(d: Disk, t: Table, cur: nat)
    requires d.Ok() && Readable(t)
  {
    var ind := (cur + 1) / BitsPerMapPage(d);
    t.usageMap[0] == 0 || (ind < MapPages(t) && MapPage(t, ind) == 0 ==> (cur + 1) % BitsPerMapPage(d) == 0)
  }

  /** From a steady position the search finds the first page the map has. */
  lemma SteadyNext(d: Disk, t: Table, cur: nat)
    requires d.Ok() && Sound(d, t) && Steady(d, t, cur)
    ensures FirstMappedFrom(d, t, cur + 1, MapNext(d, t, cur))
  {
    hide MapPage, MapPageOk, Bit1, Int32At, Scan0, Scan1, Bit;
    if t.usageMap[0] == 0 {
      Scan0Exact(d, t, From0(t, cur));
    } else {
      Position(cur + 1, BitsPerMapPage(d));
      Scan1Exact(d, t, (cur + 1) / BitsPerMapPage(d), (cur + 1) % BitsPerMapPage(d));
    }
  }

  /** A page the map has is a steady place to go on from. */
  lemma MappedIsSteady(d: Disk, t: Table, p: nat)
    requires d.Ok() && Readable(t) && Mapped(d, t, p)
    ensures Steady(d, t, p)
  {
    hide MapPageOk, Bit;
    var n := BitsPerMapPage(d);
    assert (p + 1) % n == 0 || (p + 1) / n == p / n;
  }

  lemma OwnHere(d: Disk, t: Table, p: nat)
    requires d.Ok() && Own(d, t, p)
    ensures OwnFrom(d, t, p) == [p] + OwnFrom(d, t, p + 1)
  {
  }

  // --- maps with too many pages, and with too few ---

  /** The walk does not go past a data page that the map has, whatever else the map has. */
  lemma {:induction false} NotPast(d: Disk, t: Table, cur: nat, broken: bool, p: nat)
    requires d.Ok() && Sound(d, t) && Steady(d, t, cur) && cur < p && Own(d, t, p) && Mapped(d, t, p)
    ensures NextDpg(d, t, cur, broken).Page? && NextDpg(d, t, cur, broken).p <= p
    decreases |d.pages| - cur
  {
    hide Mapped, MapNext, Steady;
    SteadyNext(d, t, cur);
    var next := MapNext(d, t, cur);
    if !Own(d, t, next) {
      MappedIsSteady(d, t, next);
      NotPast(d, t, next, true, p);
    }
  }

  /** An inline map, however wrong: every data page of the table that it has is met. */
  lemma {:induction false} WalkMeets(d: Disk, t: Table, cur: nat, p: nat)
    requires d.Ok() && Readable(t) && t.usageMap[0] == 0 && cur < p && Own(d, t, p) && Mapped(d, t, p)
    ensures p in Walk(d, t, cur)
    decreases |d.pages| - cur
  {
    hide Mapped, NextDpg;
    NotPast(d, t, cur, false, p);
    var q := NextDpg(d, t, cur, false).p;
    if q < p { WalkMeets(d, t, q, p); }
  }

  /** With a covering map a call from a steady position finds the table's next page, or the end. */
  lemma SteadyStep(d: Disk, t: Table, cur: nat, broken: bool)
    requires d.Ok() && Covers(d, t) && Steady(d, t, cur)
    ensures var next := NextDpg(d, t, cur, broken);
      if next.Page? then OwnFrom(d, t, cur + 1) == [next.p] + OwnFrom(d, t, next.p + 1) && Steady(d, t, next.p)
      else OwnFrom(d, t, cur + 1) == []
  {
    hide Mapped, Steady, NextDpg, MapPage, OwnFrom, Sound;
    var next := NextDpg(d, t, cur, broken);
    if forall k: nat :: cur < k ==> !Own(d, t, k) {
      NoOwnAtAll(d, t, cur + 1);
    } else {
      var k: nat :| cur < k && Own(d, t, k);
      NotPast(d, t, cur, broken, k);
      forall j: nat | cur + 1 <= j < next.p ensures !Own(d, t, j) {
        if Own(d, t, j) { NotPast(d, t, cur, broken, j); }
      }
      NoOwn(d, t, cur + 1, next.p);
      OwnHere(d, t, next.p);
      OwnSteady(d, t, next.p);
    }
  }

  lemma OwnSteady(d: Disk, t: Table, p: nat)
    requires d.Ok() && Covers(d, t) && p >= 1 && Own(d, t, p)
    ensures Steady(d, t, p)
  {
    hide Mapped, Steady;
    MappedIsSteady(d, t, p);
  }

  /** With a map that covers the table and a steady start a scan meets exactly the table's pages, in order. */
  lemma {:induction false} WalkSteady(d: Disk, t: Table, cur: nat)
    requires d.Ok() && Covers(d, t) && Steady(d, t, cur)
    ensures Walk(d, t, cur) == OwnFrom(d, t, cur + 1)
    decreases |d.pages| - cur
  {
    hide Covers, Steady, NextDpg, OwnFrom;
    SteadyStep(d, t, cur, false);
    match NextDpg(d, t, cur, false)
    case Page(p) => WalkSteady(d, t, p);
    case NoMore(_) =>
  }

  /** With a map that cannot be used at all the fallback meets exactly the table's pages. */
  lemma {:induction false} WalkBrute(d: Disk, t: Table, cur: nat)
    requires d.Ok() && forall p: nat :: MapNext(d, t, p) < 0 || MapNext(d, t, p) >= |d.pages|
    ensures Walk(d, t, cur) == OwnFrom(d, t, cur + 1)
    decreases |d.pages| - cur
  {
    hide MapNext, OwnFrom, Brute;
    BruteFindsFirst(d, t, cur + 1);
    assert MapNext(d, t, cur) < 0 || MapNext(d, t, cur) >= |d.pages|;
    var next := NextDpg(d, t, cur, false);
    if next.Page? { WalkBrute(d, t, next.p); }
  }

  /** With an empty map the fallback runs once: a scan stops after the table's first page, or before it if the header counts no rows. */
  lemma WalkEmptyMap(d: Disk, t: Table)
    requires d.Ok() && forall p: nat :: MapNext(d, t, p) == 0
    ensures var own := OwnFrom(d, t, 1);
      Walk(d, t, 0) == if t.numRows > 0 && own != [] then [own[0]] else []
  {
    hide MapNext, OwnFrom, Brute;
    BruteFindsFirst(d, t, 1);
    assert MapNext(d, t, 0) == 0;
    match NextDpg(d, t, 0, false)
    case Page(p) =>
      assert MapNext(d, t, p) == 0;
      assert Walk(d, t, p) == [];
    case NoMore(_) =>
  }

  // --- exactly when a covering map gives every page ---

  /** The first stretch of pages at or after `ind` that the map has a page for. */
  function FirstMapped(t: Table, ind: nat): (k: nat)
    requires Readable(t)
    ensures k >= ind && (k < MapPages(t) ==> MapPage(t, k) != 0)
    ensures forall j: nat :: ind <= j < k && j < MapPages(t) ==> MapPage(t, j) == 0
    decreases MapPages(t) - ind
  {
    if ind >= MapPages(t) || MapPage(t, ind) != 0 then ind else FirstMapped(t, ind + 1)
  }

  /** First page of the first stretch an extended map covers, when it does not cover the first stretch of the file. */
  function Hidden(d: Disk, t: Table): (p: nat)
    requires d.Ok() && Readable(t)
  {
    FirstMapped(t, 0) * BitsPerMapPage(d)
  }

  /** The page the search starts behind belongs to the table, and no fallback will find it. */
  ghost predicate Overlooks(d: Disk, t: Table)
    requires d.Ok() && Readable(t)
  {
    && t.usageMap[0] == 1 && MapPage(t, 0) == 0 && FirstMapped(t, 0) < MapPages(t)
    && Own(d, t, Hidden(d, t))
    && if exists k: nat :: Hidden(d, t) < k && Mapped(d, t, k)
       then exists k: nat :: Hidden(d, t) < k < |d.pages| && Mapped(d, t, k)
       else t.numRows <= 0
  }

  lemma {:induction false} ScanSkips(d: Disk, t: Table, ind: nat, i: nat)
    requires d.Ok() && Readable(t) && i < BitsPerMapPage(d)
    ensures Scan1(d, t, ind, i) == Scan1(d, t, FirstMapped(t, ind), i)
    decreases MapPages(t) - ind
  {
    hide MapPage, MapPageOk, Bit1;
    if ind < MapPages(t) && MapPage(t, ind) == 0 { ScanSkips(d, t, ind + 1, i); }
  }

  lemma {:induction false} EmptyStretches(d: Disk, t: Table, ind: nat)
    requires d.Ok() && Readable(t) && t.usageMap[0] == 1 && ind <= FirstMapped(t, 0)
    ensures forall k: nat :: k < ind * BitsPerMapPage(d) ==> !Mapped(d, t, k)
    decreases ind
  {
    hide MapPage, MapPageOk, Bit1, Mapped;
    if ind > 0 {
      EmptyStretches(d, t, ind - 1);
      EmptyStretch(d, t, ind - 1);
    }
  }

  /** A scan from rewind over a covering map meets exactly the table's pages, in order, unless it overlooks the first. */
  lemma WalkExact(d: Disk, t: Table)
    requires d.Ok() && Covers(d, t)
    ensures Walk(d, t, 0) == OwnFrom(d, t, 1) <==> !Overlooks(d, t)
  {
    hide MapPage, MapPageOk, Bit1, Mapped, Scan1, OwnFrom, Brute, MapNext;
    FirstStretch(d, t);
    if Steady(d, t, 0) {
      WalkSteady(d, t, 0);
    } else {
      WalkUnsteady(d, t);
    }
  }

  lemma FirstStretch(d: Disk, t: Table)
    requires d.Ok() && Readable(t)
    ensures Steady(d, t, 0) <==> t.usageMap[0] == 0 || MapPages(t) == 0 || MapPage(t, 0) != 0
  {
    hide MapPage;
    assert 1 / BitsPerMapPage(d) == 0 && 1 % BitsPerMapPage(d) == 1;
  }

  /** From rewind the search starts behind the hidden page, before which the map has nothing. */
  lemma UnsteadyNext(d: Disk, t: Table)
    requires d.Ok() && Sound(d, t) && t.usageMap[0] == 1 && MapPage(t, 0) == 0
    ensures FirstMappedFrom(d, t, Hidden(d, t) + 1, MapNext(d, t, 0))
    ensures forall k: nat :: k < Hidden(d, t) ==> !Mapped(d, t, k)
    ensures FirstMapped(t, 0) >= MapPages(t) ==> forall k: nat :: !Mapped(d, t, k)
  {
    hide MapPage, MapPageOk, Bit1, Mapped, Scan1;
    var k := FirstMapped(t, 0);
    assert 1 / BitsPerMapPage(d) == 0 && 1 % BitsPerMapPage(d) == 1;
    ScanSkips(d, t, 0, 1);
    EmptyStretches(d, t, k);
    Scan1Exact(d, t, k, 1);
    if k >= MapPages(t) {
      EmptyStretch(d, t, k);
    }
  }

  lemma WalkUnsteady(d: Disk, t: Table)
    requires d.Ok() && Covers(d, t) && t.usageMap[0] == 1 && MapPage(t, 0) == 0
    ensures Walk(d, t, 0) == OwnFrom(d, t, 1) <==> !Overlooks(d, t)
  {
    hide MapPage, MapPageOk, Mapped, MapNext, OwnFrom, Steady;
    UnsteadyNext(d, t);
    var next, h := MapNext(d, t, 0), Hidden(d, t);
    if 0 < next < |d.pages| {
      FoundBehind(d, t, next, h);
    } else if next == 0 && t.numRows <= 0 {
      assert Walk(d, t, 0) == [];
      NoneBefore(d, t, h);
      NoOwnAfter(d, t, h);
    } else {
      FoundByForce(d, t);
    }
  }

  /** Nothing of the table lies before the hidden page, which may be its own. */
  lemma NoneBefore(d: Disk, t: Table, h: nat)
    requires d.Ok() && Covers(d, t) && h >= 1 && forall k: nat :: k < h ==> !Mapped(d, t, k)
    ensures OwnFrom(d, t, 1) == OwnFrom(d, t, h)
    ensures OwnFrom(d, t, h) == if Own(d, t, h) then [h] + OwnFrom(d, t, h + 1) else OwnFrom(d, t, h + 1)
  {
    hide Mapped;
    NoOwn(d, t, 1, h);
    if Own(d, t, h) { OwnHere(d, t, h); } else { NoOwn(d, t, h, h + 1); }
  }

  lemma NoOwnAfter(d: Disk, t: Table, h: nat)
    requires d.Ok() && Covers(d, t) && forall k: nat :: h < k ==> !Mapped(d, t, k)
    ensures OwnFrom(d, t, h + 1) == []
  {
    hide Mapped;
    NoOwnAtAll(d, t, h + 1);
  }

  /** The search finds a page behind the hidden one, so the scan gives what comes after that. */
  lemma FoundBehind(d: Disk, t: Table, next: nat, h: nat)
    requires d.Ok() && Covers(d, t) && h >= 1 && next == MapNext(d, t, 0) && h < next < |d.pages|
    requires FirstMappedFrom(d, t, h + 1, next) && forall k: nat :: k < h ==> !Mapped(d, t, k)
    ensures Walk(d, t, 0) == OwnFrom(d, t, h + 1)
    ensures OwnFrom(d, t, 1) == OwnFrom(d, t, h + 1) <==> !Own(d, t, h)
  {
    hide MapNext, Mapped, OwnFrom, Steady;
    NoneBefore(d, t, h);
    NoOwn(d, t, h + 1, next);
    MappedIsSteady(d, t, next);
    if Own(d, t, next) {
      OwnHere(d, t, next);
      WalkSteady(d, t, next);
    } else {
      NoOwn(d, t, next, next + 1);
      SteadyStep(d, t, next, true);
      var r := NextDpg(d, t, next, true);
      if r.Page? { WalkSteady(d, t, r.p); }
    }
  }

  /** The fallback runs and gives everything. */
  lemma FoundByForce(d: Disk, t: Table)
    requires d.Ok() && Covers(d, t)
    requires var next := MapNext(d, t, 0); next < 0 || next >= |d.pages| || (next == 0 && t.numRows > 0)
    ensures Walk(d, t, 0) == OwnFrom(d, t, 1)
  {
    hide MapNext, Mapped, OwnFrom, Steady, Sound, Brute;
    BruteFindsFirst(d, t, 1);
    var r := Brute(d, t, 1);
    if r.Page? {
      OwnSteady(d, t, r.p);
      WalkSteady(d, t, r.p);
    }
  }
}
