/** Multi-page memos: decoding chunk by chunk (internal/gomdb/encoding.go, data.go) and where it may cut. */
module MemoChunks {
  import opened Bytes
  import opened Utf
  import opened TextCodec

  // --- concatenation of compressed text ---

  /** The byte of an unfinished uncompressed pair. */
  function Left(src: seq<byte>, compress: bool): (r: seq<byte>)
    ensures |r| <= 1 && (r != [] ==> r[0] != 0 && !ModeAfter(src, compress))
  {
    if src == [] then []
    else if src[0] == 0 then Left(src[1..], !compress)
    else if compress then Left(src[1..], true)
    else if |src| > 1 then Left(src[2..], false)
    else src
  }

  lemma OneStep(a: seq<byte>, c: bool)
    requires a != []
    ensures a[0] == 0 ==> Decompress(a, c) == Decompress(a[1..], !c) && Left(a, c) == Left(a[1..], !c) && ModeAfter(a, c) == ModeAfter(a[1..], !c)
    ensures a[0] != 0 && c ==>
      Decompress(a, c) == [a[0], 0] + Decompress(a[1..], true) && Left(a, c) == Left(a[1..], true) && ModeAfter(a, c) == ModeAfter(a[1..], true)
    ensures a[0] != 0 && !c && |a| > 1 ==>
      Decompress(a, c) == [a[0], a[1]] + Decompress(a[2..], false) && Left(a, c) == Left(a[2..], false) && ModeAfter(a, c) == ModeAfter(a[2..], false)
    ensures a[0] != 0 && !c && |a| == 1 ==> Decompress(a, c) == [] && Left(a, c) == a && !ModeAfter(a, c)
  {
  }

  lemma NoStep(c: bool)
    ensures Decompress([], c) == [] && Left([], c) == [] && ModeAfter([], c) == c
  {
  }

  /** Decompression can be resumed at any byte, given the mode and the unfinished pair, and so can the mode. */
  lemma {:induction false} DecompressAppend(a: seq<byte>, b: seq<byte>, c: bool)
    ensures Decompress(a + b, c) == Decompress(a, c) + Decompress(Left(a, c) + b, ModeAfter(a, c))
    ensures |Decompress(a, c)| % 2 == 0
    ensures ModeAfter(a + b, c) == ModeAfter(Left(a, c) + b, ModeAfter(a, c))
    decreases |a|
  {
    hide Decompress, Left, ModeAfter;
    var ab := a + b;
    if a == [] {
      NoStep(c);
      assert [] + b == b && [] + Decompress(b, c) == Decompress(b, c);
      return;
    }
    OneStep(a, c);
    OneStep(ab, c);
    if a[0] == 0 {
      assert ab[1..] == a[1..] + b;
      DecompressAppend(a[1..], b, !c);
    } else if c {
      assert ab[1..] == a[1..] + b;
      DecompressAppend(a[1..], b, true);
    } else if |a| > 1 {
      assert ab[2..] == a[2..] + b;
      DecompressAppend(a[2..], b, false);
    } else {
      assert [] + Decompress(ab, c) == Decompress(ab, c);
    }
  }

  lemma {:induction false} UnitsEven(a: seq<byte>, b: seq<byte>)
    requires |a| % 2 == 0
    ensures UnitsLE(a + b) == UnitsLE(a) + UnitsLE(b)
  {
    hide UnitLE;
    if a == [] {
      assert a + b == b;
    } else {
      UnitsEven(a[2..], b);
      assert (a + b)[2..] == a[2..] + b;
    }
  }

  lemma UnitsOdd(a: seq<byte>, b: seq<byte>)
    requires |a| % 2 == 1
    ensures UnitsLE(a + b) == UnitsLE(a) + UnitsLE([a[|a| - 1]] + b)
  {
    var even, last := a[..|a| - 1], [a[|a| - 1]];
    UnitsEven(even, last);
    UnitsEven(even, last + b);
    assert a == even + last && a + b == even + (last + b);
    UnitsEnd(last);
  }

  lemma InflateAppend(a: seq<byte>, b: seq<byte>, c: bool)
    ensures Inflate(a + b, c) == Inflate(a, c) + Inflate(Left(a, c) + b, ModeAfter(a, c))
  {
    var d, e := Decompress(a, c), Decompress(Left(a, c) + b, ModeAfter(a, c));
    DecompressAppend(a, b, c);
    UnitsEven(d, e);
  }

  // --- the chunk decoder ---

  /** `appendUnicodeChunk`'s text for one chunk, and the mode it leaves behind. */
  function ChunkText(src: seq<byte>, first: bool, isJet4: bool, compressed: bool): (seq<byte>, bool) {
    if !isJet4 then (Text(Widen(src)), compressed)
    else if first && Prefixed(src) then (Text(Inflate(src[2..], true)), ModeAfter(src[2..], true))
    else if !first && compressed then (Text(Inflate(src, true)), ModeAfter(src, true))
    else (Text(UnitsLE(src)), compressed)
  }

  lemma RestNone(src: seq<byte>, c: bool)
    ensures Rest(0, src, c) == Text(Inflate(src, c)) && RestLE(0, src) == Text(UnitsLE(src))
  {
    PendNone(Inflate(src, c));
    PendNone(UnitsLE(src));
  }

  method AppendUnicodeChunk(dst: seq<byte>, src: seq<byte>, first: bool, isJet4: bool, st: ChunkState) returns (out: seq<byte>)
    requires st.pendingHigh == 0
    modifies st
    ensures out == dst + ChunkText(src, first, isJet4, old(st.compressed)).0
    ensures st.compressed == ChunkText(src, first, isJet4, old(st.compressed)).1 && st.pendingHigh == 0
  {
    hide Text, Inflate, UnitsLE, Widen, ModeAfter, Rest, RestLE;
    if !isJet4 {
      out := AppendLatin1UTF8(dst, src);
      return;
    }
    RestNone(src, true);
    var body := src;
    if first && |src| >= 2 && src[0] == 0xFF && src[1] == 0xFE {
      body := src[2..];
      RestNone(body, true);
      st.compressed := true;
    } else if first {
      out := AppendUTF16LEState(dst, src, st);
      return;
    }
    if st.compressed {
      out := AppendCompressedUnicodeState(dst, body, st);
      return;
    }
    out := AppendUTF16LEState(dst, body, st);
  }

  function Concat(chunks: seq<seq<byte>>): seq<byte> {
    if chunks == [] then [] else Concat(chunks[..|chunks| - 1]) + chunks[|chunks| - 1]
  }

  /** Text and mode after decoding chunk by chunk. */
  function Stream(chunks: seq<seq<byte>>, isJet4: bool): (seq<byte>, bool) {
    if chunks == [] then ([], false)
    else
      var (text, mode) := Stream(chunks[..|chunks| - 1], isJet4);
      var (more, next) := ChunkText(chunks[|chunks| - 1], |chunks| == 1, isJet4, mode);
      (text + more, next)
  }

  /** A memo row: four bytes of reference to the next row, then its payload. */
  type MemoRows = map<nat, seq<byte>>

  function NextRef(row: seq<byte>): nat
    requires |row| >= 4
  {
    row[0] as nat + 256 * row[1] as nat + 65536 * row[2] as nat + 16777216 * row[3] as nat
  }

  /** `chunks` are the payloads met following the references from `pgRow`; a cyclic chain has none. */
  predicate Chain(rows: MemoRows, pgRow: nat, chunks: seq<seq<byte>>)
    decreases |chunks|
  {
    if pgRow !in rows || |rows[pgRow]| < 4 then chunks == []
    else
      && chunks != []
      && chunks[0] == rows[pgRow][4..]
      && (var next := NextRef(rows[pgRow]); if next / 256 == 0 then |chunks| == 1 else Chain(rows, next, chunks[1..]))
  }

  lemma Snoc<T>(s: seq<T>, i: nat)
    requires i < |s|
    ensures s[..i + 1] == s[..i] + [s[i]] && s[..i + 1][..i] == s[..i]
  {
  }

  /** The streaming reader of a multi-page memo. */
  method MemoStreamed(rows: MemoRows, start: nat, isJet4: bool, ghost chunks: seq<seq<byte>>) returns (out: seq<byte>)
    requires Chain(rows, start, chunks)
    ensures out == Stream(chunks, isJet4).0
  {
    hide ChunkText, NextRef;
    out := [];
    var st := new ChunkState(false);
    var first := true;
    var pgRow := start;
    ghost var n := 0;
    while pgRow in rows && |rows[pgRow]| >= 4
      invariant n <= |chunks| && Chain(rows, pgRow, chunks[n..]) && (first <==> n == 0)
      invariant (out, st.compressed) == Stream(chunks[..n], isJet4) && st.pendingHigh == 0
      decreases |chunks| - n
    {
      assert chunks[n] == chunks[n..][0] == rows[pgRow][4..];
      Snoc(chunks, n);
      assert chunks[n..][1..] == chunks[n + 1..];
      out := AppendUnicodeChunk(out, rows[pgRow][4..], first, isJet4, st);
      first := false;
      n := n + 1;
      var next := NextRef(rows[pgRow]);
      if next / 256 == 0 {
        break;
      }
      pgRow := next;
    }
    assert chunks[..n] == chunks;
  }

  /** The joining reader: collect the payloads, then decode them at once. */
  method MemoJoined(rows: MemoRows, start: nat, isJet4: bool, ghost chunks: seq<seq<byte>>) returns (out: seq<byte>)
    requires Chain(rows, start, chunks)
    ensures out == Meaning(Concat(chunks), isJet4)
  {
    hide Meaning, NextRef;
    var result := [];
    var pgRow := start;
    ghost var n := 0;
    while pgRow in rows && |rows[pgRow]| >= 4
      invariant n <= |chunks| && Chain(rows, pgRow, chunks[n..]) && result == Concat(chunks[..n])
      decreases |chunks| - n
    {
      assert chunks[n] == chunks[n..][0] == rows[pgRow][4..];
      Snoc(chunks, n);
      assert chunks[n..][1..] == chunks[n + 1..];
      result := result + rows[pgRow][4..];
      n := n + 1;
      var next := NextRef(rows[pgRow]);
      if next / 256 == 0 {
        break;
      }
      pgRow := next;
    }
    assert chunks[..n] == chunks;
    out := AppendUnicodeUTF8([], result, isJet4);
    assert [] + Meaning(result, isJet4) == Meaning(result, isJet4);
  }

  // --- memos as they are written ---

  /** A place in the file: a data page and a row on it. */
  datatype Place = Place(page: nat, row: nat)

  /** What a reference can hold: page 0 ends a memo, and beyond 2^23 the reference would be negative. */
  predicate Referable(at: Place) { 1 <= at.page < 0x800000 && at.row < 256 }

  function Key(at: Place): nat { at.page * 256 + at.row }

  /** Row number, then the page number in three bytes, low byte first. */
  function Reference(at: Place): seq<byte>
    requires Referable(at)
  {
    [at.row as bv8, (at.page % 256) as bv8, (at.page / 256 % 256) as bv8, (at.page / 65536) as bv8]
  }

  /** The last row of a memo refers to page 0, or to no row that can be read. */
  ghost predicate Last(rows: MemoRows, header: seq<byte>) {
    && |header| == 4
    && ((header[1] == 0 && header[2] == 0 && header[3] == 0)
        || exists at: Place :: Referable(at) && header == Reference(at) && (Key(at) in rows ==> |rows[Key(at)]| < 4))
  }

  /** The payloads lie at the places, each row beginning with the reference to the next. */
  ghost predicate LaidOut(rows: MemoRows, places: seq<Place>, payloads: seq<seq<byte>>) {
    && |places| == |payloads| > 0
    && Referable(places[0]) && Key(places[0]) in rows
    && |rows[Key(places[0])]| >= 4
    && rows[Key(places[0])][4..] == payloads[0]
    && if |places| == 1 then Last(rows, rows[Key(places[0])][..4])
       else LaidOut(rows, places[1..], payloads[1..]) && rows[Key(places[0])][..4] == Reference(places[1])
  }

  lemma ReferenceBytes(at: Place)
    requires Referable(at)
    ensures var r := Reference(at);
      r[0] as nat == at.row && r[1] as nat == at.page % 256 && r[2] as nat == at.page / 256 % 256 && r[3] as nat == at.page / 65536
  {
    ByteValue(at.row);
    ByteValue(at.page % 256);
    ByteValue(at.page / 256 % 256);
    ByteValue(at.page / 65536);
  }

  lemma PageDigits(page: nat)
    ensures page == page % 256 + 256 * (page / 256 % 256) + 65536 * (page / 65536)
  {
  }

  /** A reference is read back as the place it was written for. */
  lemma ReferenceRead(at: Place, row: seq<byte>)
    requires Referable(at) && |row| >= 4 && row[..4] == Reference(at)
    ensures NextRef(row) == Key(at) && NextRef(row) / 256 == at.page != 0
  {
    hide Reference;
    ReferenceBytes(at);
    PageDigits(at.page);
    assert forall i :: 0 <= i < 4 ==> row[i] == row[..4][i];
  }

  /** A reference ends the memo exactly when its three page bytes are zero. */
  lemma NoReference(row: seq<byte>)
    requires |row| >= 4
    ensures NextRef(row) / 256 == 0 <==> row[1] == 0 && row[2] == 0 && row[3] == 0
  {
  }

  /** The readers' walk meets exactly the payloads that were laid out, in order. */
  lemma {:induction false} WrittenChain(rows: MemoRows, places: seq<Place>, payloads: seq<seq<byte>>)
    requires LaidOut(rows, places, payloads)
    ensures Chain(rows, Key(places[0]), payloads)
  {
    hide NextRef, Reference;
    var row := rows[Key(places[0])];
    NoReference(row);
    if |places| > 1 {
      ReferenceRead(places[1], row);
      WrittenChain(rows, places[1..], payloads[1..]);
    } else if !(row[1] == 0 && row[2] == 0 && row[3] == 0) {
      assert forall i :: 0 <= i < 4 ==> row[i] == row[..4][i];
      var at :| Referable(at) && row[..4] == Reference(at) && (Key(at) in rows ==> |rows[Key(at)]| < 4);
      ReferenceRead(at, row);
      assert Chain(rows, Key(at), payloads[1..]);
    }
  }

  /** No other payloads are met. */
  lemma {:induction false} ChainUnique(rows: MemoRows, pgRow: nat, a: seq<seq<byte>>, b: seq<seq<byte>>)
    requires Chain(rows, pgRow, a) && Chain(rows, pgRow, b)
    ensures a == b
    decreases |a|
  {
    hide NextRef;
    if pgRow in rows && |rows[pgRow]| >= 4 {
      var next := NextRef(rows[pgRow]);
      if next / 256 != 0 { ChainUnique(rows, next, a[1..], b[1..]); }
      assert a == [a[0]] + a[1..] && b == [b[0]] + b[1..];
    }
  }

  /** Both readers return the text of the payloads as they were laid out. */
  method ReadWritten(rows: MemoRows, ghost places: seq<Place>, start: nat, isJet4: bool, ghost payloads: seq<seq<byte>>)
      returns (streamed: seq<byte>, joined: seq<byte>)
    requires LaidOut(rows, places, payloads) && start == Key(places[0])
    ensures joined == Meaning(Concat(payloads), isJet4)
    ensures streamed == Stream(payloads, isJet4).0
    ensures GoodBelow(payloads, |payloads|, isJet4) ==> streamed == joined
  {
    WrittenChain(rows, places, payloads);
    streamed := MemoStreamed(rows, start, isJet4, payloads);
    joined := MemoJoined(rows, start, isJet4, payloads);
    if GoodBelow(payloads, |payloads|, isJet4) { ReadersAgree(payloads, isJet4); }
  }

  // --- where a cut is harmless ---

  predicate EndsHigh(units: seq<Unit>) { units != [] && IsHigh(units[|units| - 1]) }

  /** What the stream may hold at the end of a chunk: compressed mode (or whole units) and no half pair. */
  predicate Boundary(p: seq<byte>, isJet4: bool) {
    !isJet4
    || (|p| >= 2
        && (if Prefixed(p) then ModeAfter(p[2..], true) && !EndsHigh(Inflate(p[2..], true))
            else |p| % 2 == 0 && !EndsHigh(UnitsLE(p))))
  }

  function ModeOf(p: seq<byte>, isJet4: bool): bool { isJet4 && Prefixed(p) && ModeAfter(p[2..], true) }

  /** What the chunk decoder makes of `c` after `p`. */
  function Next(p: seq<byte>, c: seq<byte>, isJet4: bool): seq<byte> { ChunkText(c, false, isJet4, ModeOf(p, isJet4)).0 }

  lemma {:induction false} WidenAppend(a: seq<byte>, b: seq<byte>)
    ensures Widen(a + b) == Widen(a) + Widen(b)
  {
    if a == [] {
      assert a + b == b;
    } else {
      WidenAppend(a[1..], b);
      assert (a + b)[1..] == a[1..] + b;
    }
  }

  lemma {:induction false} WidenNotHigh(a: seq<byte>)
    ensures forall k :: 0 <= k < |Widen(a)| ==> !IsHigh(Widen(a)[k])
  {
    hide IsHigh;
    if a != [] {
      WidenNotHigh(a[1..]);
      ByteUnit(a[0]);
    }
  }

  /** At a good boundary decoding goes on as if there were no cut, and so does the mode. */
  lemma BoundaryGood(p: seq<byte>, c: seq<byte>, isJet4: bool)
    requires Boundary(p, isJet4)
    ensures Meaning(p + c, isJet4) == Meaning(p, isJet4) + Next(p, c, isJet4)
    ensures ModeOf(p + c, isJet4) == ChunkText(c, false, isJet4, ModeOf(p, isJet4)).1
  {
    hide Text, Inflate, UnitsLE, Widen;
    if !isJet4 {
      WidenAppend(p, c);
      WidenNotHigh(p);
      TextJoin(Widen(p), Widen(c));
    } else if Prefixed(p) {
      assert (p + c)[2..] == p[2..] + c;
      assert Left(p[2..], true) + c == c;
      InflateAppend(p[2..], c, true);
      DecompressAppend(p[2..], c, true);
      TextJoin(Inflate(p[2..], true), Inflate(c, true));
    } else {
      UnitsEven(p, c);
      TextJoin(UnitsLE(p), UnitsLE(c));
    }
  }

  // --- and where it is not ---

  /** The continuation that shows a bad boundary. */
  function Spoiler(p: seq<byte>): seq<byte> {
    if p == [] then [0xFF, 0xFE, 0x41]
    else if Prefixed(p) then (if ModeAfter(p[2..], true) then [0, 1, 0xDC] else [0, 0x41])
    else if |p| % 2 == 1 then [0x41]
    else [0, 0xDC]
  }

  lemma PlainLength(u: Unit)
    requires !IsHigh(u) && !IsLow(u)
    ensures |Text([u])| == Cost(u)
  {
    TextPlain(u, []);
    TextEmpty();
    assert [u] + [] == [u];
  }

  lemma LowLength(u: Unit)
    requires IsLow(u)
    ensures |Text([u])| == 3
  {
    TextLone(u, []);
    TextEmpty();
    assert [u] + [] == [u];
  }

  /** Cutting a surrogate pair costs two replacement characters. */
  lemma SplitPair(units: seq<Unit>, low: Unit)
    requires EndsHigh(units) && IsLow(low)
    ensures |Text(units + [low])| + 2 == |Text(units) + Text([low])|
  {
    hide Text;
    var n := |units| - 1;
    var high := units[n];
    TextEmpty();
    TextJoin(units[..n], [high]);
    TextJoin(units[..n], [high, low]);
    assert units == units[..n] + [high] && units + [low] == units[..n] + [high, low];
    TextLone(high, []);
    assert [high] + [] == [high];
    TextPair(high, low, []);
    assert [high, low] + [] == [high, low];
    LowLength(low);
  }

  lemma SpoilEmpty()
    ensures Meaning([] + [0xFF, 0xFE, 0x41], true) != Meaning([], true) + Next([], [0xFF, 0xFE, 0x41], true)
  {
    hide Text;
    var c := [0xFF, 0xFE, 0x41];
    assert [] + c == c && c[2..] == [0x41];
    InflateByte([0x41]);
    InflateEnd([0x41][1..], true);
    assert Inflate([0x41], true) == [0x41];
    PlainLength(0x41);
    assert UnitsLE(c) == [0xFEFF] by { assert UnitLE(0xFF, 0xFE) == 0xFEFF; }
    PlainLength(0xFEFF);
  }

  lemma HighByte(lo: byte, hi: byte)
    ensures hi == 0x41 ==> !IsHigh(UnitLE(lo, hi)) && !IsLow(UnitLE(lo, hi)) && Cost(UnitLE(lo, hi)) == 3
    ensures hi == 0 ==> UnitLE(lo, hi) == lo as bv16 && Cost(UnitLE(lo, hi)) <= 2
    ensures hi == 0xDC ==> IsLow(UnitLE(lo, hi))
  {
  }

  lemma OneUnit(lo: byte, hi: byte)
    ensures UnitsLE([lo, hi]) == [UnitLE(lo, hi)]
  {
    UnitsStep(lo, hi, []);
    assert [lo, hi] + [] == [lo, hi];
  }

  lemma SpoilOdd(p: seq<byte>)
    requires |p| % 2 == 1 && !Prefixed(p)
    ensures Meaning(p + [0x41], true) != Meaning(p, true) + Next(p, [0x41], true)
  {
    hide Text, UnitsLE;
    var lo := p[|p| - 1];
    UnitsOdd(p, [0x41]);
    assert [lo] + [0x41] == [lo, 0x41];
    OneUnit(lo, 0x41);
    HighByte(lo, 0x41);
    PlainLength(UnitLE(lo, 0x41));
    TextJoin(UnitsLE(p), [UnitLE(lo, 0x41)]);
    UnitsEnd([0x41]);
    TextEmpty();
  }

  lemma SpoilPair(p: seq<byte>)
    requires |p| >= 2 && |p| % 2 == 0 && !Prefixed(p) && EndsHigh(UnitsLE(p))
    ensures Meaning(p + [0, 0xDC], true) != Meaning(p, true) + Next(p, [0, 0xDC], true)
  {
    hide Text, UnitsLE;
    UnitsEven(p, [0, 0xDC]);
    OneUnit(0, 0xDC);
    HighByte(0, 0xDC);
    SplitPair(UnitsLE(p), UnitLE(0, 0xDC));
  }

  lemma SpoilCompressedPair(p: seq<byte>)
    requires Prefixed(p) && ModeAfter(p[2..], true) && EndsHigh(Inflate(p[2..], true))
    ensures Meaning(p + [0, 1, 0xDC], true) != Meaning(p, true) + Next(p, [0, 1, 0xDC], true)
  {
    hide Text, Inflate;
    var c := [0, 1, 0xDC];
    assert (p + c)[2..] == p[2..] + c;
    InflateAppend(p[2..], c, true);
    assert Left(p[2..], true) + c == c;
    InflateToggle(c, true);
    assert c[1..] == [1, 0xDC];
    InflateUnit([1, 0xDC]);
    InflateEnd([1, 0xDC][2..], false);
    HighByte(1, 0xDC);
    assert Inflate(c, true) == [UnitLE(1, 0xDC)];
    SplitPair(Inflate(p[2..], true), UnitLE(1, 0xDC));
  }

  lemma SpoilMode(p: seq<byte>)
    requires Prefixed(p) && !ModeAfter(p[2..], true)
    ensures Meaning(p + [0, 0x41], true) != Meaning(p, true) + Next(p, [0, 0x41], true)
  {
    hide Text, Inflate, UnitsLE;
    var c: seq<byte> := [0, 0x41];
    var left := Left(p[2..], true);
    assert (p + c)[2..] == p[2..] + c;
    InflateAppend(p[2..], c, true);
    var u: Unit;
    if left == [] {
      u := 0x41;
      assert left + c == c && c[1..] == [0x41];
      InflateToggle(c, false);
      InflateByte([0x41]);
      InflateEnd([0x41][1..], true);
    } else {
      u := left[0] as bv16;
      assert left + c == [left[0], 0, 0x41];
      InflateUnit(left + c);
      HighByte(left[0], 0);
      ByteUnit(left[0]);
      assert (left + c)[2..] == [0x41];
      InflateEnd([0x41], false);
    }
    assert Inflate(left + c, false) == [u];
    TextJoin(Inflate(p[2..], true), [u]);
    PlainLength(u);
    OneUnit(0, 0x41);
    HighByte(0, 0x41);
    PlainLength(UnitLE(0, 0x41));
  }

  /** A cut is harmless for every continuation exactly at a good boundary. */
  lemma CutHarmless(p: seq<byte>, isJet4: bool)
    ensures Boundary(p, isJet4) <==>
      forall c :: Meaning(p + c, isJet4) == Meaning(p, isJet4) + Next(p, c, isJet4)
  {
    hide Meaning, Next;
    if Boundary(p, isJet4) {
      forall c ensures Meaning(p + c, isJet4) == Meaning(p, isJet4) + Next(p, c, isJet4) {
        BoundaryGood(p, c, isJet4);
      }
    } else {
      var c := Spoiler(p);
      assert Meaning(p + c, isJet4) != Meaning(p, isJet4) + Next(p, c, isJet4) by {
        if p == [] {
          SpoilEmpty();
        } else if Prefixed(p) {
          if ModeAfter(p[2..], true) { SpoilCompressedPair(p); } else { SpoilMode(p); }
        } else if |p| % 2 == 1 {
          SpoilOdd(p);
        } else {
          SpoilPair(p);
        }
      }
    }
  }

  // --- whole streams ---

  predicate GoodBelow(chunks: seq<seq<byte>>, n: nat, isJet4: bool)
    requires n <= |chunks| + 1
  {
    forall k :: 1 <= k < n ==> Boundary(Concat(chunks[..k]), isJet4)
  }

  lemma StreamStep(chunks: seq<seq<byte>>, n: nat, isJet4: bool)
    requires 1 <= n <= |chunks|
    ensures
      var before := Stream(chunks[..n - 1], isJet4);
      var step := ChunkText(chunks[n - 1], n == 1, isJet4, before.1);
      Stream(chunks[..n], isJet4) == (before.0 + step.0, step.1)
    ensures Concat(chunks[..n]) == Concat(chunks[..n - 1]) + chunks[n - 1]
  {
    hide ChunkText;
    Snoc(chunks, n - 1);
  }

  lemma FirstChunk(c: seq<byte>, isJet4: bool)
    ensures ChunkText(c, true, isJet4, false) == (Meaning(c, isJet4), ModeOf(c, isJet4))
  {
  }

  lemma StreamNone(chunks: seq<seq<byte>>, isJet4: bool)
    ensures Stream(chunks[..0], isJet4) == ([], false) && Concat(chunks[..0]) == []
  {
  }

  /** With good boundaries the state after any number of chunks is the state of the joined bytes. */
  lemma {:induction false} StreamFaithful(chunks: seq<seq<byte>>, n: nat, isJet4: bool)
    requires 1 <= n <= |chunks| && GoodBelow(chunks, n, isJet4)
    ensures Stream(chunks[..n], isJet4) == (Meaning(Concat(chunks[..n]), isJet4), ModeOf(Concat(chunks[..n]), isJet4))
    decreases n
  {
    hide Meaning, ModeOf, ChunkText, Boundary, Stream, Concat;
    StreamStep(chunks, n, isJet4);
    if n == 1 {
      StreamNone(chunks, isJet4);
      FirstChunk(chunks[0], isJet4);
      assert [] + chunks[0] == chunks[0];
      assert [] + Meaning(chunks[0], isJet4) == Meaning(chunks[0], isJet4);
    } else {
      StreamFaithful(chunks, n - 1, isJet4);
      BoundaryGood(Concat(chunks[..n - 1]), chunks[n - 1], isJet4);
    }
  }

  /** Streaming after `n` chunks is right whatever comes next. */
  ghost predicate RightAt(chunks: seq<seq<byte>>, n: nat, isJet4: bool)
    requires n <= |chunks|
  {
    forall c :: Stream(chunks[..n] + [c], isJet4).0 == Meaning(Concat(chunks[..n]) + c, isJet4)
  }

  lemma RightHere(chunks: seq<seq<byte>>, n: nat, isJet4: bool)
    requires 1 <= n <= |chunks| && GoodBelow(chunks, n, isJet4)
    ensures RightAt(chunks, n, isJet4) <==> Boundary(Concat(chunks[..n]), isJet4)
  {
    hide Meaning, ChunkText, Boundary, ModeOf;
    StreamFaithful(chunks, n, isJet4);
    var p := Concat(chunks[..n]);
    CutHarmless(p, isJet4);
    forall c ensures Stream(chunks[..n] + [c], isJet4).0 == Meaning(p, isJet4) + Next(p, c, isJet4) {
      assert (chunks[..n] + [c])[..n] == chunks[..n];
    }
  }

  /** Streaming is right after every chunk and for every continuation exactly when every boundary is good. */
  lemma {:induction false} StreamingExact(chunks: seq<seq<byte>>, n: nat, isJet4: bool)
    requires n <= |chunks|
    ensures (forall k :: 1 <= k <= n ==> RightAt(chunks, k, isJet4)) <==> GoodBelow(chunks, n + 1, isJet4)
    decreases n
  {
    hide RightAt, Boundary, Concat;
    if n > 0 {
      StreamingExact(chunks, n - 1, isJet4);
      if GoodBelow(chunks, n, isJet4) {
        RightHere(chunks, n, isJet4);
      }
    }
  }

  /** With good boundaries between its rows a memo reads the same from both readers. */
  lemma ReadersAgree(chunks: seq<seq<byte>>, isJet4: bool)
    requires GoodBelow(chunks, |chunks|, isJet4)
    ensures Stream(chunks, isJet4).0 == Meaning(Concat(chunks), isJet4)
  {
    if chunks == [] {
      TextEmpty();
    } else {
      assert chunks[..|chunks|] == chunks;
      StreamFaithful(chunks, |chunks|, isJet4);
    }
  }
}
