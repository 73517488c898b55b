/** Rows as they were written, through both scans: from packed rows on slotted pages to the rows handed out. */
module StoredRows {
  import opened Bytes
  import opened RowFormat
  import opened RowPack
  import opened ScanModel
  import opened ScanRefinement
  import opened SyncScan
  import opened TempTable
  import opened DeletedRows
  import opened Wrappers

  /** What was given for a row, packed when the table had its first `n` columns. */
  datatype Given = Given(n: nat, input: seq<InField>)

  predicate Storable(layout: seq<TempCol>, g: Given) {
    && g.n <= |layout| && Cumulative(layout[..g.n]) && FullSize(layout[..g.n], g.input)
    && |Packed(layout[..g.n], g.input)| <= PG_SIZE
  }

  function PackedRow(layout: seq<TempCol>, g: Given): seq<byte>
    requires Storable(layout, g)
  {
    Packed(layout[..g.n], g.input)
  }

  predicate AllStorable(layout: seq<TempCol>, rows: seq<Given>) { forall k :: 0 <= k < |rows| ==> Storable(layout, rows[k]) }

  function PackedRows(layout: seq<TempCol>, rows: seq<Given>): (r: seq<seq<byte>>)
    requires AllStorable(layout, rows)
    ensures |r| == |rows| && forall k :: 0 <= k < |rows| ==> r[k] == PackedRow(layout, rows[k])
  {
    seq(|rows|, k requires 0 <= k < |rows| => PackedRow(layout, rows[k]))
  }

  /** The page holds these rows. */
  predicate Stores(layout: seq<TempCol>, page: seq<byte>, rows: seq<Given>) {
    AllStorable(layout, rows) && PageHolds(page, PackedRows(layout, rows))
  }

  /** The query reads a table with these columns. */
  predicate Asks(q: Query, layout: seq<TempCol>) {
    q.Ok() && q.cols == Columns(layout) && q.hasVar == (VarBefore(layout, |layout|) > 0)
  }

  /** The field holds what was given: its bytes, where they lie on the page, and its null flag; null for a later column. */
  predicate Shows(f: Field, layout: seq<TempCol>, g: Given, i: nat, page: seq<byte>)
    requires i < |layout|
  {
    if i >= g.n then f == Field(0, 0, true, None)
    else
      && Back(f, Find(g.input, i), if layout[i].isFixed then layout[i].size else 0)
      && (f.siz > 0 ==> 0 <= f.start && f.start + f.siz <= |page| && f.value == Some(page[f.start..f.start + f.siz]))
  }

  predicate AllShown(fields: seq<Field>, layout: seq<TempCol>, g: Given, page: seq<byte>) {
    |fields| == |layout| && forall i :: 0 <= i < |layout| ==> Shows(fields[i], layout, g, i, page)
  }

  /** The fields the condition looks at, and the places and null flags the formatting looks at. */
  predicate Looks(q: Query, fields: seq<Field>, picked: seq<Field>, cores: seq<Core>)
    requires q.Ok() && |fields| == |q.cols|
  {
    && |picked| == |q.sargCols| && |cores| == |q.boundCols|
    && (forall k :: 0 <= k < |picked| ==> picked[k] == fields[q.sargCols[k]])
    && forall k :: 0 <= k < |cores| ==>
         var f := fields[q.boundCols[k]]; cores[k].start == f.start && cores[k].siz == f.siz && cores[k].isNull == f.isNull
  }

  /** They decide whether the row is handed out, and as what. */
  predicate Decides(q: Query, page: seq<byte>, picked: seq<Field>, cores: seq<Core>, o: Outcome) {
    if q.hasSarg && !q.accept(page, picked) then o == Skip else o == Row(q.render(page, cores))
  }

  lemma FieldsShown(q: Query, layout: seq<TempCol>, g: Given, page: seq<byte>, start: nat)
    requires Asks(q, layout) && Storable(layout, g)
    requires var p := PackedRow(layout, g); start + |p| <= |page| && page[start..start + |p|] == p
    ensures var p := PackedRow(layout, g);
      var h := CrackHeader(page, start, |p|, q.hasVar);
      h.Some? && AllShown(AllFields(q, h.value, page, start, |p|), layout, g, page)
  {
    hide Find, Packed, Columns, CrackHeader, FieldOf, Cumulative, FullSize, VarBefore, FixedBefore;
    var p := PackedRow(layout, g);
    CrackOlder(layout, g.n, g.input, page, start);
    var h := CrackHeader(page, start, |p|, q.hasVar).value;
    forall i | 0 <= i < |layout| ensures Shows(FieldAt(Columns(layout), i, h, page, start, |p|), layout, g, i, page) {
      FieldPlaced(Columns(layout)[i], FixedBefore(Columns(layout), i), h, page, start, |p|);
      StartsInside(Columns(layout)[i], FixedBefore(Columns(layout), i), h, page, start, |p|);
    }
  }

  lemma StartsInside(col: Column, before: nat, h: Header, page: seq<byte>, start: nat, size: nat)
    requires start + size <= |page|
    ensures var f := FieldOf(col, before, h, page, start, size); f.value.Some? && f.siz > 0 ==> f.start >= 0
  {
  }

  /** A stored row is read as what was given for it. */
  lemma StoredOutcome(q: Query, layout: seq<TempCol>, page: seq<byte>, rows: seq<Given>, r: nat)
      returns (fields: seq<Field>, picked: seq<Field>, cores: seq<Core>)
    requires Asks(q, layout) && Stores(layout, page, rows) && r < |rows|
    ensures AllShown(fields, layout, rows[r], page) && Looks(q, fields, picked, cores)
    ensures Decides(q, page, picked, cores, RowOutcome(q, page, r))
    ensures RowCount(page) == |rows|
  {
    hide Find, PackedRow, Columns, CrackHeader, FieldAt, Shows, Storable, FindRow, StartOf, Masked, Deleted;
    var all := PackedRows(layout, rows);
    assert Storable(layout, rows[r]) && all[r] == PackedRow(layout, rows[r]) && |all[r]| >= MIN_ROW;
    RowFound(page, all, r);
    var start := StartOf(all, r);
    FieldsShown(q, layout, rows[r], page, start);
    fields := AllFields(q, CrackHeader(page, start, |all[r]|, q.hasVar).value, page, start, |all[r]|);
    picked, cores := Picked(fields, q.sargCols), Cores(Picked(fields, q.boundCols));
  }

  /** Nothing of a stored row lies in the offset table, so the delete bits of such a page concern one row each. */
  lemma StoredMarkable(q: Query, layout: seq<TempCol>, page: seq<byte>, rows: seq<Given>, r: nat)
    requires Asks(q, layout) && Stores(layout, page, rows) && r < |rows|
    requires HighSlot(r) < |page| ==> SameReading(q, page, Mark(page, r))
    ensures Markable(q, page, r)
  {
    hide Find, PackedRow, Storable, SameReading, Beyond, StartOf, Int16At;
    var all := PackedRows(layout, rows);
    StartBounds(all, r);
    StartBounds(all, |rows| - 1);
    forall k | 0 <= k < Tried(page, true) ensures Beyond(q, page, k, HighSlot(r)) {
      assert Storable(layout, rows[k]);
      StoredBeyond(q, layout, page, rows, k, HighSlot(r));
    }
  }

  lemma StoredBeyond(q: Query, layout: seq<TempCol>, page: seq<byte>, rows: seq<Given>, k: nat, at: nat)
    requires Asks(q, layout) && Stores(layout, page, rows) && k < |rows| && at < ROW_COUNT + 2 + 2 * |rows|
    ensures Beyond(q, page, k, at)
  {
    hide Find, Packed, Columns, FindRow, StartOf, Masked, Deleted, MaskSize, Int16At;
    var all := PackedRows(layout, rows);
    var g := rows[k];
    assert Storable(layout, g) && all[k] == PackedRow(layout, g);
    RowFound(page, all, k);
    var start := StartOf(all, k);
    AfterTable(all, k);
    PackedNumbers(layout[..g.n], g.input, page, start);
    assert forall i :: 0 <= i < |q.cols| ==> q.cols[i].fixedOffset >= 0 by { OffsetsNatural(layout); }
  }

  lemma OffsetsNatural(layout: seq<TempCol>)
    ensures forall i :: 0 <= i < |layout| ==> Columns(layout)[i].fixedOffset >= 0
  {
  }

  lemma AfterTable(rows: seq<seq<byte>>, k: nat)
    requires k < |rows| && forall r :: 0 <= r < |rows| ==> |rows[r]| >= MIN_ROW
    requires ROW_COUNT + 2 + 2 * |rows| <= StartOf(rows, |rows| - 1)
    ensures ROW_COUNT + 2 + 2 * |rows| <= StartOf(rows, k)
  {
    StartsFall(rows, k, |rows| - 1);
  }

  // --- whole tables ---

  /** Every page holds its rows; only the first may hold none. */
  predicate TableStores(layout: seq<TempCol>, pages: seq<seq<byte>>, tables: seq<seq<Given>>) {
    |pages| == |tables| && forall p :: 0 <= p < |pages| ==> Stores(layout, pages[p], tables[p]) && (p > 0 ==> tables[p] != [])
  }

  lemma PageNoBad(q: Query, layout: seq<TempCol>, page: seq<byte>, rows: seq<Given>, later: bool)
    requires Asks(q, layout) && Stores(layout, page, rows) && (later ==> rows != [])
    ensures RowCount(page) == |rows| && NoBad(PageAttempts(q, page, later))
  {
    hide RowOutcome, Storable, Columns, Shows, Find;
    forall k | 0 <= k < |PageAttempts(q, page, later)| ensures !PageAttempts(q, page, later)[k].Bad? {
      var _, _, _ := StoredOutcome(q, layout, page, rows, k);
    }
  }

  lemma {:induction false} LaterNoBad(q: Query, layout: seq<TempCol>, pages: seq<seq<byte>>, tables: seq<seq<Given>>)
    requires Asks(q, layout) && |pages| == |tables|
    requires forall p :: 0 <= p < |pages| ==> Stores(layout, pages[p], tables[p]) && tables[p] != []
    ensures NoBad(Later(q, pages))
  {
    hide RowOutcome, Stores, Columns, ReadFrom, PageAttempts;
    if pages != [] {
      PageNoBad(q, layout, pages[0], tables[0], true);
      LaterNoBad(q, layout, pages[1..], tables[1..]);
      PageRead(q, pages[0]);
    }
  }

  /** On a table of stored rows both scans return the same rows for every LIMIT, without an error. */
  lemma StoredScansAgree(q: Query, layout: seq<TempCol>, pages: seq<seq<byte>>, tables: seq<seq<Given>>, limit: int)
    requires Asks(q, layout) && TableStores(layout, pages, tables)
    ensures SyncRun(Attempts(q, pages), limit, 0) == (Cut(Rows(Flat(FastPages(q, pages))), limit), true)
  {
    hide RowOutcome, Stores, Columns, ReadFrom, PageAttempts, SyncRun, Later, Rows, Flat, FastPages, Cut;
    if pages != [] {
      PageNoBad(q, layout, pages[0], tables[0], false);
      LaterNoBad(q, layout, pages[1..], tables[1..]);
      PageRead(q, pages[0]);
      forall k | 1 <= k < |pages| ensures !Phantom(q, pages[k]) { PageNoBad(q, layout, pages[k], tables[k], true); }
    }
    SyncExact(q, pages);
  }
}
