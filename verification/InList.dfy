/** IN lists: filtered, sorted and deduplicated in place, then searched (internal/gomdb/sargs.go). */
module InList {
  import opened Bytes
  import opened Wrappers

  const LINEAR_SEARCH_MAX: nat := 8

  // --- orders ---

  ghost predicate TotalOrder<T(!new)>(less: (T, T) -> bool) {
    && (forall x :: !less(x, x))
    && (forall x, y, z :: less(x, y) && less(y, z) ==> less(x, z))
    && (forall x, y :: x == y || less(x, y) || less(y, x))
  }

  ghost predicate Ascending<T(!new)>(s: seq<T>, less: (T, T) -> bool) {
    forall i, j :: 0 <= i < j < |s| ==> !less(s[j], s[i])
  }

  ghost predicate StrictlyAscending<T(!new)>(s: seq<T>, less: (T, T) -> bool) {
    forall i, j :: 0 <= i < j < |s| ==> less(s[i], s[j])
  }

  /** `bytes.Compare` is negative. */
  predicate BytesLess(a: seq<byte>, b: seq<byte>) {
    if a == [] then b != []
    else if b == [] then false
    else a[0] < b[0] || (a[0] == b[0] && BytesLess(a[1..], b[1..]))
  }

  lemma {:induction false} BytesTrichotomy(a: seq<byte>, b: seq<byte>)
    ensures a == b || BytesLess(a, b) || BytesLess(b, a)
    ensures !(BytesLess(a, b) && BytesLess(b, a)) && !BytesLess(a, a)
  {
    if a != [] {
      BytesTrichotomy(a[1..], a[1..]);
      if b != [] {
        BytesTrichotomy(a[1..], b[1..]);
        assert a == [a[0]] + a[1..] && b == [b[0]] + b[1..];
      }
    }
  }

  lemma {:induction false} BytesTransitive(a: seq<byte>, b: seq<byte>, c: seq<byte>)
    requires BytesLess(a, b) && BytesLess(b, c)
    ensures BytesLess(a, c)
  {
    if a != [] && a[0] == b[0] == c[0] { BytesTransitive(a[1..], b[1..], c[1..]); }
  }

  lemma BytesOrdered()
    ensures TotalOrder(BytesLess)
  {
    forall x: seq<byte> ensures !BytesLess(x, x) { BytesTrichotomy(x, x); }
    forall x: seq<byte>, y: seq<byte> ensures x == y || BytesLess(x, y) || BytesLess(y, x) { BytesTrichotomy(x, y); }
    forall x: seq<byte>, y: seq<byte>, z: seq<byte> | BytesLess(x, y) && BytesLess(y, z) ensures BytesLess(x, z) {
      BytesTransitive(x, y, z);
    }
  }

  // --- in place ---

  function Inserted<T>(x: T, s: seq<T>, less: (T, T) -> bool): seq<T> {
    if s == [] || !less(s[0], x) then [x] + s else [s[0]] + Inserted(x, s[1..], less)
  }

  function SortedBy<T>(s: seq<T>, less: (T, T) -> bool): seq<T> {
    if s == [] then [] else Inserted(s[0], SortedBy(s[1..], less), less)
  }

  lemma {:induction false} InsertedSorted<T(!new)>(x: T, s: seq<T>, less: (T, T) -> bool)
    requires TotalOrder(less) && Ascending(s, less)
    ensures var r := Inserted(x, s, less);
            |r| == |s| + 1 && Ascending(r, less) && forall y :: y in r <==> y == x || y in s
  {
    if s != [] && less(s[0], x) {
      InsertedSorted(x, s[1..], less);
      assert s == [s[0]] + s[1..];
      var rest := Inserted(x, s[1..], less);
      forall j | 0 <= j < |rest| ensures !less(rest[j], s[0]) {
        var y := rest[j];
        assert y in rest;
        if y != x {
          var k :| 0 <= k < |s[1..]| && s[1..][k] == y;
          assert s[k + 1] == y;
        }
      }
    } else {
      forall j | 0 <= j < |s| ensures !less(s[j], x) {
        if j > 0 { assert !less(s[j], s[0]); }
      }
    }
  }

  lemma {:induction false} SortedByIs<T(!new)>(s: seq<T>, less: (T, T) -> bool)
    requires TotalOrder(less)
    ensures var r := SortedBy(s, less); |r| == |s| && Ascending(r, less) && forall y :: y in r <==> y in s
  {
    hide Ascending, TotalOrder;
    if s == [] {
      NoneAscending(s, less);
    } else {
      SortedByIs(s[1..], less);
      InsertedSorted(s[0], SortedBy(s[1..], less), less);
      assert s == [s[0]] + s[1..];
      assert forall y :: y in s <==> y == s[0] || y in s[1..];
    }
  }

  lemma NoneAscending<T(!new)>(s: seq<T>, less: (T, T) -> bool)
    requires |s| == 0
    ensures Ascending(s, less)
  {
  }

  /** Stands for `sort.Slice` on the first `n` elements. */
  method Sort<T(!new)>(a: array<T>, n: nat, less: (T, T) -> bool)
    requires n <= a.Length && TotalOrder(less)
    modifies a
    ensures Ascending(a[..n], less) && forall x :: x in a[..n] <==> x in old(a[..n])
  {
    var r := SortedBy(a[..n], less);
    SortedByIs(a[..n], less);
    forall k | 0 <= k < n {
      a[k] := r[k];
    }
    assert a[..n] == r;
  }

  /** Keeps the first of every run of equal elements; writes never overtake reads. */
  method Dedup<T(!new, ==)>(a: array<T>, n: nat, less: (T, T) -> bool) returns (m: nat)
    requires 0 < n <= a.Length && TotalOrder(less) && Ascending(a[..n], less)
    modifies a
    ensures 0 < m <= n && StrictlyAscending(a[..m], less)
    ensures forall x :: x in a[..m] <==> x in old(a[..n])
  {
    m := 1;
    ghost var s := a[..n];
    for i := 1 to n
      invariant 0 < m <= i && a[i..n] == s[i..]
      invariant StrictlyAscending(a[..m], less) && a[m - 1] == s[i - 1]
      invariant forall x :: x in a[..m] <==> x in s[..i]
    {
      assert a[i] == a[i..n][0] == s[i];
      assert s[..i + 1] == s[..i] + [s[i]];
      if a[m - 1] != a[i] {
        ghost var before := a[..m];
        Follows(s, i, before, less);
        a[m] := a[i];
        m := m + 1;
        assert a[..m] == before + [s[i]];
      }
      assert a[i + 1..n] == s[i + 1..];
    }
    assert s[..n] == s;
  }

  /** The next different element of a sorted list is above everything kept. */
  lemma Follows<T(!new)>(s: seq<T>, i: nat, kept: seq<T>, less: (T, T) -> bool)
    requires 0 < i < |s| && TotalOrder(less) && Ascending(s, less) && StrictlyAscending(kept, less)
    requires kept != [] && kept[|kept| - 1] == s[i - 1] && s[i - 1] != s[i]
    ensures StrictlyAscending(kept + [s[i]], less)
  {
    assert less(s[i - 1], s[i]);
    forall p | 0 <= p < |kept| ensures less(kept[p], s[i]) {
      if p < |kept| - 1 { assert less(kept[p], s[i - 1]); }
    }
  }

  /** `sort.Search`: the first position whose element is not below `x`. */
  method Search<T(!new)>(s: seq<T>, x: T, less: (T, T) -> bool) returns (i: nat)
    requires TotalOrder(less) && StrictlyAscending(s, less)
    ensures i <= |s| && (forall k :: 0 <= k < i ==> less(s[k], x)) && (forall k :: i <= k < |s| ==> !less(s[k], x))
  {
    i := 0;
    var j := |s|;
    while i < j
      invariant i <= j <= |s|
      invariant forall k :: 0 <= k < i ==> less(s[k], x)
      invariant forall k :: j <= k < |s| ==> !less(s[k], x)
    {
      var h := (i + j) / 2;
      if less(s[h], x) {
        i := h + 1;
      } else {
        j := h;
      }
    }
  }

  lemma SearchHits<T(!new)>(s: seq<T>, x: T, less: (T, T) -> bool, i: nat)
    requires TotalOrder(less) && StrictlyAscending(s, less)
    requires i <= |s| && (forall k :: 0 <= k < i ==> less(s[k], x)) && (forall k :: i <= k < |s| ==> !less(s[k], x))
    ensures x in s <==> i < |s| && s[i] == x
  {
    forall k | 0 <= k < |s| && k != i ensures s[k] != x {
      if k > i { assert less(s[i], s[k]); }
    }
  }

  /** `testIntList` and `testInBytes`: binary search in a prepared list, a plain pass otherwise. */
  method Test<T(!new, ==)>(s: seq<T>, sorted: bool, x: T, less: (T, T) -> bool) returns (found: bool)
    requires TotalOrder(less) && (sorted ==> StrictlyAscending(s, less))
    ensures found <==> x in s
  {
    if |s| == 0 {
      return false;
    }
    if sorted {
      var i := Search(s, x, less);
      SearchHits(s, x, less, i);
      return i < |s| && s[i] == x;
    }
    for i := 0 to |s|
      invariant x !in s[..i]
    {
      if s[i] == x {
        return true;
      }
    }
    return false;
  }

  /** Long lists are sorted and deduplicated, short ones left alone. */
  method Prepare<T(!new, ==)>(a: array<T>, n: nat, less: (T, T) -> bool) returns (m: nat, sorted: bool)
    requires n <= a.Length && TotalOrder(less)
    modifies a
    ensures m <= n && (sorted <==> n > LINEAR_SEARCH_MAX) && (sorted ==> StrictlyAscending(a[..m], less))
    ensures forall x :: x in a[..m] <==> x in old(a[..n])
  {
    if n > LINEAR_SEARCH_MAX {
      Sort(a, n, less);
      m := Dedup(a, n, less);
      return m, true;
    }
    return n, false;
  }

  // --- integer columns ---

  /** A literal: its raw text, and the integer it stands for if it is TRUE, FALSE or already converted. */
  datatype Any = Any(i: int, s: seq<byte>)

  /** Elements of a converted list have no text, so this is the order of their integers. */
  predicate IntLess(x: Any, y: Any) { x.i < y.i || (x.i == y.i && BytesLess(x.s, y.s)) }

  lemma IntsOrdered()
    ensures TotalOrder(IntLess)
  {
    BytesOrdered();
    forall x: Any, y: Any ensures x == y || IntLess(x, y) || IntLess(y, x) {
      BytesTrichotomy(x.s, y.s);
    }
    forall x: Any ensures !IntLess(x, x) { BytesTrichotomy(x.s, x.s); }
    forall x: Any, y: Any, z: Any | IntLess(x, y) && IntLess(y, z) ensures IntLess(x, z) {
      if x.i == y.i == z.i { BytesTransitive(x.s, y.s, z.s); }
    }
  }

  /** The integer a literal stands for; text that is no integer stands for none. */
  function IntOf(v: Any, isInt: bool, atoi: seq<byte> -> Option<int>): Option<int> { if isInt then Some(v.i) else atoi(v.s) }

  /** Membership in the literals as written. */
  predicate AnyInt(vals: seq<Any>, isInt: seq<bool>, atoi: seq<byte> -> Option<int>, x: int)
    requires |vals| == |isInt|
  {
    exists k :: 0 <= k < |vals| && IntOf(vals[k], isInt[k], atoi) == Some(x)
  }

  /** Converts in place, dropping what is no integer; the write position never passes the read position. */
  method FilterInts(vals: array<Any>, isInt: seq<bool>, atoi: seq<byte> -> Option<int>) returns (n: nat)
    requires vals.Length == |isInt|
    modifies vals
    ensures n <= vals.Length && forall k :: 0 <= k < n ==> vals[k].s == []
    ensures forall x :: Any(x, []) in vals[..n] <==> AnyInt(old(vals[..]), isInt, atoi, x)
  {
    hide AnyInt;
    n := 0;
    ghost var lits := vals[..];
    NoLiterals(atoi);
    for i := 0 to vals.Length
      invariant n <= i && vals[i..] == lits[i..] && forall k :: 0 <= k < n ==> vals[k].s == []
      invariant forall x :: Any(x, []) in vals[..n] <==> AnyInt(lits[..i], isInt[..i], atoi, x)
    {
      assert vals[i] == vals[i..][0] == lits[i];
      AnyIntNext(lits, isInt, atoi, i);
      ghost var before := vals[..n];
      var iv := if isInt[i] then Some(vals[i].i) else atoi(vals[i].s);
      if iv.Some? {
        vals[n] := Any(iv.value, []);
        n := n + 1;
        assert vals[..n] == before + [Any(iv.value, [])];
      }
    }
    assert lits[..vals.Length] == lits && isInt[..vals.Length] == isInt;
  }

  lemma NoLiterals(atoi: seq<byte> -> Option<int>)
    ensures forall x :: !AnyInt([], [], atoi, x)
  {
  }

  lemma AnyIntNext(lits: seq<Any>, isInt: seq<bool>, atoi: seq<byte> -> Option<int>, i: nat)
    requires |lits| == |isInt| && i < |lits|
    ensures forall x :: AnyInt(lits[..i + 1], isInt[..i + 1], atoi, x) <==>
      AnyInt(lits[..i], isInt[..i], atoi, x) || IntOf(lits[i], isInt[i], atoi) == Some(x)
  {
    forall x ensures AnyInt(lits[..i + 1], isInt[..i + 1], atoi, x) <==>
      AnyInt(lits[..i], isInt[..i], atoi, x) || IntOf(lits[i], isInt[i], atoi) == Some(x)
    {
      if IntOf(lits[i], isInt[i], atoi) == Some(x) {
        assert IntOf(lits[..i + 1][i], isInt[..i + 1][i], atoi) == Some(x);
      }
      if AnyInt(lits[..i], isInt[..i], atoi, x) {
        var k :| 0 <= k < i && IntOf(lits[..i][k], isInt[..i][k], atoi) == Some(x);
        assert IntOf(lits[..i + 1][k], isInt[..i + 1][k], atoi) == Some(x);
      }
    }
  }

  method ResolveInts(vals: array<Any>, isInt: seq<bool>, atoi: seq<byte> -> Option<int>) returns (n: nat, sorted: bool)
    requires vals.Length == |isInt|
    modifies vals
    ensures n <= vals.Length && (sorted ==> StrictlyAscending(vals[..n], IntLess))
    ensures forall x :: Any(x, []) in vals[..n] <==> AnyInt(old(vals[..]), isInt, atoi, x)
  {
    hide AnyInt, StrictlyAscending, TotalOrder;
    IntsOrdered();
    n := FilterInts(vals, isInt, atoi);
    n, sorted := Prepare(vals, n, IntLess);
  }

  /** The whole evaluation of an integer IN list, for a list of any length. */
  method IntIn(vals: array<Any>, isInt: seq<bool>, atoi: seq<byte> -> Option<int>, x: int) returns (found: bool)
    requires vals.Length == |isInt|
    modifies vals
    ensures found <==> AnyInt(old(vals[..]), isInt, atoi, x)
  {
    hide AnyInt, StrictlyAscending, TotalOrder;
    var n, sorted := ResolveInts(vals, isInt, atoi);
    IntsOrdered();
    found := Test(vals[..n], sorted, Any(x, []), IntLess);
  }

  // --- text columns ---

  /** The patterns of a text list, prepared once. */
  method ResolveTexts(vals: seq<Any>) returns (patterns: array<seq<byte>>, n: nat, sorted: bool)
    ensures fresh(patterns) && n <= patterns.Length && (sorted ==> StrictlyAscending(patterns[..n], BytesLess))
    ensures forall x :: x in patterns[..n] <==> exists k :: 0 <= k < |vals| && vals[k].s == x
  {
    hide StrictlyAscending, TotalOrder;
    BytesOrdered();
    patterns := new seq<byte>[|vals|](k requires 0 <= k < |vals| => vals[k].s);
    ghost var all := patterns[..];
    forall x ensures x in all <==> exists k :: 0 <= k < |vals| && vals[k].s == x {
      if exists k :: 0 <= k < |vals| && vals[k].s == x {
        var k :| 0 <= k < |vals| && vals[k].s == x;
        assert all[k] == x;
      }
    }
    assert patterns[..patterns.Length] == all;
    n, sorted := Prepare(patterns, patterns.Length, BytesLess);
  }

  /** The whole evaluation of a text IN list. */
  method TextIn(vals: seq<Any>, x: seq<byte>) returns (found: bool)
    ensures found <==> exists k :: 0 <= k < |vals| && vals[k].s == x
  {
    hide StrictlyAscending, TotalOrder;
    var patterns, n, sorted := ResolveTexts(vals);
    BytesOrdered();
    found := Test(patterns[..n], sorted, x, BytesLess);
  }
}
