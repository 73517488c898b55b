/** Placeholder interpolation, written twice: driver/gomdb/gomdb.go and driver/cmdb/cmdb.go. */
module Placeholders {
  import opened Wrappers

  // --- the query's lexical structure ---

  datatype Mode = Open | Single | Double | Bracket

  /** Positions of the `?` outside quotes and brackets, from `i` on; a doubled quote stays inside its literal. */
  function Places(query: string, i: nat, mode: Mode): seq<nat>
    decreases |query| - i
  {
    if i >= |query| then []
    else match mode
      case Open =>
        if query[i] == '?' then [i] + Places(query, i + 1, Open)
        else if query[i] == '\'' then Places(query, i + 1, Single)
        else if query[i] == '"' then Places(query, i + 1, Double)
        else if query[i] == '[' then Places(query, i + 1, Bracket)
        else Places(query, i + 1, Open)
      case Single =>
        if query[i] != '\'' then Places(query, i + 1, Single)
        else if i + 1 < |query| && query[i + 1] == '\'' then Places(query, i + 2, Single)
        else Places(query, i + 1, Open)
      case Double =>
        if query[i] != '"' then Places(query, i + 1, Double)
        else if i + 1 < |query| && query[i + 1] == '"' then Places(query, i + 2, Double)
        else Places(query, i + 1, Open)
      case Bracket => Places(query, i + 1, if query[i] == ']' then Open else Bracket)
  }

  lemma {:induction false} PlacesInRange(query: string, i: nat, mode: Mode)
    ensures forall k :: 0 <= k < |Places(query, i, mode)| ==>
      i <= Places(query, i, mode)[k] < |query| && query[Places(query, i, mode)[k]] == '?'
    ensures forall j, k :: 0 <= j < k < |Places(query, i, mode)| ==> Places(query, i, mode)[j] < Places(query, i, mode)[k]
    decreases |query| - i
  {
    if i < |query| {
      PlacesInRange(query, i + 1, Open);
      PlacesInRange(query, i + 1, Single);
      PlacesInRange(query, i + 1, Double);
      PlacesInRange(query, i + 1, Bracket);
      PlacesInRange(query, i + 2, mode);
    }
  }

  // --- what interpolation means ---

  datatype Outcome = Done(text: string) | NotEnough | Unsupported | TooMany

  predicate Ordered(places: seq<nat>, n: nat) {
    && (forall k :: 0 <= k < |places| ==> places[k] < n)
    && (forall j, k :: 0 <= j < k < |places| ==> places[j] < places[k])
  }

  /** The query up to `i` with its first `k` placeholders replaced. */
  function Filled(query: string, places: seq<nat>, lits: seq<string>, k: nat, i: nat): string
    requires Ordered(places, |query|) && k <= |places| && k <= |lits| && i <= |query| && (k > 0 ==> places[k - 1] < i)
    decreases k
  {
    if k == 0 then query[..i]
    else Filled(query, places, lits, k - 1, places[k - 1]) + lits[k - 1] + query[places[k - 1] + 1..i]
  }

  /** Whether the first `k` arguments can be rendered. */
  predicate Supported<V>(args: seq<V>, lit: V -> Option<string>, k: nat)
    requires k <= |args|
  {
    forall j :: 0 <= j < k ==> lit(args[j]).Some?
  }

  function Literals<V>(args: seq<V>, lit: V -> Option<string>, k: nat): (r: seq<string>)
    requires k <= |args| && Supported(args, lit, k)
    ensures |r| == k && forall j :: 0 <= j < k ==> r[j] == lit(args[j]).value
  {
    seq(k, j requires 0 <= j < k => lit(args[j]).value)
  }

  function Interpolated<V>(query: string, args: seq<V>, lit: V -> Option<string>): Outcome {
    PlacesInRange(query, 0, Open);
    var places := Places(query, 0, Open);
    if !Supported(args, lit, Min(|args|, |places|)) then Unsupported
    else if |args| < |places| then NotEnough
    else if |args| > |places| then TooMany
    else Done(Filled(query, places, Literals(args, lit, |args|), |places|, |query|))
  }

  /** The three flags never disagree about where the scan is. */
  predicate Flags(mode: Mode, inSingle: bool, inDouble: bool, inBracket: bool) {
    inSingle == mode.Single? && inDouble == mode.Double? && inBracket == mode.Bracket?
  }

  /** What has been found before `i`, and what is still ahead. */
  predicate Split(query: string, places: seq<nat>, k: nat, i: nat, mode: Mode) {
    k <= |places| && places[k..] == Places(query, i, mode)
  }

  lemma SplitStart(query: string)
    ensures Split(query, Places(query, 0, Open), 0, 0, Open)
  {
  }

  /** A placeholder is found exactly where the modes say. */
  lemma SplitPlace(query: string, places: seq<nat>, k: nat, i: nat)
    requires i < |query| && query[i] == '?' && Split(query, places, k, i, Open)
    ensures k < |places| && places[k] == i && Split(query, places, k + 1, i + 1, Open)
  {
    assert places[k..][0] == i && places[k..][1..] == places[k + 1..];
  }

  method CountPlaceholders(query: string) returns (count: nat)
    ensures count == |Places(query, 0, Open)|
  {
    count := 0;
    var inSingle, inDouble, inBracket := false, false, false;
    ghost var mode := Open;
    var i := 0;
    while i < |query|
      invariant Flags(mode, inSingle, inDouble, inBracket)
      invariant count + |Places(query, i, mode)| == |Places(query, 0, Open)|
    {
      var ch := query[i];
      if ch == '\'' {
        if inSingle && i + 1 < |query| && query[i + 1] == '\'' {
          i := i + 2;
          continue;
        }
        if !inDouble && !inBracket {
          mode := if inSingle then Open else Single;
          inSingle := !inSingle;
        }
      } else if ch == '"' {
        if inDouble && i + 1 < |query| && query[i + 1] == '"' {
          i := i + 2;
          continue;
        }
        if !inSingle && !inBracket {
          mode := if inDouble then Open else Double;
          inDouble := !inDouble;
        }
      } else if ch == '[' {
        if !inSingle && !inDouble {
          inBracket := true;
          mode := Bracket;
        }
      } else if ch == ']' {
        if !inSingle && !inDouble {
          inBracket := false;
          mode := Open;
        }
      } else if ch == '?' {
        if !inSingle && !inDouble && !inBracket {
          count := count + 1;
        }
      }
      i := i + 1;
    }
  }

  /** Copies the stretches between placeholders as slices. */
  method InterpolateSlices<V>(query: string, args: seq<V>, lit: V -> Option<string>) returns (r: Outcome)
    ensures r == Interpolated(query, args, lit)
    ensures r.Done? <==> |args| == |Places(query, 0, Open)| && forall j :: 0 <= j < |args| ==> lit(args[j]).Some?
  {
    hide Filled, Places, Ordered;
    PlacesInRange(query, 0, Open);
    SplitStart(query);
    ghost var places := Places(query, 0, Open);
    assert Ordered(places, |query|) by { PlacesOrdered(query); }
    var b, argIndex, lastCopy := "", 0, 0;
    var inSingle, inDouble, inBracket := false, false, false;
    ghost var mode := Open;
    FilledFirst(query, places);
    var i := 0;
    while i < |query|
      invariant Flags(mode, inSingle, inDouble, inBracket) && Split(query, places, argIndex, i, mode)
      invariant argIndex <= |args| && Supported(args, lit, argIndex)
      invariant lastCopy == (if argIndex == 0 then 0 else places[argIndex - 1] + 1) <= i
      invariant b == Filled(query, places, Literals(args, lit, argIndex), argIndex, lastCopy)
    {
      var ch := query[i];
      ModeStep(query, places, argIndex, i, mode);
      if ch == '\'' {
        if inSingle && i + 1 < |query| && query[i + 1] == '\'' {
          i := i + 2;
          continue;
        }
        if !inDouble && !inBracket {
          mode := if inSingle then Open else Single;
          inSingle := !inSingle;
        }
      } else if ch == '"' {
        if inDouble && i + 1 < |query| && query[i + 1] == '"' {
          i := i + 2;
          continue;
        }
        if !inSingle && !inBracket {
          mode := if inDouble then Open else Double;
          inDouble := !inDouble;
        }
      } else if ch == '[' {
        if !inSingle && !inDouble {
          inBracket := true;
          mode := Bracket;
        }
      } else if ch == ']' {
        if !inSingle && !inDouble {
          inBracket := false;
          mode := Open;
        }
      } else if ch == '?' {
        if inSingle || inDouble || inBracket {
          i := i + 1;
          continue;
        }
        SplitPlace(query, places, argIndex, i);
        if argIndex >= |args| {
          return NotEnough;
        }
        var l := lit(args[argIndex]);
        if l.None? {
          return Unsupported;
        }
        FilledNext(query, places, args, lit, argIndex, lastCopy, i);
        b := b + query[lastCopy..i];
        b := b + l.value;
        lastCopy := i + 1;
        argIndex := argIndex + 1;
      }
      i := i + 1;
    }
    SplitEnd(query, places, argIndex, i, mode);
    if argIndex != |args| {
      return TooMany;
    }
    FilledTo(query, places, Literals(args, lit, argIndex), argIndex, lastCopy, |query|);
    if argIndex == 0 {
      assert query[lastCopy..|query|] == query && b == "";
      assert "" + query == query;
      return Done(query);
    }
    b := b + query[lastCopy..];
    return Done(b);
  }

  /** Copies byte by byte. */
  method InterpolateBytes<V>(query: string, args: seq<V>, lit: V -> Option<string>) returns (r: Outcome)
    ensures r == Interpolated(query, args, lit)
    ensures r.Done? <==> |args| == |Places(query, 0, Open)| && forall j :: 0 <= j < |args| ==> lit(args[j]).Some?
  {
    hide Filled, Places, Ordered;
    PlacesInRange(query, 0, Open);
    SplitStart(query);
    ghost var places := Places(query, 0, Open);
    assert Ordered(places, |query|) by { PlacesOrdered(query); }
    var b, argIndex := "", 0;
    var inSingle, inDouble, inBracket := false, false, false;
    ghost var mode := Open;
    FilledFirst(query, places);
    var i := 0;
    while i < |query|
      invariant Flags(mode, inSingle, inDouble, inBracket) && Split(query, places, argIndex, i, mode)
      invariant argIndex <= |args| && Supported(args, lit, argIndex) && i <= |query|
      invariant argIndex > 0 ==> places[argIndex - 1] < i
      invariant b == Filled(query, places, Literals(args, lit, argIndex), argIndex, i)
    {
      var ch := query[i];
      ModeStep(query, places, argIndex, i, mode);
      FilledByte(query, places, Literals(args, lit, argIndex), argIndex, i);
      if ch == '\'' {
        b := b + [ch];
        if inSingle && i + 1 < |query| && query[i + 1] == '\'' {
          FilledByte(query, places, Literals(args, lit, argIndex), argIndex, i + 1);
          i := i + 1;
          b := b + [query[i]];
          i := i + 1;
          continue;
        }
        if !inDouble && !inBracket {
          mode := if inSingle then Open else Single;
          inSingle := !inSingle;
        }
      } else if ch == '"' {
        b := b + [ch];
        if inDouble && i + 1 < |query| && query[i + 1] == '"' {
          FilledByte(query, places, Literals(args, lit, argIndex), argIndex, i + 1);
          i := i + 1;
          b := b + [query[i]];
          i := i + 1;
          continue;
        }
        if !inSingle && !inBracket {
          mode := if inDouble then Open else Double;
          inDouble := !inDouble;
        }
      } else if ch == '[' {
        b := b + [ch];
        if !inSingle && !inDouble {
          inBracket := true;
          mode := Bracket;
        }
      } else if ch == ']' {
        b := b + [ch];
        if !inSingle && !inDouble {
          inBracket := false;
          mode := Open;
        }
      } else if ch == '?' {
        if inSingle || inDouble || inBracket {
          b := b + [ch];
          i := i + 1;
          continue;
        }
        SplitPlace(query, places, argIndex, i);
        if argIndex >= |args| {
          return NotEnough;
        }
        var l := lit(args[argIndex]);
        if l.None? {
          return Unsupported;
        }
        FilledHere(query, places, args, lit, argIndex, i);
        b := b + l.value;
        argIndex := argIndex + 1;
      } else {
        b := b + [ch];
      }
      i := i + 1;
    }
    SplitEnd(query, places, argIndex, i, mode);
    if argIndex != |args| {
      return TooMany;
    }
    return Done(b);
  }

  lemma PlacesOrdered(query: string)
    ensures Ordered(Places(query, 0, Open), |query|)
  {
    PlacesInRange(query, 0, Open);
  }

  /** One character moves the modes; placeholders ahead stay the same unless one is passed. */
  lemma ModeStep(query: string, places: seq<nat>, k: nat, i: nat, mode: Mode)
    requires i < |query| && Split(query, places, k, i, mode)
    ensures mode.Open? && query[i] == '\'' ==> Split(query, places, k, i + 1, Single)
    ensures mode.Open? && query[i] == '"' ==> Split(query, places, k, i + 1, Double)
    ensures mode.Open? && query[i] == '[' ==> Split(query, places, k, i + 1, Bracket)
    ensures mode.Open? && query[i] !in ['?', '\'', '"', '['] ==> Split(query, places, k, i + 1, Open)
    ensures mode.Single? && query[i] != '\'' ==> Split(query, places, k, i + 1, Single)
    ensures mode.Single? && query[i] == '\'' ==>
      if i + 1 < |query| && query[i + 1] == '\'' then Split(query, places, k, i + 2, Single) else Split(query, places, k, i + 1, Open)
    ensures mode.Double? && query[i] != '"' ==> Split(query, places, k, i + 1, Double)
    ensures mode.Double? && query[i] == '"' ==>
      if i + 1 < |query| && query[i + 1] == '"' then Split(query, places, k, i + 2, Double) else Split(query, places, k, i + 1, Open)
    ensures mode.Bracket? ==> Split(query, places, k, i + 1, if query[i] == ']' then Open else Bracket)
  {
  }

  lemma SplitEnd(query: string, places: seq<nat>, k: nat, i: nat, mode: Mode)
    requires i >= |query| && Split(query, places, k, i, mode)
    ensures k == |places|
  {
  }

  lemma FilledFirst(query: string, places: seq<nat>)
    requires Ordered(places, |query|)
    ensures Filled(query, places, [], 0, 0) == ""
  {
  }

  lemma FilledTo(query: string, places: seq<nat>, lits: seq<string>, k: nat, from: nat, i: nat)
    requires Ordered(places, |query|) && k <= |places| && k <= |lits| && from <= i <= |query|
    requires from == if k == 0 then 0 else places[k - 1] + 1
    ensures Filled(query, places, lits, k, i) == Filled(query, places, lits, k, from) + query[from..i]
  {
  }

  lemma FilledByte(query: string, places: seq<nat>, lits: seq<string>, k: nat, i: nat)
    requires Ordered(places, |query|) && k <= |places| && k <= |lits| && i < |query| && (k > 0 ==> places[k - 1] < i)
    ensures Filled(query, places, lits, k, i + 1) == Filled(query, places, lits, k, i) + [query[i]]
  {
    if k > 0 { assert query[places[k - 1] + 1..i + 1] == query[places[k - 1] + 1..i] + [query[i]]; }
  }

  lemma {:induction false} FilledSame(query: string, places: seq<nat>, a: seq<string>, b: seq<string>, k: nat, i: nat)
    requires Ordered(places, |query|) && k <= |places| && k <= |a| && k <= |b| && a[..k] == b[..k]
    requires i <= |query| && (k > 0 ==> places[k - 1] < i)
    ensures Filled(query, places, a, k, i) == Filled(query, places, b, k, i)
    decreases k
  {
    if k > 0 {
      assert a[..k - 1] == a[..k][..k - 1] && b[..k - 1] == b[..k][..k - 1];
      assert a[k - 1] == a[..k][k - 1] && b[k - 1] == b[..k][k - 1];
      FilledSame(query, places, a, b, k - 1, places[k - 1]);
    }
  }

  /** Replacing the placeholder at `i`. */
  lemma FilledHere<V>(query: string, places: seq<nat>, args: seq<V>, lit: V -> Option<string>, k: nat, i: nat)
    requires Ordered(places, |query|) && k < |places| && places[k] == i && k < |args| && Supported(args, lit, k)
    requires lit(args[k]).Some? && (k > 0 ==> places[k - 1] < i)
    ensures Supported(args, lit, k + 1)
    ensures Filled(query, places, Literals(args, lit, k + 1), k + 1, i + 1)
         == Filled(query, places, Literals(args, lit, k), k, i) + lit(args[k]).value
  {
    FilledSame(query, places, Literals(args, lit, k + 1), Literals(args, lit, k), k, i);
    assert query[i + 1..i + 1] == "";
  }

  lemma FilledNext<V>(query: string, places: seq<nat>, args: seq<V>, lit: V -> Option<string>, k: nat, from: nat, i: nat)
    requires Ordered(places, |query|) && k < |places| && places[k] == i && k < |args| && Supported(args, lit, k)
    requires lit(args[k]).Some? && from == (if k == 0 then 0 else places[k - 1] + 1) <= i
    ensures Supported(args, lit, k + 1)
    ensures Filled(query, places, Literals(args, lit, k + 1), k + 1, i + 1)
         == Filled(query, places, Literals(args, lit, k), k, from) + query[from..i] + lit(args[k]).value
  {
    FilledHere(query, places, args, lit, k, i);
    FilledTo(query, places, Literals(args, lit, k), k, from, i);
  }

  // --- what both promise ---

  /** How far the first `k` literals push what follows them. */
  function Shift(lits: seq<string>, k: nat): int
    requires k <= |lits|
  {
    if k == 0 then 0 else Shift(lits, k - 1) + |lits[k - 1]| - 1
  }

  lemma {:induction false} FilledLength(query: string, places: seq<nat>, lits: seq<string>, k: nat, i: nat)
    requires Ordered(places, |query|) && k <= |places| && k <= |lits| && i <= |query| && (k > 0 ==> places[k - 1] < i)
    ensures |Filled(query, places, lits, k, i)| == i + Shift(lits, k)
    decreases k
  {
    if k > 0 { FilledLength(query, places, lits, k - 1, places[k - 1]); }
  }

  /** A byte after the first `j` placeholders is found where the literals before it push it. */
  lemma {:induction false} ByteAt(query: string, places: seq<nat>, lits: seq<string>, k: nat, i: nat, j: nat, p: nat)
    requires Ordered(places, |query|) && k <= |places| && k <= |lits| && i <= |query| && (k > 0 ==> places[k - 1] < i)
    requires j <= k && p < i && (j > 0 ==> places[j - 1] < p) && (j < k ==> p < places[j])
    ensures var text := Filled(query, places, lits, k, i);
            0 <= p + Shift(lits, j) < |text| && text[p + Shift(lits, j)] == query[p]
    decreases k
  {
    if k > 0 {
      FilledLength(query, places, lits, k - 1, places[k - 1]);
      if j < k { ByteAt(query, places, lits, k - 1, places[k - 1], j, p); }
    }
  }

  /** The literal of placeholder `j` stands in its place. */
  lemma {:induction false} LiteralAt(query: string, places: seq<nat>, lits: seq<string>, k: nat, i: nat, j: nat)
    requires Ordered(places, |query|) && k <= |places| && k <= |lits| && i <= |query| && (k > 0 ==> places[k - 1] < i)
    requires j < k
    ensures var text, from := Filled(query, places, lits, k, i), places[j] + Shift(lits, j);
            0 <= from && from + |lits[j]| <= |text| && text[from..from + |lits[j]|] == lits[j]
    decreases k
  {
    var front := Filled(query, places, lits, k - 1, places[k - 1]);
    FilledLength(query, places, lits, k - 1, places[k - 1]);
    if j < k - 1 {
      LiteralAt(query, places, lits, k - 1, places[k - 1], j);
      var from := places[j] + Shift(lits, j);
      assert Filled(query, places, lits, k, i)[..|front|] == front;
    }
  }

  /**
   A successful interpolation, byte by byte: its length, the `j`-th literal where the `j`-th
   placeholder was, and every byte `p` of the query that is no placeholder, with `j` placeholders before it.
   */
  lemma InPlace<V>(query: string, args: seq<V>, lit: V -> Option<string>, j: nat, p: nat)
    requires Interpolated(query, args, lit).Done?
    ensures |Places(query, 0, Open)| == |args| && Supported(args, lit, |args|)
    ensures var text, lits, places := Interpolated(query, args, lit).text, Literals(args, lit, |args|), Places(query, 0, Open);
            && |text| == |query| + Shift(lits, |lits|)
            && (j < |lits| ==>
                  var from := places[j] + Shift(lits, j);
                  0 <= from && from + |lits[j]| <= |text| && text[from..from + |lits[j]|] == lits[j])
            && (j <= |lits| && p < |query| && (j > 0 ==> places[j - 1] < p) && (j < |lits| ==> p < places[j]) ==>
                  0 <= p + Shift(lits, j) < |text| && text[p + Shift(lits, j)] == query[p])
  {
    hide Places, Filled, Shift, Ordered;
    PlacesOrdered(query);
    PlacesWithin(query);
    var lits, places := Literals(args, lit, |args|), Places(query, 0, Open);
    FilledLength(query, places, lits, |lits|, |query|);
    if j < |lits| { LiteralAt(query, places, lits, |lits|, |query|, j); }
    if j <= |lits| && p < |query| && (j > 0 ==> places[j - 1] < p) && (j < |lits| ==> p < places[j]) {
      ByteAt(query, places, lits, |lits|, |query|, j, p);
    }
  }

  lemma PlacesWithin(query: string)
    ensures forall k :: 0 <= k < |Places(query, 0, Open)| ==> Places(query, 0, Open)[k] < |query|
  {
    PlacesInRange(query, 0, Open);
  }

  // --- the placeholders of a query as it is written ---

  /** A stretch of a query; the last three are left open at its end. */
  datatype Part =
    | Plain(s: string) | Ask | Literal(s: string) | Named(s: string) | Bracketed(s: string)
    | OpenLiteral(s: string) | OpenName(s: string) | OpenBracket(s: string)

  /** The character only in pairs. */
  predicate InPairs(s: string, c: char) {
    s == "" || (s[0] != c && InPairs(s[1..], c)) || (|s| > 1 && s[0] == c == s[1] && InPairs(s[2..], c))
  }

  predicate PartOk(p: Part) {
    match p
    case Plain(s) => '?' !in s && '\'' !in s && '"' !in s && '[' !in s
    case Ask => true
    case Literal(s) => InPairs(s, '\'')
    case OpenLiteral(s) => InPairs(s, '\'')
    case Named(s) => InPairs(s, '"')
    case OpenName(s) => InPairs(s, '"')
    case Bracketed(s) => ']' !in s
    case OpenBracket(s) => ']' !in s
  }

  function Spelling(p: Part): string {
    match p
    case Plain(s) => s
    case Ask => "?"
    case Literal(s) => "'" + s + "'"
    case OpenLiteral(s) => "'" + s
    case Named(s) => "\"" + s + "\""
    case OpenName(s) => "\"" + s
    case Bracketed(s) => "[" + s + "]"
    case OpenBracket(s) => "[" + s
  }

  function Spelled(ps: seq<Part>): string { if ps == [] then "" else Spelling(ps[0]) + Spelled(ps[1..]) }

  /** Nothing follows an open part, and no literal or name is followed by another quote of its kind. */
  predicate Apart(p: Part, next: string) {
    && (p.OpenLiteral? || p.OpenName? || p.OpenBracket? ==> next == "")
    && (p.Literal? ==> next == "" || next[0] != '\'')
    && (p.Named? ==> next == "" || next[0] != '"')
  }

  predicate WellSpelled(ps: seq<Part>) {
    ps == [] || (PartOk(ps[0]) && Apart(ps[0], Spelled(ps[1..])) && WellSpelled(ps[1..]))
  }

  /** Where the question marks stand that are parts of their own. */
  function Asked(ps: seq<Part>, at: nat): seq<nat> {
    if ps == [] then [] else (if ps[0].Ask? then [at] else []) + Asked(ps[1..], at + |Spelling(ps[0])|)
  }

  predicate StandsAt(text: string, query: string, i: nat) { i + |text| <= |query| && query[i..i + |text|] == text }

  lemma CharAt(text: string, query: string, i: nat, k: nat)
    requires StandsAt(text, query, i) && k < |text|
    ensures query[i + k] == text[k]
  {
    assert query[i..i + |text|][k] == query[i + k];
  }

  lemma TailAt(text: string, query: string, i: nat, k: nat)
    requires StandsAt(text, query, i) && k <= |text|
    ensures StandsAt(text[k..], query, i + k) && StandsAt(text[..k], query, i)
  {
    assert query[i + k..i + |text|] == query[i..i + |text|][k..];
    assert query[i..i + k] == query[i..i + |text|][..k];
  }

  lemma {:induction false} PlainPart(s: string, query: string, i: nat)
    requires PartOk(Plain(s)) && StandsAt(s, query, i)
    ensures Places(query, i, Open) == Places(query, i + |s|, Open)
    decreases |s|
  {
    if s != "" {
      CharAt(s, query, i, 0);
      TailAt(s, query, i, 1);
      PlainPart(s[1..], query, i + 1);
    }
  }

  lemma {:induction false} BracketPart(s: string, query: string, i: nat)
    requires ']' !in s && StandsAt(s, query, i)
    ensures Places(query, i, Bracket) == Places(query, i + |s|, Bracket)
    decreases |s|
  {
    if s != "" {
      CharAt(s, query, i, 0);
      TailAt(s, query, i, 1);
      BracketPart(s[1..], query, i + 1);
    }
  }

  lemma {:induction false} QuotedPart(s: string, query: string, i: nat, mode: Mode)
    requires (mode == Single && InPairs(s, '\'')) || (mode == Double && InPairs(s, '"'))
    requires StandsAt(s, query, i)
    ensures Places(query, i, mode) == Places(query, i + |s|, mode)
    decreases |s|
  {
    if s != "" {
      CharAt(s, query, i, 0);
      TailAt(s, query, i, 1);
      if s[0] != (if mode == Single then '\'' else '"') {
        QuotedPart(s[1..], query, i + 1, mode);
      } else {
        CharAt(s, query, i, 1);
        TailAt(s, query, i, 2);
        QuotedPart(s[2..], query, i + 2, mode);
      }
    }
  }

  /** What follows the text at `i` in the query. */
  predicate FollowedBy(text: string, next: string, query: string, i: nat) {
    StandsAt(text, query, i) && query[i + |text|..] == next
  }

  lemma NextChar(text: string, next: string, query: string, i: nat)
    requires FollowedBy(text, next, query, i)
    ensures next == "" <==> i + |text| == |query|
    ensures next != "" ==> next[0] == query[i + |text|]
  {
  }

  lemma Enclosed(c: char, s: string, close: string, query: string, i: nat)
    requires |close| <= 1 && StandsAt([c] + s + close, query, i)
    ensures i + 1 + |s| + |close| <= |query| && query[i] == c && StandsAt(s, query, i + 1)
    ensures close != "" ==> query[i + 1 + |s|] == close[0]
  {
    var text := [c] + s + close;
    CharAt(text, query, i, 0);
    if close != "" { CharAt(text, query, i, 1 + |s|); }
    TailAt(text, query, i, 1);
    assert text[1..] == s + close;
    TailAt(text[1..], query, i + 1, |s|);
    assert text[1..][..|s|] == s;
  }

  lemma QuoteOpens(query: string, i: nat, mode: Mode)
    requires i < |query| && ((mode == Single && query[i] == '\'') || (mode == Double && query[i] == '"') || (mode == Bracket && query[i] == '['))
    ensures Places(query, i, Open) == Places(query, i + 1, mode)
  {
  }

  lemma QuoteCloses(query: string, i: nat, mode: Mode, c: char)
    requires mode != Open && c == if mode == Single then '\'' else if mode == Double then '"' else ']'
    requires i < |query| ==> query[i] == c
    requires i + 1 < |query| && mode != Bracket ==> query[i + 1] != c
    ensures Places(query, i, mode) == Places(query, i + 1, Open)
  {
  }

  /** A literal or a name is passed as a whole; an open one takes the rest of the query. */
  lemma EnclosedPart(c: char, mode: Mode, s: string, close: string, next: string, query: string, i: nat)
    requires (c == '\'' && mode == Single) || (c == '"' && mode == Double)
    requires InPairs(s, c) && FollowedBy([c] + s + close, next, query, i)
    requires if close == "" then next == "" else close == [c] && (next == "" || next[0] != c)
    ensures Places(query, i, Open) == Places(query, i + |s| + 1 + |close|, Open)
  {
    hide Places, StandsAt, InPairs;
    Enclosed(c, s, close, query, i);
    NextChar([c] + s + close, next, query, i);
    QuoteOpens(query, i, mode);
    QuotedPart(s, query, i + 1, mode);
    QuoteCloses(query, i + 1 + |s|, mode, c);
    if close == "" { PlacesEnd(query, |query|); PlacesEnd(query, |query| + 1); }
  }

  lemma BracketedPart(s: string, close: string, next: string, query: string, i: nat)
    requires ']' !in s && FollowedBy("[" + s + close, next, query, i) && (if close == "" then next == "" else close == "]")
    ensures Places(query, i, Open) == Places(query, i + |s| + 1 + |close|, Open)
  {
    hide Places, StandsAt;
    Enclosed('[', s, close, query, i);
    NextChar("[" + s + close, next, query, i);
    QuoteOpens(query, i, Bracket);
    BracketPart(s, query, i + 1);
    QuoteCloses(query, i + 1 + |s|, Bracket, ']');
    if close == "" { PlacesEnd(query, |query|); PlacesEnd(query, |query| + 1); }
  }

  lemma OnePart(p: Part, next: string, query: string, i: nat)
    requires PartOk(p) && Apart(p, next) && FollowedBy(Spelling(p), next, query, i)
    ensures Places(query, i, Open) == (if p.Ask? then [i] else []) + Places(query, i + |Spelling(p)|, Open)
  {
    hide Places;
    match p
    case Plain(s) => PlainPart(s, query, i);
    case Ask =>
      CharAt("?", query, i, 0);
      AskHere(query, i);
    case Literal(s) => EnclosedPart('\'', Single, s, "'", next, query, i);
    case Named(s) => EnclosedPart('"', Double, s, "\"", next, query, i);
    case OpenLiteral(s) =>
      assert "'" + s + "" == "'" + s;
      EnclosedPart('\'', Single, s, "", next, query, i);
    case OpenName(s) =>
      assert "\"" + s + "" == "\"" + s;
      EnclosedPart('"', Double, s, "", next, query, i);
    case Bracketed(s) => BracketedPart(s, "]", next, query, i);
    case OpenBracket(s) =>
      assert "[" + s + "" == "[" + s;
      BracketedPart(s, "", next, query, i);
  }

  lemma AskHere(query: string, i: nat)
    requires i < |query| && query[i] == '?'
    ensures Places(query, i, Open) == [i] + Places(query, i + 1, Open)
  {
  }

  lemma {:induction false} PlacesAsked(ps: seq<Part>, query: string, i: nat)
    requires WellSpelled(ps) && i <= |query| && query[i..] == Spelled(ps)
    ensures Places(query, i, Open) == Asked(ps, i)
  {
    hide Places, PartOk, Apart, Spelling;
    if ps == [] {
      PlacesEnd(query, i);
    } else {
      var text, rest := Spelling(ps[0]), Spelled(ps[1..]);
      assert query[i..] == text + rest;
      assert query[i..i + |text|] == (text + rest)[..|text|] == text;
      assert query[i + |text|..] == (text + rest)[|text|..] == rest;
      OnePart(ps[0], rest, query, i);
      PlacesAsked(ps[1..], query, i + |text|);
    }
  }

  lemma PlacesEnd(query: string, i: nat)
    requires i >= |query|
    ensures Places(query, i, Open) == []
  {
  }

  /** The placeholders of a query are its own question marks: none in a literal, a quoted name or brackets. */
  lemma PlacesExact(ps: seq<Part>)
    requires WellSpelled(ps)
    ensures Places(Spelled(ps), 0, Open) == Asked(ps, 0)
  {
    assert Spelled(ps)[0..] == Spelled(ps);
    PlacesAsked(ps, Spelled(ps), 0);
  }

  /** Which error is reported: an argument that cannot be rendered before one that is missing, and that before one too many. */
  lemma ErrorsExact<V>(ps: seq<Part>, args: seq<V>, lit: V -> Option<string>)
    requires WellSpelled(ps)
    ensures var n, r := |Asked(ps, 0)|, Interpolated(Spelled(ps), args, lit);
      && (r.Unsupported? <==> exists j :: 0 <= j < |args| && j < n && lit(args[j]).None?)
      && (r.NotEnough? <==> |args| < n && forall j :: 0 <= j < |args| ==> lit(args[j]).Some?)
      && (r.TooMany? <==> |args| > n && forall j :: 0 <= j < n ==> lit(args[j]).Some?)
  {
    hide Places, Filled, Asked;
    PlacesExact(ps);
  }
}
