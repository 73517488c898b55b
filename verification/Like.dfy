/** The LIKE matcher: internal/gomdb/like.go. */
module Like {
  import opened Bytes
  import opened Utf

  const PERCENT: byte := 0x25
  const UNDERSCORE: byte := 0x5F

  /** What a pattern means: `%` is any run of bytes, `_` any one byte, the rest stand for themselves. */
  predicate Match(s: seq<byte>, r: seq<byte>)
    decreases |s| + |r|
  {
    if r == [] then s == []
    else if r[0] == PERCENT then Match(s, r[1..]) || (s != [] && Match(s[1..], r))
    else s != [] && (r[0] == UNDERSCORE || r[0] == s[0]) && Match(s[1..], r[1..])
  }

  predicate OnlyPercents(r: seq<byte>) { forall k :: 0 <= k < |r| ==> r[k] == PERCENT }

  /** The answer the loop reaches from a given state; `star` is -1 until a `%` has been passed. */
  predicate Search(s: seq<byte>, r: seq<byte>, si: nat, ri: nat, star: int, starMatch: nat)
    requires si <= |s| && ri <= |r| && -1 <= star < |r| && starMatch <= si
    decreases |s| - starMatch, |r| - star, |s| - si
  {
    if si == |s| then OnlyPercents(r[ri..])
    else if ri < |r| && (r[ri] == UNDERSCORE || r[ri] == s[si]) then Search(s, r, si + 1, ri + 1, star, starMatch)
    else if ri < |r| && r[ri] == PERCENT && ri > star then Search(s, r, si, ri + 1, ri, si)
    else if star >= 0 then Search(s, r, starMatch + 1, star + 1, star, starMatch + 1)
    else false
  }

  method LikeCmpBytes(s: seq<byte>, r: seq<byte>) returns (ok: bool)
    ensures ok == Search(s, r, 0, 0, -1, 0)
    ensures ok ==> Match(s, r)
    ensures PERCENT !in s ==> (ok <==> Match(s, r))
  {
    var si, ri, star, starMatch := 0, 0, -1, 0;
    while si < |s|
      invariant 0 <= starMatch <= si <= |s| && -1 <= star < ri <= |r|
      invariant Search(s, r, 0, 0, -1, 0) == Search(s, r, si, ri, star, starMatch)
      decreases |s| - starMatch, |r| - star, |s| - si
    {
      if ri < |r| && (r[ri] == UNDERSCORE || r[ri] == s[si]) {
        si := si + 1;
        ri := ri + 1;
        continue;
      }
      if ri < |r| && r[ri] == PERCENT {
        star := ri;
        ri := ri + 1;
        starMatch := si;
        continue;
      }
      if star >= 0 {
        starMatch := starMatch + 1;
        si := starMatch;
        ri := star + 1;
        continue;
      }
      SearchMeans(s, r);
      return false;
    }
    ghost var from := ri;
    while ri < |r| && r[ri] == PERCENT
      invariant from <= ri <= |r| && forall k :: from <= k < ri ==> r[k] == PERCENT
    {
      ri := ri + 1;
    }
    ok := ri == |r|;
    if ri < |r| { assert r[from..][ri - from] != PERCENT; }
    SearchMeans(s, r);
  }

  lemma SearchMeans(s: seq<byte>, r: seq<byte>)
    ensures Search(s, r, 0, 0, -1, 0) ==> Match(s, r)
    ensures PERCENT !in s ==> (Search(s, r, 0, 0, -1, 0) <==> Match(s, r))
  {
    assert s[0..] == s && r[0..] == r;
    SearchSound(s, r, 0, 0, -1, 0);
    if PERCENT !in s { SearchComplete(s, r, 0, 0, -1, 0); }
  }

  // --- steps of the meaning ---

  lemma MatchStep(s: seq<byte>, r: seq<byte>, i: nat, j: nat)
    requires i <= |s| && j < |r|
    ensures r[j] == PERCENT ==>
      (Match(s[i..], r[j..]) <==> Match(s[i..], r[j + 1..]) || (i < |s| && Match(s[i + 1..], r[j..])))
    ensures r[j] != PERCENT ==>
      (Match(s[i..], r[j..]) <==>
       i < |s| && (r[j] == UNDERSCORE || r[j] == s[i]) && Match(s[i + 1..], r[j + 1..]))
  {
    assert r[j..][1..] == r[j + 1..];
    if i < |s| { assert s[i..][1..] == s[i + 1..]; }
  }

  lemma {:induction false} MatchNothing(r: seq<byte>)
    ensures Match([], r) <==> OnlyPercents(r)
  {
    if r != [] {
      MatchNothing(r[1..]);
      assert OnlyPercents(r) ==> OnlyPercents(r[1..]);
      assert r[0] == PERCENT && OnlyPercents(r[1..]) ==> OnlyPercents(r) by {
        assert forall k :: 0 < k < |r| ==> r[k] == r[1..][k - 1];
      }
    }
  }

  /** A pattern that starts with `%` may skip bytes. */
  lemma {:induction false} StarSkips(s: seq<byte>, r: seq<byte>, i: nat, m: nat, j: nat)
    requires i <= m <= |s| && j < |r| && r[j] == PERCENT && Match(s[m..], r[j..])
    ensures Match(s[i..], r[j..])
    decreases m - i
  {
    if i < m {
      StarSkips(s, r, i + 1, m, j);
      MatchStep(s, r, i, j);
    }
  }

  /** Between two stars every pattern byte takes one subject byte. */
  lemma {:induction false} SegmentConsumes(s: seq<byte>, r: seq<byte>, m: nat, j: nat, ri: nat)
    requires m <= |s| && j <= ri < |r| && forall k :: j <= k < ri ==> r[k] != PERCENT
    requires Match(s[m..], r[j..])
    ensures m + (ri - j) <= |s| && Match(s[m + (ri - j)..], r[ri..])
    decreases ri - j
  {
    if j < ri {
      MatchStep(s, r, m, j);
      SegmentConsumes(s, r, m + 1, j + 1, ri);
    }
  }

  /** An earlier star has nothing to offer that the next star does not. */
  lemma {:induction false} LaterStarSuffices(s: seq<byte>, r: seq<byte>, m: nat, star: nat, si: nat, ri: nat)
    requires m <= |s| && star < ri < |r| && r[star] == PERCENT == r[ri]
    requires forall k :: star < k < ri ==> r[k] != PERCENT
    requires si <= m + (ri - star - 1) && si <= |s| && Match(s[m..], r[star..])
    ensures Match(s[si..], r[ri..])
    decreases |s| - m
  {
    MatchStep(s, r, m, star);
    if Match(s[m..], r[star + 1..]) {
      SegmentConsumes(s, r, m, star + 1, ri);
      StarSkips(s, r, si, m + (ri - star - 1), ri);
    } else {
      LaterStarSuffices(s, r, m + 1, star, si, ri);
    }
  }

  // --- the loop against the meaning ---

  /** What is still possible: go on from here, or let the last star take one more byte. */
  predicate Live(s: seq<byte>, r: seq<byte>, si: nat, ri: nat, star: int, starMatch: nat)
    requires si <= |s| && ri <= |r| && -1 <= star < |r| && starMatch <= si
  {
    Match(s[si..], r[ri..]) || (star >= 0 && starMatch < |s| && Match(s[starMatch + 1..], r[star..]))
  }

  lemma {:induction false} SearchSound(s: seq<byte>, r: seq<byte>, si: nat, ri: nat, star: int, starMatch: nat)
    requires si <= |s| && -1 <= star < ri <= |r| && starMatch <= si && (star >= 0 ==> r[star] == PERCENT)
    ensures Search(s, r, si, ri, star, starMatch) ==> Live(s, r, si, ri, star, starMatch)
    decreases |s| - starMatch, |r| - star, |s| - si
  {
    hide Match;
    if si == |s| {
      assert s[si..] == [];
      MatchNothing(r[ri..]);
    } else if ri < |r| && (r[ri] == UNDERSCORE || r[ri] == s[si]) {
      SearchSound(s, r, si + 1, ri + 1, star, starMatch);
      MatchStep(s, r, si, ri);
      if r[ri] == PERCENT { MatchStep(s, r, si + 1, ri); }
    } else if ri < |r| && r[ri] == PERCENT {
      SearchSound(s, r, si, ri + 1, ri, si);
      MatchStep(s, r, si, ri);
    } else if star >= 0 {
      SearchSound(s, r, starMatch + 1, star + 1, star, starMatch + 1);
      MatchStep(s, r, starMatch + 1, star);
    }
  }

  lemma {:induction false} SearchComplete(s: seq<byte>, r: seq<byte>, si: nat, ri: nat, star: int, starMatch: nat)
    requires PERCENT !in s
    requires si <= |s| && -1 <= star < ri <= |r| && starMatch <= si
    requires star >= 0 ==> r[star] == PERCENT && si - starMatch == ri - star - 1
    requires star >= 0 ==> forall k :: star < k < ri ==> r[k] != PERCENT
    ensures Live(s, r, si, ri, star, starMatch) ==> Search(s, r, si, ri, star, starMatch)
    decreases |s| - starMatch, |r| - star, |s| - si
  {
    hide Match;
    if si == |s| {
      assert s[si..] == [];
      MatchNothing(r[ri..]);
      if star >= 0 && starMatch < |s| && Match(s[starMatch + 1..], r[star..]) && !OnlyPercents(r[ri..]) {
        EndOfSubject(s, r, starMatch + 1, star, ri);
      }
    } else if ri < |r| && (r[ri] == UNDERSCORE || r[ri] == s[si]) {
      MatchStep(s, r, si, ri);
      SearchComplete(s, r, si + 1, ri + 1, star, starMatch);
    } else if ri < |r| && r[ri] == PERCENT {
      MatchStep(s, r, si, ri);
      SearchComplete(s, r, si, ri + 1, ri, si);
      if star >= 0 && starMatch < |s| && Match(s[starMatch + 1..], r[star..]) {
        LaterStarSuffices(s, r, starMatch + 1, star, si, ri);
      }
    } else {
      if ri < |r| {
        MatchStep(s, r, si, ri);
      } else {
        PatternEnded(s, si, r);
      }
      if star >= 0 {
        MatchStep(s, r, starMatch + 1, star);
        SearchComplete(s, r, starMatch + 1, star + 1, star, starMatch + 1);
      }
    }
  }

  lemma PatternEnded(s: seq<byte>, si: nat, r: seq<byte>)
    requires si < |s|
    ensures !Match(s[si..], r[|r|..])
  {
  }

  /** With the subject used up, letting the star take more leaves too few bytes for what follows it. */
  lemma {:induction false} EndOfSubject(s: seq<byte>, r: seq<byte>, m: nat, star: nat, ri: nat)
    requires m <= |s| && star < ri <= |r| && r[star] == PERCENT && forall k :: star < k < ri ==> r[k] != PERCENT
    requires |s| < m + (ri - star - 1)
    ensures !Match(s[m..], r[star..])
    decreases |s| - m
  {
    hide Match;
    MatchStep(s, r, m, star);
    if Match(s[m..], r[star + 1..]) {
      TooShort(s, r, m, star + 1, ri);
    }
    if m < |s| { EndOfSubject(s, r, m + 1, star, ri); }
  }

  lemma {:induction false} TooShort(s: seq<byte>, r: seq<byte>, m: nat, j: nat, ri: nat)
    requires m <= |s| && j <= ri <= |r| && (forall k :: j <= k < ri ==> r[k] != PERCENT) && |s| - m < ri - j
    ensures !Match(s[m..], r[j..])
    decreases ri - j
  {
    MatchStep(s, r, m, j);
    if m < |s| { TooShort(s, r, m + 1, j + 1, ri); }
  }

  // --- exactly when the matcher is right ---

  /** A pattern on which the matcher is wrong: its `%` is spent on the subject's own `%`. */
  function Fooling(s: seq<byte>, i: nat): seq<byte>
    requires i < |s|
  {
    if i + 1 < |s| then s[..i] + [PERCENT] else s[..i] + [PERCENT, UNDERSCORE]
  }

  lemma {:induction false} LiteralPrefix(s: seq<byte>, r: seq<byte>, k: nat, i: nat)
    requires k <= i <= |s| && i <= |r| && r[..i] == s[..i]
    requires forall j :: 0 <= j < i ==> s[j] != PERCENT
    ensures Search(s, r, k, k, -1, 0) == Search(s, r, i, i, -1, 0)
    ensures Match(s[i..], r[i..]) ==> Match(s[k..], r[k..])
    decreases i - k
  {
    hide Match;
    if k < i {
      assert r[k] == r[..i][k] == s[..i][k];
      LiteralPrefix(s, r, k + 1, i);
      MatchStep(s, r, k, k);
    }
  }

  lemma FooledAt(s: seq<byte>, i: nat)
    requires i < |s| && s[i] == PERCENT && forall j :: 0 <= j < i ==> s[j] != PERCENT
    ensures Match(s, Fooling(s, i)) && !Search(s, Fooling(s, i), 0, 0, -1, 0)
  {
    var r := Fooling(s, i);
    assert r[0..] == r && s[0..] == s && r[..i] == s[..i];
    if i + 1 < |s| {
      AnyTail(s, r, i);
    } else {
      MatchStep(s, r, i, i);
      MatchStep(s, r, i, i + 1);
      assert s[i + 1..] == [] && r[i + 2..] == [];
      assert r[i + 1..][0] == UNDERSCORE;
    }
    LiteralPrefix(s, r, 0, i);
  }

  lemma {:induction false} AnyTail(s: seq<byte>, r: seq<byte>, i: nat)
    requires i <= |s| && |r| > 0 && r[|r| - 1] == PERCENT
    ensures Match(s[i..], r[|r| - 1..])
    decreases |s| - i
  {
    MatchStep(s, r, i, |r| - 1);
    if i < |s| { AnyTail(s, r, i + 1); }
  }

  /** The matcher gives the pattern's meaning for every pattern exactly when the subject holds no `%`. */
  lemma LikeExact(s: seq<byte>)
    ensures PERCENT !in s <==> forall r :: Search(s, r, 0, 0, -1, 0) == Match(s, r)
  {
    if PERCENT in s {
      var i := FirstPercent(s, 0);
      FooledAt(s, i);
    } else {
      forall r ensures Search(s, r, 0, 0, -1, 0) == Match(s, r) { SearchMeans(s, r); }
    }
  }

  function FirstPercent(s: seq<byte>, i: nat): (k: nat)
    requires i <= |s| && PERCENT in s && forall j :: 0 <= j < i ==> s[j] != PERCENT
    ensures k < |s| && s[k] == PERCENT && forall j :: 0 <= j < k ==> s[j] != PERCENT
    decreases |s| - i
  {
    if s[i] == PERCENT then i else FirstPercent(s, i + 1)
  }

  // --- the meaning as a division of the subject ---

  function Join(pieces: seq<seq<byte>>): seq<byte> { if pieces == [] then [] else pieces[0] + Join(pieces[1..]) }

  /** What one pattern byte may stand for: `%` for any bytes, `_` for any one byte, others for themselves. */
  predicate StandsFor(p: byte, piece: seq<byte>) {
    if p == 0x25 then true else if p == 0x5F then |piece| == 1 else piece == [p]
  }

  predicate Divides(pieces: seq<seq<byte>>, s: seq<byte>, r: seq<byte>) {
    Join(pieces) == s && |pieces| == |r| && forall k :: 0 <= k < |r| ==> StandsFor(r[k], pieces[k])
  }

  lemma {:induction false} MatchDivides(s: seq<byte>, r: seq<byte>) returns (pieces: seq<seq<byte>>)
    requires Match(s, r)
    ensures Divides(pieces, s, r)
    decreases |s| + |r|
  {
    if r == [] {
      pieces := [];
    } else if r[0] == PERCENT && !Match(s, r[1..]) {
      var rest := MatchDivides(s[1..], r);
      pieces := [[s[0]] + rest[0]] + rest[1..];
      assert pieces[1..] == rest[1..];
      assert [s[0]] + rest[0] + Join(rest[1..]) == [s[0]] + (rest[0] + Join(rest[1..]));
      assert s == [s[0]] + s[1..];
    } else {
      var taken := if r[0] == PERCENT then 0 else 1;
      var rest := MatchDivides(s[taken..], r[1..]);
      pieces := [s[..taken]] + rest;
      assert pieces[1..] == rest && s == s[..taken] + s[taken..];
    }
  }

  lemma {:induction false} DividesMatch(pieces: seq<seq<byte>>, s: seq<byte>, r: seq<byte>)
    requires Divides(pieces, s, r)
    ensures Match(s, r)
    decreases |s| + |r|
  {
    if r != [] {
      var piece, rest := pieces[0], pieces[1..];
      if piece == [] {
        assert [] + Join(rest) == Join(rest);
        DividesMatch(rest, s, r[1..]);
      } else if r[0] == PERCENT {
        assert s == [piece[0]] + (piece[1..] + Join(rest)) && s[1..] == piece[1..] + Join(rest);
        assert ([piece[1..]] + rest)[1..] == rest;
        DividesMatch([piece[1..]] + rest, s[1..], r);
      } else {
        assert s == [piece[0]] + Join(rest) && s[1..] == Join(rest);
        DividesMatch(rest, s[1..], r[1..]);
      }
    }
  }

  /** A subject matches exactly if it can be cut into one piece for every byte of the pattern. */
  lemma MatchMeans(s: seq<byte>, r: seq<byte>)
    ensures Match(s, r) <==> exists pieces :: Divides(pieces, s, r)
  {
    hide Match, Divides;
    if Match(s, r) { var pieces := MatchDivides(s, r); }
    forall pieces | Divides(pieces, s, r) ensures Match(s, r) { DividesMatch(pieces, s, r); }
  }
}
