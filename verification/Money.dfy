/** Currency and numeric fields as exact decimal strings: internal/gomdb/money.go. */
module Money {
  /** One byte; every sum below is shown to stay in range. */
  newtype Byte = x: int | 0 <= x < 256

  const MONEY_DIGITS: nat := 20
  const NUMERIC_DIGITS: nat := 40

  function Pow(b: nat, e: nat): (p: nat)
    ensures b > 0 ==> p > 0
  {
    if e == 0 then 1
    else
      Positive(b, Pow(b, e - 1));
      b * Pow(b, e - 1)
  }

  lemma Positive(a: nat, b: nat)
    ensures a > 0 && b > 0 ==> a * b > 0
    ensures a * b >= 0
  {
  }

  /** What an array stands for in base `b`, lowest place first. */
  function Value(b: nat, s: seq<Byte>): nat { if s == [] then 0 else s[0] as int + b * Value(b, s[1..]) }

  predicate Digits(s: seq<Byte>) { forall k :: 0 <= k < |s| ==> s[k] <= 9 }

  // --- arithmetic ---

  lemma Shift(b: int, x: int, d: int, p: int)
    ensures b * (x + d * p) == b * x + d * (b * p)
  {
  }

  lemma ValueStep(b: nat, s: seq<Byte>)
    requires s != []
    ensures Value(b, s) == s[0] as int + b * Value(b, s[1..])
  {
  }

  lemma PowStep(b: nat, e: nat)
    requires e > 0
    ensures Pow(b, e) == b * Pow(b, e - 1)
  {
  }

  lemma PowZero(b: nat)
    ensures Pow(b, 0) == 1 && Value(b, []) == 0
  {
  }

  lemma {:induction false} ValueUpdate(b: nat, s: seq<Byte>, k: nat, v: Byte)
    requires k < |s|
    ensures Value(b, s[k := v]) == Value(b, s) + (v as int - s[k] as int) * Pow(b, k)
    decreases |s|
  {
    hide Value, Pow;
    ValueStep(b, s);
    ValueStep(b, s[k := v]);
    PowZero(b);
    if k == 0 {
      assert s[0 := v][1..] == s[1..];
    } else {
      ValueUpdate(b, s[1..], k - 1, v);
      assert s[k := v][1..] == s[1..][k - 1 := v];
      PowStep(b, k);
      Shift(b, Value(b, s[1..]), v as int - s[k] as int, Pow(b, k - 1));
    }
  }

  lemma LessTimes(b: nat, d: nat, x: nat, p: nat)
    requires d < b && x < p
    ensures d + b * x < b * p
  {
    assert b * x <= b * (p - 1);
    assert b * (p - 1) == b * p - b;
  }

  lemma {:induction false} ValueBound(b: nat, s: seq<Byte>)
    requires b > 0 && forall k :: 0 <= k < |s| ==> s[k] as int < b
    ensures Value(b, s) < Pow(b, |s|)
  {
    hide Value, Pow;
    PowZero(b);
    if s != [] {
      ValueStep(b, s);
      PowStep(b, |s|);
      ValueBound(b, s[1..]);
      LessTimes(b, s[0] as int, Value(b, s[1..]), Pow(b, |s| - 1));
    }
  }

  lemma {:induction false} ValueSnoc(b: nat, s: seq<Byte>, k: nat)
    requires k < |s|
    ensures Value(b, s[..k + 1]) == Value(b, s[..k]) + s[k] as int * Pow(b, k)
    decreases k
  {
    hide Value, Pow;
    PowZero(b);
    ValueStep(b, s[..k + 1]);
    if k > 0 {
      ValueSnoc(b, s[1..], k - 1);
      assert s[..k + 1][1..] == s[1..][..k] && s[..k][1..] == s[1..][..k - 1];
      ValueStep(b, s[..k]);
      PowStep(b, k);
      Shift(b, Value(b, s[1..][..k - 1]), s[k] as int, Pow(b, k - 1));
    } else {
      assert s[..1][1..] == [] && s[..0] == [];
    }
  }

  lemma Residue(x: nat, q: nat, m: nat, r: nat)
    requires m > 0 && x == q * m + r && r < m
    ensures x % m == r
  {
    SameQuotient(q, x / m, m, r, x % m);
  }

  lemma Bigger(k: int, m: int)
    requires k >= 1 && m >= 0
    ensures k * m >= m
  {
  }

  lemma Difference(a: int, b: int, m: int)
    ensures (a - b) * m == a * m - b * m
  {
  }

  lemma SameQuotient(q: int, q': int, m: nat, r: nat, r': nat)
    requires q * m + r == q' * m + r' && r < m && r' < m
    ensures q == q' && r == r'
  {
    Difference(q, q', m);
    Difference(q', q, m);
    if q > q' { Bigger(q - q', m); }
    if q < q' { Bigger(q' - q, m); }
  }

  lemma AddMultiple(x: nat, k: nat, m: nat)
    requires m > 0
    ensures k * m >= 0 && (x + k * m) % m == x % m
  {
    var q := x / m;
    assert x == q * m + x % m;
    assert x + k * m == (q + k) * m + x % m;
    Residue(x + k * m, q + k, m, x % m);
  }

  lemma AddToResidue(t: nat, d: nat, m: nat)
    requires m > 0
    ensures (t % m + d) % m == (t + d) % m
  {
    var q := t / m;
    assert t == q * m + t % m;
    AddMultiple(t % m + d, q, m);
  }

  // --- digit arrays ---

  /** Propagates carries; what does not fit the array is dropped. */
  method DoCarry(product: array<Byte>)
    requires product.Length > 0 && forall k :: 0 <= k < product.Length ==> product[k] < 230
    modifies product
    ensures Digits(product[..])
    ensures Value(10, product[..]) == old(Value(10, product[..])) % Pow(10, product.Length)
  {
    var n := product.Length;
    ghost var start := Value(10, product[..]);
    for j := 0 to n - 1
      invariant forall k :: 0 <= k < j ==> product[k] <= 9
      invariant product[j] < 255 && forall k :: j < k < n ==> product[k] < 230
      invariant Value(10, product[..]) == start
    {
      if product[j] > 9 {
        ghost var before := product[..];
        CarryKeeps(before, j);
        product[j + 1] := product[j + 1] + product[j] / 10;
        product[j] := product[j] % 10;
        assert product[..] == before[j + 1 := before[j + 1] + before[j] / 10][j := before[j] % 10];
      }
    }
    ghost var carried := product[..];
    if product[n - 1] > 9 {
      product[n - 1] := product[n - 1] % 10;
    }
    assert product[..] == carried[n - 1 := carried[n - 1] % 10];
    TopDropped(carried);
  }

  lemma CarryKeeps(s: seq<Byte>, j: nat)
    requires j + 1 < |s| && s[j] < 255 && s[j + 1] < 230
    ensures Value(10, s[j + 1 := s[j + 1] + s[j] / 10][j := s[j] % 10]) == Value(10, s)
  {
    hide Value, Pow;
    var q := (s[j] / 10) as int;
    var t := s[j + 1 := s[j + 1] + s[j] / 10];
    ValueUpdate(10, s, j + 1, s[j + 1] + s[j] / 10);
    ValueUpdate(10, t, j, s[j] % 10);
    PowStep(10, j + 1);
    CarryArith(q, Pow(10, j));
  }

  lemma CarryArith(q: int, p: int)
    ensures q * (10 * p) + (-10 * q) * p == 0
  {
  }

  lemma TopDropped(s: seq<Byte>)
    requires s != [] && forall k :: 0 <= k < |s| - 1 ==> s[k] <= 9
    ensures var t := s[|s| - 1 := s[|s| - 1] % 10]; Digits(t) && Value(10, t) == Value(10, s) % Pow(10, |s|)
  {
    hide Value, Pow;
    var n := |s|;
    var t := s[n - 1 := s[n - 1] % 10];
    var q := (s[n - 1] / 10) as int;
    ValueUpdate(10, s, n - 1, s[n - 1] % 10);
    PowStep(10, n);
    CarryArith(q, Pow(10, n - 1));
    ValueBound(10, t);
    Residue(Value(10, s), q, Pow(10, n), Value(10, t));
  }

  /** The number its first `j` decimal digits make. */
  function Partial(num: nat, j: nat): nat { if j == 0 then 0 else if j == 1 then num % 10 else if j == 2 then num % 100 else num }

  /** What the first `j` digits of `num` contribute. */
  function Added(m: Byte, num: nat, j: nat, i: nat): int { m as int * Partial(num, j) * Pow(10, i) }

  /** The sum after `i` digits of the multiplier. */
  function Total(start: nat, num: nat, m: seq<Byte>, i: nat): (t: nat)
    requires i <= |m|
  {
    Positive(num, Value(10, m[..i]));
    start + num * Value(10, m[..i])
  }

  lemma TotalStep(start: nat, num: nat, m: seq<Byte>, i: nat, j: nat, n: nat)
    requires num < 1000 && i < n == |m| && j <= 3 && i + j <= n && (j == 3 || i + j == n)
    ensures Added(m[i], num, j, i) >= 0
    ensures (Total(start, num, m, i) % Pow(10, n) + Added(m[i], num, j, i)) % Pow(10, n) == Total(start, num, m, i + 1) % Pow(10, n)
  {
    hide Value, Pow, Partial;
    ValueSnoc(10, m, i);
    Distribute(num, Value(10, m[..i]), m[i] as int * Pow(10, i));
    Accumulated(Total(start, num, m, i), m[i] as int, num, i, j, n);
  }

  lemma TotalSkip(start: nat, num: nat, m: seq<Byte>, i: nat)
    requires i < |m| && m[i] == 0
    ensures Total(start, num, m, i + 1) == Total(start, num, m, i)
  {
    hide Value, Pow;
    ValueSnoc(10, m, i);
  }

  /** Adds `m` times the digits of `num` from place `i` on, as far as the array reaches. */
  method AddDigits(product: array<Byte>, i: nat, m: Byte, num: nat) returns (ghost j: nat)
    requires i < product.Length && m <= 9 && num < 1000 && Digits(product[..])
    modifies product
    ensures j <= 3 && i + j <= product.Length && (j == 3 || i + j == product.Length)
    ensures forall k :: 0 <= k < product.Length ==> product[k] < 230
    ensures Value(10, product[..]) == old(Value(10, product[..])) + Added(m, num, j, i)
  {
    hide Value, Pow, Partial;
    var n := product.Length;
    var number: seq<Byte> := [DigitOf(num, 0) as Byte, DigitOf(num, 1) as Byte, DigitOf(num, 2) as Byte];
    ghost var before := product[..];
    DigitsAt(before);
    NoDigits(num, m as int, Pow(10, i));
    var t := 0;
    while t < 3 && i + t < n
      invariant 0 <= t <= 3 && i + t <= n
      invariant forall k :: 0 <= k < n ==> product[k] < 230
      invariant forall k :: i + t <= k < n ==> product[k] == before[k]
      invariant Value(10, product[..]) == Value(10, before) + m as int * Partial(num, t) * Pow(10, i)
    {
      ghost var mid := product[..];
      assert number[t] == DigitOf(num, t) as Byte;
      ByteProduct(m, DigitOf(num, t));
      if number[t] != 0 {
        product[i + t] := product[i + t] + m * number[t];
      }
      assert product[..] == mid[i + t := mid[i + t] + m * number[t]];
      DigitAdded(mid, i, t, m, num);
      t := t + 1;
    }
    j := t;
  }

  lemma NoDigits(num: nat, m: int, p: int)
    ensures m * Partial(num, 0) * p == 0
  {
  }

  /** Adds `num` times the multiplier, modulo what the array can hold. */
  method MultiplyByte(product: array<Byte>, num: nat, multiplier: array<Byte>)
    requires product != multiplier && product.Length == multiplier.Length > 0 && num < 1000
    requires Digits(product[..]) && Digits(multiplier[..])
    modifies product
    ensures Digits(product[..])
    ensures Value(10, product[..]) ==
      (old(Value(10, product[..])) + num * Value(10, multiplier[..])) % Pow(10, product.Length)
  {
    hide Value, Pow, Digits, Added, Total;
    var n := product.Length;
    ghost var m := multiplier[..];
    ghost var start := Value(10, product[..]);
    TotalEnds(product[..], m, num);
    for i := 0 to n
      invariant Digits(product[..])
      invariant Value(10, product[..]) == Total(start, num, m, i) % Pow(10, n)
    {
      DigitsAt(m);
      if multiplier[i] == 0 {
        TotalSkip(start, num, m, i);
        continue;
      }
      ghost var j := AddDigits(product, i, multiplier[i], num);
      DoCarry(product);
      TotalStep(start, num, m, i, j, n);
    }
  }

  lemma Distribute(a: int, b: int, c: int)
    ensures a * (b + c) == a * b + a * c
  {
  }

  lemma DigitsAt(s: seq<Byte>)
    requires Digits(s)
    ensures forall k :: 0 <= k < |s| ==> s[k] <= 9
  {
  }

  lemma TotalEnds(s: seq<Byte>, m: seq<Byte>, num: nat)
    requires Digits(s)
    ensures Value(10, s) == Total(Value(10, s), num, m, 0) % Pow(10, |s|)
    ensures Total(Value(10, s), num, m, |m|) == Value(10, s) + num * Value(10, m)
  {
    hide Value, Pow;
    ValueBound(10, s);
    PowZero(10);
    assert m[..0] == [] && m[..|m|] == m;
    Residue(Value(10, s), 0, Pow(10, |s|), Value(10, s));
  }

  /** The `j`-th decimal digit of a number below 1000. */
  function DigitOf(num: nat, j: nat): (d: nat)
    requires num < 1000 && j < 3
    ensures d <= 9
  {
    if j == 0 then num % 10 else if j == 1 then num / 10 % 10 else num / 100 % 10
  }

  lemma PartialStep(num: nat, j: nat)
    requires num < 1000 && j < 3
    ensures Partial(num, j + 1) == Partial(num, j) + DigitOf(num, j) * Pow(10, j)
  {
    SmallPowers();
    if j == 1 {
      assert num % 100 == num % 10 + num / 10 % 10 * 10;
    } else if j == 2 {
      assert num == num % 100 + num / 100 * 100;
    }
  }

  lemma SumArith(m: int, p: int, d: int, pj: int, pi: int)
    ensures m * d * (pi * pj) + m * p * pi == m * (p + d * pj) * pi
  {
  }

  /** One place of the sum. */
  lemma DigitAdded(mid: seq<Byte>, i: nat, j: nat, m: Byte, num: nat)
    requires j < 3 && i + j < |mid| && mid[i + j] <= 9 && m <= 9 && num < 1000
    ensures Value(10, mid[i + j := mid[i + j] + m * DigitOf(num, j) as Byte]) + m as int * Partial(num, j) * Pow(10, i)
            == Value(10, mid) + m as int * Partial(num, j + 1) * Pow(10, i)
  {
    hide Value, Pow, Partial;
    var d := DigitOf(num, j);
    ByteProduct(m, d);
    ValueUpdate(10, mid, i + j, mid[i + j] + m * d as Byte);
    PowAdd(10, i, j);
    PartialStep(num, j);
    SumArith(m as int, Partial(num, j), d, Pow(10, j), Pow(10, i));
  }

  lemma ByteProduct(m: Byte, d: nat)
    requires m <= 9 && d <= 9
    ensures m as int * d <= 81 && (m * d as Byte) as int == m as int * d
  {
  }

  lemma SmallPowers()
    ensures Pow(10, 0) == 1 && Pow(10, 1) == 10 && Pow(10, 2) == 100
  {
    assert Pow(10, 1) == 10 * Pow(10, 0);
    assert Pow(10, 2) == 10 * Pow(10, 1);
  }

  lemma {:induction false} PowAdd(b: nat, i: nat, j: nat)
    ensures Pow(b, i + j) == Pow(b, i) * Pow(b, j)
    decreases i
  {
    hide Pow;
    PowZero(b);
    if i > 0 {
      PowAdd(b, i - 1, j);
      PowStep(b, i);
      PowStep(b, i + j);
      Shift(b, 0, Pow(b, i - 1), Pow(b, j));
    }
  }

  lemma RestArith(num: int, p: int, r: int, pj: int, m: int, pi: int)
    requires num == p + r * pj
    ensures num * (m * pi) == m * p * pi + m * r * (pi * pj)
  {
  }

  /** Places beyond the array count for nothing modulo its range. */
  lemma Accumulated(total: nat, m: nat, num: nat, i: nat, j: nat, n: nat)
    requires num < 1000 && i < n && j <= 3 && i + j <= n && (j == 3 || i + j == n)
    ensures m * Partial(num, j) * Pow(10, i) >= 0 && num * (m * Pow(10, i)) >= 0
    ensures (total % Pow(10, n) + m * Partial(num, j) * Pow(10, i)) % Pow(10, n) == (total + num * (m * Pow(10, i))) % Pow(10, n)
  {
    hide Pow;
    var p := Partial(num, j);
    Positive(m, p);
    Positive(m * p, Pow(10, i));
    Positive(m, Pow(10, i));
    Positive(num, m * Pow(10, i));
    AddToResidue(total, m * p * Pow(10, i), Pow(10, n));
    if j < 3 {
      var rest := PartialRest(num, j);
      PowAdd(10, i, j);
      RestBeyond(total, m, num, p, rest, Pow(10, i), Pow(10, j));
    } else {
      RestArith(num, num, 0, 1, m, Pow(10, i));
    }
  }

  lemma PartialRest(num: nat, j: nat) returns (rest: nat)
    requires num < 1000 && j < 3
    ensures num == Partial(num, j) + rest * Pow(10, j)
  {
    hide Pow;
    SmallPowers();
    rest := if j == 0 then num else if j == 1 then num / 10 else num / 100;
  }

  lemma RestBeyond(total: nat, m: nat, num: nat, p: nat, rest: nat, pi: nat, pj: nat)
    requires num == p + rest * pj && pi > 0 && pj > 0 && pi * pj > 0
    ensures 0 <= m * p * pi && 0 <= num * (m * pi)
    ensures (total + m * p * pi) % (pi * pj) == (total + num * (m * pi)) % (pi * pj)
  {
    Positive(m, p);
    Positive(m * p, pi);
    Positive(m, rest);
    RestArith(num, p, rest, pj, m, pi);
    AddMultiple(total + m * p * pi, m * rest, pi * pj);
    Positive(m, pi);
    Positive(num, m * pi);
  }

  // --- a byte string in decimal ---

  lemma PowersFit()
    ensures Pow(256, 8) == 0x1_0000_0000_0000_0000 < Pow(10, 20)
    ensures Pow(256, 16) < Pow(10, 40)
  {
    hide Pow;
    PowZero(256);
    PowZero(10);
    PowStep(256, 1);
    PowAdd(256, 1, 1);
    PowAdd(256, 2, 2);
    PowAdd(256, 4, 4);
    PowAdd(256, 8, 8);
    PowStep(10, 1);
    PowAdd(10, 1, 1);
    PowAdd(10, 2, 2);
    PowAdd(10, 4, 4);
    PowAdd(10, 8, 2);
    PowAdd(10, 10, 10);
    PowAdd(10, 20, 20);
  }

  lemma {:induction false} ZeroValue(b: nat, s: seq<Byte>)
    requires forall k :: 0 <= k < |s| ==> s[k] == 0
    ensures Value(b, s) == 0
  {
    if s != [] { ZeroValue(b, s[1..]); }
  }

  lemma OneValue(s: seq<Byte>)
    requires s != [] && s[0] == 1 && forall k :: 1 <= k < |s| ==> s[k] == 0
    ensures Value(10, s) == 1 == Pow(256, 0)
  {
    ZeroValue(10, s[1..]);
  }

  /** The shared loop: a growing power of 256 times each byte, lowest byte first. */
  method ToDecimal(bytes: seq<Byte>, n: nat) returns (product: array<Byte>)
    requires n > 0 && Pow(256, |bytes|) < Pow(10, n)
    ensures fresh(product) && product.Length == n && Digits(product[..])
    ensures Value(10, product[..]) == Value(256, bytes)
  {
    hide Value, Pow;
    var multiplier := new Byte[n](k => if k == 0 then 1 else 0);
    product := new Byte[n](_ => 0);
    ZeroValue(10, product[..]);
    OneValue(multiplier[..]);
    PowZero(256);
    assert bytes[..0] == [];
    for i := 0 to |bytes|
      invariant fresh(multiplier) && product != multiplier && multiplier.Length == n
      invariant Digits(product[..]) && Digits(multiplier[..])
      invariant Value(10, multiplier[..]) == Pow(256, i) && Value(10, product[..]) == Value(256, bytes[..i])
    {
      PartValue(bytes, i);
      MultiplyByte(product, bytes[i] as int, multiplier);
      Small(Value(256, bytes[..i + 1]), Pow(10, n));
      var temp := new Byte[n](k requires 0 <= k < n reads multiplier => multiplier[k]);
      assert temp[..] == multiplier[..];
      var zeros := new Byte[n](_ => 0);
      multiplier := zeros;
      ZeroValue(10, multiplier[..]);
      MultiplyByte(multiplier, 256, temp);
      Small(256 * Pow(256, i), Pow(10, n));
    }
    assert bytes[..|bytes|] == bytes;
  }

  lemma Small(x: nat, m: nat)
    ensures x < m ==> x % m == x
  {
    if x < m { Residue(x, 0, m, x); }
  }

  lemma {:induction false} PowGrows(b: nat, i: nat, j: nat)
    requires i <= j && b >= 1
    ensures Pow(b, i) <= Pow(b, j)
    decreases j - i
  {
    hide Pow;
    if i < j {
      PowGrows(b, i, j - 1);
      PowStep(b, j);
      Bigger(b, Pow(b, j - 1));
    }
  }

  lemma PartValue(bytes: seq<Byte>, i: nat)
    requires i < |bytes|
    ensures Value(256, bytes[..i + 1]) == Value(256, bytes[..i]) + bytes[i] as int * Pow(256, i)
    ensures Value(256, bytes[..i + 1]) < Pow(256, |bytes|)
    ensures 256 * Pow(256, i) == Pow(256, i + 1) <= Pow(256, |bytes|)
  {
    hide Value, Pow;
    ValueSnoc(256, bytes, i);
    ValueBound(256, bytes[..i + 1]);
    PowStep(256, i + 1);
    PowGrows(256, i + 1, |bytes|);
  }

  // --- two's complement ---

  lemma {:induction false} InvertValue(s: seq<Byte>, t: seq<Byte>)
    requires |s| == |t| && forall k :: 0 <= k < |s| ==> t[k] as int == 255 - s[k] as int
    ensures Value(256, t) + Value(256, s) == Pow(256, |s|) - 1
  {
    hide Value, Pow;
    PowZero(256);
    if s != [] {
      ValueStep(256, s);
      ValueStep(256, t);
      PowStep(256, |s|);
      InvertValue(s[1..], t[1..]);
    }
  }

  method Invert(bytes: array<Byte>)
    modifies bytes
    ensures Value(256, bytes[..]) == Pow(256, bytes.Length) - 1 - old(Value(256, bytes[..]))
  {
    hide Value, Pow;
    ghost var s := bytes[..];
    for i := 0 to bytes.Length
      invariant forall k :: 0 <= k < i ==> bytes[k] as int == 255 - s[k] as int
      invariant forall k :: i <= k < bytes.Length ==> bytes[k] == s[k]
    {
      bytes[i] := 255 - bytes[i];
    }
    InvertValue(s, bytes[..]);
  }

  /** Inverts every byte and adds one, leaving the loop at the first byte that does not wrap. */
  method Negate(bytes: array<Byte>)
    requires bytes.Length > 0 && Value(256, bytes[..]) > 0
    modifies bytes
    ensures Value(256, bytes[..]) == Pow(256, bytes.Length) - old(Value(256, bytes[..]))
  {
    hide Value, Pow;
    var n := bytes.Length;
    Invert(bytes);
    ghost var inverted := bytes[..];
    PowZero(256);
    var i := 0;
    while i < n
      invariant 0 <= i <= n && Value(256, bytes[..]) + Pow(256, i) == Value(256, inverted) + 1
    {
      ghost var before := bytes[..];
      bytes[i] := if bytes[i] == 255 then 0 else bytes[i] + 1;
      assert bytes[..] == before[i := bytes[i]];
      ValueUpdate(256, before, i, bytes[i]);
      PowStep(256, i + 1);
      if bytes[i] != 0 {
        return;
      }
      i := i + 1;
    }
    assert false;
  }

  // --- decimal numerals ---

  predicate IsDigit(c: char) { '0' <= c <= '9' }

  predicate AllDigits(s: string) { forall k :: 0 <= k < |s| ==> IsDigit(s[k]) }

  /** What a string of digits stands for, highest place first. */
  function NumVal(s: string): nat
    requires AllDigits(s)
  {
    if s == [] then 0
    else
      Positive((s[0] as int) - ('0' as int), Pow(10, |s| - 1));
      ((s[0] as int) - ('0' as int)) * Pow(10, |s| - 1) + NumVal(s[1..])
  }

  /** `s` is the numeral of `magnitude` over 10 to the `scale`: all decimals, and no needless leading zero. */
  predicate Numeral(s: string, magnitude: nat, scale: nat) {
    var point := if scale == 0 then |s| else |s| - scale - 1;
    && point >= 1
    && (scale > 0 ==> s[point] == '.')
    && var whole, decimals := s[..point], if scale == 0 then [] else s[point + 1..];
       && AllDigits(whole) && AllDigits(decimals)
       && (point > 1 ==> s[0] != '0')
       && NumVal(whole + decimals) == magnitude
  }

  predicate Shows(s: string, negative: bool, magnitude: nat, scale: nat) {
    if negative then |s| > 0 && s[0] == '-' && Numeral(s[1..], magnitude, scale) else Numeral(s, magnitude, scale)
  }

  /** A scale beyond the places there are: all `n` places are written, a point only before the very first. */
  predicate AllPlaces(s: string, negative: bool, pointed: bool, magnitude: nat, n: nat) {
    && |s| >= n
    && s[..|s| - n] == (if negative then "-" else "") + (if pointed then "." else "")
    && AllDigits(s[|s| - n..]) && NumVal(s[|s| - n..]) == magnitude
  }

  function Char(d: Byte): (c: char)
    requires d <= 9
    ensures IsDigit(c) && (c as int) - ('0' as int) == d as int
  {
    '0' + (d as int) as char
  }

  /** The places below `top`, highest first. */
  function DigitString(a: seq<Byte>, top: nat): (s: string)
    requires Digits(a) && top <= |a|
    ensures |s| == top && AllDigits(s)
  {
    if top == 0 then [] else [Char(a[top - 1])] + DigitString(a, top - 1)
  }

  /** The same with a point before the last `scale` places. */
  function PointString(a: seq<Byte>, top: nat, scale: nat): string
    requires Digits(a) && top <= |a|
  {
    if top == 0 then []
    else (if top == scale then "." else "") + [Char(a[top - 1])] + PointString(a, top - 1, scale)
  }

  lemma {:induction false} PointSplit(a: seq<Byte>, top: nat, scale: nat)
    requires Digits(a) && top <= |a|
    ensures scale == 0 || top < scale ==> PointString(a, top, scale) == DigitString(a, top)
    ensures 0 < scale <= top ==>
      PointString(a, top, scale) == DigitString(a, top)[..top - scale] + "." + DigitString(a, top)[top - scale..]
  {
    hide Char, Digits, PointString, DigitString;
    PointStep(a, top, scale);
    DigitStep(a, top);
    if top > 0 {
      DigitsAt(a);
      PointSplit(a, top - 1, scale);
      var c, rest := [Char(a[top - 1])], DigitString(a, top - 1);
      if top == scale {
        assert (c + rest)[..0] == [] && (c + rest)[0..] == c + rest;
      } else if 0 < scale < top {
        InsertAfter(c, rest, top - 1 - scale);
      }
    }
  }

  lemma DigitStep(a: seq<Byte>, top: nat)
    requires Digits(a) && top <= |a|
    ensures DigitString(a, top) == if top == 0 then [] else [Char(a[top - 1])] + DigitString(a, top - 1)
  {
  }

  lemma InsertAfter(c: string, rest: string, k: nat)
    requires |c| == 1 && k <= |rest|
    ensures c + (rest[..k] + "." + rest[k..]) == (c + rest)[..k + 1] + "." + (c + rest)[k + 1..]
  {
    assert (c + rest)[..k + 1] == c + rest[..k];
    assert (c + rest)[k + 1..] == rest[k..];
  }

  lemma {:induction false} DigitsValue(a: seq<Byte>, top: nat)
    requires Digits(a) && top <= |a|
    ensures NumVal(DigitString(a, top)) == Value(10, a[..top])
  {
    hide Value, Pow, Char;
    if top == 0 {
      PowZero(10);
      assert a[..0] == [];
    } else {
      DigitsValue(a, top - 1);
      ValueSnoc(10, a, top - 1);
      assert DigitString(a, top)[1..] == DigitString(a, top - 1);
    }
  }

  lemma {:induction false} TopZeros(a: seq<Byte>, top: nat)
    requires top <= |a| && forall k :: top <= k < |a| ==> a[k] == 0
    ensures Value(10, a) == Value(10, a[..top])
    decreases |a| - top
  {
    hide Value;
    if top == |a| {
      assert a[..top] == a;
    } else {
      TopZeros(a, top + 1);
      ValueSnoc(10, a, top);
    }
  }

  /** The digits as a decimal string with `scale` decimals. */
  method ArrayToString(array_: array<Byte>, scale: nat, neg: bool) returns (buf: string)
    requires Digits(array_[..])
    ensures scale < array_.Length ==> Shows(buf, neg, Value(10, array_[..]), scale)
    ensures scale >= array_.Length > 0 ==> AllPlaces(buf, neg, scale == array_.Length, Value(10, array_[..]), array_.Length)
  {
    hide Value, Digits, PointString, Shows, AllPlaces;
    ghost var a := array_[..];
    DigitsAt(a);
    var top := array_.Length;
    while top > 0 && top - 1 > scale && array_[top - 1] == 0
      invariant 0 <= top <= array_.Length && (scale < array_.Length ==> top > scale)
      invariant scale >= array_.Length ==> top == array_.Length
      invariant forall k :: top <= k < array_.Length ==> a[k] == 0
    {
      top := top - 1;
    }
    ghost var sign := if neg then "-" else "";
    buf := "";
    if neg {
      buf := buf + ['-'];
    }
    assert buf == sign;
    if top == 0 {
      buf := buf + ['0'];
    } else {
      var i := top;
      while i > 0
        invariant 0 <= i <= top && buf + PointString(a, i, scale) == sign + PointString(a, top, scale)
      {
        if i == scale {
          buf := buf + ['.'];
        }
        PointStep(a, i, scale);
        buf := buf + [Char(array_[i - 1])];
        i := i - 1;
      }
      PointStep(a, 0, scale);
      assert buf == sign + PointString(a, top, scale);
      if scale < array_.Length {
        PointNumeral(a, top, scale);
        Signed(PointString(a, top, scale), neg, Value(10, a), scale);
      } else {
        PlacesShown(a, scale, neg);
      }
    }
  }

  lemma PlacesShown(a: seq<Byte>, scale: nat, neg: bool)
    requires Digits(a) && scale >= |a| > 0
    ensures AllPlaces((if neg then "-" else "") + PointString(a, |a|, scale), neg, scale == |a|, Value(10, a), |a|)
  {
    hide Value, PointString, DigitString, NumVal;
    PointSplit(a, |a|, scale);
    DigitsValue(a, |a|);
    assert a[..|a|] == a;
    var sign, d := if neg then "-" else "", DigitString(a, |a|);
    var head := sign + if scale == |a| then "." else "";
    var s := sign + PointString(a, |a|, scale);
    assert d[..0] == [] && d[0..] == d;
    assert s == head + d;
    assert s[..|s| - |a|] == head && s[|s| - |a|..] == d;
  }

  lemma PointStep(a: seq<Byte>, i: nat, scale: nat)
    requires Digits(a) && i <= |a|
    ensures PointString(a, i, scale) ==
      if i == 0 then [] else (if i == scale then "." else "") + [Char(a[i - 1])] + PointString(a, i - 1, scale)
  {
  }

  lemma Signed(body: string, neg: bool, magnitude: nat, scale: nat)
    requires Numeral(body, magnitude, scale)
    ensures Shows((if neg then "-" else "") + body, neg, magnitude, scale)
  {
    hide Numeral;
    assert ("-" + body)[1..] == body && "" + body == body;
  }

  lemma PointNumeral(a: seq<Byte>, top: nat, scale: nat)
    requires Digits(a) && scale < top <= |a| && forall k :: top <= k < |a| ==> a[k] == 0
    requires top - 1 == scale || a[top - 1] != 0
    ensures Numeral(PointString(a, top, scale), Value(10, a), scale)
  {
    hide Value, Numeral, PointString, NumVal;
    PointSplit(a, top, scale);
    DigitsValue(a, top);
    TopZeros(a, top);
    var d := DigitString(a, top);
    DigitStep(a, top);
    DigitsAt(a);
    assert d[0] == Char(a[top - 1]);
    Pointed(d, scale);
  }

  /** Digits with a point before the last `scale` of them are the numeral of their value. */
  lemma Pointed(d: string, scale: nat)
    requires AllDigits(d) && scale < |d| && (|d| - scale > 1 ==> d[0] != '0')
    ensures var s := if scale == 0 then d else d[..|d| - scale] + "." + d[|d| - scale..];
            Numeral(s, NumVal(d), scale)
  {
    hide NumVal, Numeral, AllDigits;
    if scale == 0 {
      NoPoint(d);
    } else {
      var whole, decimals := d[..|d| - scale], d[|d| - scale..];
      assert whole + decimals == d;
      PointInside(whole, decimals);
    }
  }

  lemma NoPoint(d: string)
    requires AllDigits(d) && d != [] && (|d| > 1 ==> d[0] != '0')
    ensures Numeral(d, NumVal(d), 0)
  {
    hide NumVal;
    assert d[..|d|] == d && d + [] == d;
  }

  lemma PointInside(whole: string, decimals: string)
    requires AllDigits(whole + decimals) && whole != [] && decimals != [] && (|whole| > 1 ==> whole[0] != '0')
    ensures Numeral(whole + "." + decimals, NumVal(whole + decimals), |decimals|)
  {
    hide NumVal;
    var s := whole + "." + decimals;
    assert s[..|whole|] == whole && s[|whole|] == '.' && s[|whole| + 1..] == decimals;
    forall k | 0 <= k < |whole| ensures IsDigit(whole[k]) { assert (whole + decimals)[k] == whole[k]; }
    forall k | 0 <= k < |decimals| ensures IsDigit(decimals[k]) { assert (whole + decimals)[|whole| + k] == decimals[k]; }
  }

  // --- the two entry points ---

  /** A stored currency value: a signed 64-bit integer, in units of 1/10000. */
  function Signed64(bytes: seq<Byte>): int
    requires |bytes| == 8
  {
    if bytes[7] >= 128 then Value(256, bytes) - 0x1_0000_0000_0000_0000 else Value(256, bytes)
  }

  function Abs(x: int): nat { if x < 0 then -x else x }

  method MoneyToString(buf: seq<Byte>, offset: nat) returns (s: string)
    requires offset + 8 <= |buf|
    ensures var v := Signed64(buf[offset..offset + 8]); Shows(s, v < 0, Abs(v), 4)
  {
    hide Value, Pow;
    var bytes := new Byte[8](k requires 0 <= k < 8 => buf[offset + k]);
    assert bytes[..] == buf[offset..offset + 8];
    HighByte(bytes[..]);
    PowersFit();
    var neg := false;
    if bytes[7] >= 128 {
      neg := true;
      Negate(bytes);
    }
    var product := ToDecimal(bytes[..], MONEY_DIGITS);
    s := ArrayToString(product, 4, neg);
  }

  /** The sign bit is worth half the range. */
  lemma HighByte(bytes: seq<Byte>)
    requires |bytes| == 8
    ensures bytes[7] >= 128 <==> Value(256, bytes) >= 0x8000_0000_0000_0000
    ensures Value(256, bytes) < 0x1_0000_0000_0000_0000
  {
    hide Value, Pow;
    PowersFit();
    PowStep(256, 8);
    ValueSnoc(256, bytes, 7);
    assert bytes[..8] == bytes;
    ValueBound(256, bytes[..7]);
    ValueBound(256, bytes);
  }

  /** Four little-endian words, the most significant stored first. */
  function NumericMagnitude(words: seq<Byte>): nat
    requires |words| == 16
  {
    Value(256, words[12..16] + words[8..12] + words[4..8] + words[0..4])
  }

  method NumericToString(buf: seq<Byte>, start: nat, prec: nat) returns (s: string)
    requires start + 17 <= |buf|
    ensures prec < NUMERIC_DIGITS ==> Shows(s, buf[start] >= 128, NumericMagnitude(buf[start + 1..start + 17]), prec)
    ensures prec >= NUMERIC_DIGITS ==>
      AllPlaces(s, buf[start] >= 128, prec == NUMERIC_DIGITS, NumericMagnitude(buf[start + 1..start + 17]), NUMERIC_DIGITS)
  {
    hide Value, Pow, Shows, AllPlaces;
    var neg := false;
    if buf[start] >= 128 {
      neg := true;
    }
    var bytes := new Byte[16](i requires 0 <= i < 16 => buf[start + 1 + 12 - 4 * (i / 4) + i % 4]);
    ghost var words := buf[start + 1..start + 17];
    forall i | 0 <= i < 16
      ensures bytes[i] == (words[12..16] + words[8..12] + words[4..8] + words[0..4])[i]
    {
      assert i / 4 == 0 || i / 4 == 1 || i / 4 == 2 || i / 4 == 3;
    }
    assert bytes[..] == words[12..16] + words[8..12] + words[4..8] + words[0..4];
    PowersFit();
    var product := ToDecimal(bytes[..], NUMERIC_DIGITS);
    s := ArrayToString(product, prec, neg);
  }

  // --- what the numbers mean, digit by digit ---

  /** Reading on by one digit: ten times what was read and the digit. */
  lemma {:induction false} NumValReads(s: string, c: char)
    requires AllDigits(s) && IsDigit(c)
    ensures NumVal(s + [c]) == 10 * NumVal(s) + (c as int - '0' as int)
  {
    hide Pow;
    PowZero(10);
    if s == [] {
      assert s + [c] == [c] && [c][1..] == [];
    } else {
      NumValReads(s[1..], c);
      assert (s + [c])[1..] == s[1..] + [c];
      PowStep(10, |s|);
      Shift(10, 0, s[0] as int - '0' as int, Pow(10, |s| - 1));
    }
  }

  lemma {:induction false} ValueAppend(b: nat, s: seq<Byte>, t: seq<Byte>)
    ensures Value(b, s + t) == Value(b, s) + Pow(b, |s|) * Value(b, t)
  {
    hide Value, Pow;
    PowZero(b);
    if s == [] {
      assert s + t == t;
    } else {
      ValueStep(b, s);
      ValueStep(b, s + t);
      assert (s + t)[1..] == s[1..] + t;
      ValueAppend(b, s[1..], t);
      PowStep(b, |s|);
      Shift(b, Value(b, s[1..]), Value(b, t), Pow(b, |s| - 1));
    }
  }

  /** A stored word: its lowest byte first. */
  function Word(s: seq<Byte>, k: nat): nat
    requires k + 4 <= |s|
  {
    s[k] as int + 0x100 * s[k + 1] as int + 0x1_0000 * s[k + 2] as int + 0x100_0000 * s[k + 3] as int
  }

  lemma WordValue(s: seq<Byte>, k: nat)
    requires k + 4 <= |s|
    ensures Value(256, s[k..k + 4]) == Word(s, k) && Pow(256, 4) == 0x1_0000_0000
  {
    var w := s[k..k + 4];
    assert Value(256, w[4..]) == 0;
    assert Value(256, w[3..]) == w[3] as int by { assert w[3..][1..] == w[4..]; }
    assert Value(256, w[2..]) == w[2] as int + 256 * w[3] as int by { assert w[2..][1..] == w[3..]; }
    assert Value(256, w[1..]) == w[1] as int + 256 * (w[2] as int + 256 * w[3] as int) by { assert w[1..][1..] == w[2..]; }
    assert Pow(256, 0) == 1 && Pow(256, 1) == 256 && Pow(256, 2) == 65536 && Pow(256, 3) == 16777216;
  }

  /** The four words of a numeric field, the first worth most, and the two of a currency field, the second worth most. */
  lemma WordsExact(words: seq<Byte>)
    ensures |words| == 16 ==>
      var low, high := Word(words, 12) + 0x1_0000_0000 * Word(words, 8), Word(words, 4) + 0x1_0000_0000 * Word(words, 0);
      NumericMagnitude(words) == low + 0x1_0000_0000_0000_0000 * high
    ensures |words| == 8 ==>
      Word(words, 0) + 0x1_0000_0000 * Word(words, 4) in {Signed64(words), Signed64(words) + 0x1_0000_0000_0000_0000}
    ensures |words| == 8 ==> -0x8000_0000_0000_0000 <= Signed64(words) < 0x8000_0000_0000_0000
  {
    hide Value, Pow;
    if |words| == 16 {
      var a, b, c, d := words[12..16], words[8..12], words[4..8], words[0..4];
      WordValue(words, 12);
      WordValue(words, 8);
      WordValue(words, 4);
      WordValue(words, 0);
      ValueAppend(256, a, b + (c + d));
      ValueAppend(256, b, c + d);
      ValueAppend(256, c, d);
      assert a + b + c + d == a + (b + (c + d));
    }
    if |words| == 8 {
      WordValue(words, 0);
      WordValue(words, 4);
      ValueAppend(256, words[0..4], words[4..8]);
      assert words[0..4] + words[4..8] == words;
      HighByte(words);
    }
  }
}
