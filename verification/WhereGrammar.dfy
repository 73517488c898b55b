/** The grammar of WHERE conditions, and that the parser reads exactly its sentences. */
module WhereGrammar {
  import opened WhereLexer
  import opened WhereParser

  // --- words ---

  /** The word, each letter in either case. */
  predicate AnyCase(w: string, upper: string, lower: string) {
    |w| == |upper| == |lower| && forall i :: 0 <= i < |w| ==> w[i] == upper[i] || w[i] == lower[i]
  }

  predicate IsOr(t: Token) { AnyCase(t.value, "OR", "or") }
  predicate IsAnd(t: Token) { AnyCase(t.value, "AND", "and") }
  predicate IsNot(t: Token) { AnyCase(t.value, "NOT", "not") }
  predicate IsIn(t: Token) { AnyCase(t.value, "IN", "in") }
  predicate IsIs(t: Token) { AnyCase(t.value, "IS", "is") }
  predicate IsNil(t: Token) { AnyCase(t.value, "NULL", "null") }
  predicate IsTrue(t: Token) { AnyCase(t.value, "TRUE", "true") }
  predicate IsFalse(t: Token) { AnyCase(t.value, "FALSE", "false") }
  predicate IsDate(t: Token) { AnyCase(t.value, "STRPTIME", "strptime") }

  /** Folding compares letters only up to their case. */
  lemma FoldWord(w: string, upper: string, lower: string)
    requires |upper| == |lower|
    requires forall i :: 0 <= i < |upper| ==> 'A' <= upper[i] <= 'Z' && lower[i] as int == upper[i] as int + 32
    ensures EqualFold(w, upper) <==> AnyCase(w, upper, lower)
  {
  }

  lemma Folds(t: Token)
    ensures EqualFold(t.value, "OR") <==> IsOr(t)
    ensures EqualFold(t.value, "AND") <==> IsAnd(t)
    ensures EqualFold(t.value, "NOT") <==> IsNot(t)
    ensures EqualFold(t.value, "IN") <==> IsIn(t)
    ensures EqualFold(t.value, "IS") <==> IsIs(t)
    ensures EqualFold(t.value, "NULL") <==> IsNil(t)
    ensures EqualFold(t.value, "TRUE") <==> IsTrue(t)
    ensures EqualFold(t.value, "FALSE") <==> IsFalse(t)
    ensures EqualFold(t.value, "STRPTIME") <==> IsDate(t)
  {
    hide EqualFold, AnyCase;
    FoldWord(t.value, "OR", "or");
    FoldWord(t.value, "AND", "and");
    FoldWord(t.value, "NOT", "not");
    FoldWord(t.value, "IN", "in");
    FoldWord(t.value, "IS", "is");
    FoldWord(t.value, "NULL", "null");
    FoldWord(t.value, "TRUE", "true");
    FoldWord(t.value, "FALSE", "false");
    FoldWord(t.value, "STRPTIME", "strptime");
  }

  /** The words differ from one another. */
  lemma Distinct(t: Token)
    ensures IsIn(t) ==> !IsIs(t) && !IsDate(t)
    ensures IsIs(t) ==> !IsDate(t)
    ensures IsNil(t) ==> !IsNot(t) && !IsTrue(t) && !IsFalse(t)
    ensures IsTrue(t) ==> !IsFalse(t)
    ensures IsOr(t) ==> !IsAnd(t)
  {
    var w := t.value;
    if |w| == 2 { assert !((w[1] == 'N' || w[1] == 'n') && (w[1] == 'S' || w[1] == 's')); }
    if |w| == 4 { assert !((w[0] == 'N' || w[0] == 'n') && (w[0] == 'T' || w[0] == 't')); }
  }

  // --- operators and literals ---

  predicate OpSays(t: Token, op: CmpOp) {
    match op
    case Equal => t.value == "="
    case LT => t.value == "<"
    case GT => t.value == ">"
    case LTEQ => t.value == "<="
    case GTEQ => t.value == ">="
    case NEQ => t.value == "<>"
    case Like => AnyCase(t.value, "LIKE", "like")
    case ILike => AnyCase(t.value, "ILIKE", "ilike")
  }

  lemma OpMeans(t: Token, op: CmpOp)
    ensures ComparisonOp(t.value) == Known(op) <==> OpSays(t, op)
    ensures OpSays(t, op) ==> !IsIn(t) && !IsIs(t) && !IsDate(t)
  {
    hide AnyCase, EqualFold;
    FoldWord(t.value, "LIKE", "like");
    FoldWord(t.value, "ILIKE", "ilike");
    Lengths(t.value);
  }

  lemma Lengths(w: string)
    ensures AnyCase(w, "LIKE", "like") ==> |w| == 4 && w[0] != '='
    ensures AnyCase(w, "ILIKE", "ilike") ==> |w| == 5
    ensures AnyCase(w, "IN", "in") || AnyCase(w, "IS", "is") ==> |w| == 2 && (w[0] == 'I' || w[0] == 'i')
    ensures AnyCase(w, "STRPTIME", "strptime") ==> |w| == 8
  {
  }

  /** What stands between the quotes; the last character goes even if it is no quote. */
  predicate Inside(value: string, s: string) {
    if |value| >= 2 && value[0] == '\'' then value == "'" + s + [value[|value| - 1]] else value == s
  }

  /** The literals after an operator. */
  predicate Says(t: Token, v: Val) {
    match v
    case Text(s) =>
      || (t.typ == Str && Inside(t.value, s))
      || (t.typ == Ident && t.value == s && !IsTrue(t) && !IsFalse(t) && !IsNil(t))
    case Int(s) =>
      || (t.typ == Number && t.value == s && '.' !in s)
      || (t.typ == Ident && ((s == "1" && IsTrue(t)) || (s == "0" && IsFalse(t))))
    case Double(s) => t.typ == Number && t.value == s && '.' in s
  }

  /** The literals of an IN list. */
  predicate ElemSays(t: Token, v: Val) {
    match v
    case Text(s) => t.typ == Str && Inside(t.value, s)
    case Int(s) => t.typ == Ident && ((s == "1" && IsTrue(t)) || (s == "0" && IsFalse(t)))
    case Double(s) => t.typ == Number && t.value == s
  }

  /** Elements and the marks after them; a NULL before an element counts for nothing and has no comma. */
  predicate ListSays(ts: seq<Token>, elems: seq<Val>) {
    && ts != []
    && if ts[0].typ == Ident && IsNil(ts[0]) then ListSays(ts[1..], elems)
       else
         && |ts| >= 2 && elems != [] && ElemSays(ts[0], elems[0])
         && if ts[1].typ == RParen then |ts| == 2 && |elems| == 1
            else ts[1].typ == Comma && ListSays(ts[2..], elems[1..])
  }

  // --- conditions ---

  /** What may follow a column, and what it says. */
  predicate TailSays(d: Dates, col: string, tail: seq<Token>, next: Token, node: Node) {
    var first := if tail == [] then next else tail[0];
    var goes := first.typ != EOF && first.typ != RParen;
    match node
    case Always => tail == [] && !goes
    case In(c, elems) =>
      goes && c == col && |tail| > 2 && IsIn(tail[0]) && tail[1].typ == LParen && ListSays(tail[2..], elems)
    case IsNull(c) =>
      && goes && c == col && |tail| == 2 && IsNil(tail[1])
      && (IsIs(tail[0]) || (tail[0].typ != LParen && tail[1].typ == Ident && exists op :: OpSays(tail[0], op)))
    case NotNull(c) => goes && c == col && |tail| == 3 && IsIs(tail[0]) && IsNot(tail[1]) && IsNil(tail[2])
    case Call => |tail| == 1 && tail[0].typ == LParen && !IsIn(tail[0]) && !IsIs(tail[0]) && !IsDate(tail[0])
    case Dated(op, date, format) =>
      && goes && (|tail| == 6 || |tail| == 7) && IsDate(tail[0]) && date == tail[2].value && format == tail[4].value && d(date, format)
      && if |tail| == 7 then OpSays(tail[6], op) else op == Equal && forall o :: !OpSays(next, o)
    case Cmp(c, op, v) => goes && c == col && |tail| == 2 && tail[0].typ != LParen && OpSays(tail[0], op) && Says(tail[1], v)
    case _ => false
  }

  /** A derivation. */
  datatype Form =
    | Either(left: Form, word: Token, right: Form)
    | Both(left: Form, word: Token, right: Form)
    | Negated(word: Token, arg: Form)
    | Group(open: Token, inner: Form, close: Token)
    | Column(name: Token, tail: seq<Token>, says: Node)

  function Yield(f: Form): seq<Token> {
    match f
    case Either(l, w, r) => Yield(l) + [w] + Yield(r)
    case Both(l, w, r) => Yield(l) + [w] + Yield(r)
    case Negated(w, e) => [w] + Yield(e)
    case Group(open, e, close) => [open] + Yield(e) + [close]
    case Column(name, tail, _) => [name] + tail
  }

  function Tree(f: Form): Node {
    match f
    case Either(l, _, r) => Or(Tree(l), Tree(r))
    case Both(l, _, r) => And(Tree(l), Tree(r))
    case Negated(_, e) => Not(Tree(e))
    case Group(_, e, _) => Tree(e)
    case Column(_, _, says) => says
  }

  /** NOT binds before AND, AND before OR, and both join from the left; `next` is the token after the form. */
  predicate Good(d: Dates, f: Form, next: Token) {
    match f
    case Either(l, w, r) => w.typ == Ident && IsOr(w) && Good(d, l, w) && Good(d, r, next) && !r.Either?
    case Both(l, w, r) =>
      w.typ == Ident && IsAnd(w) && Good(d, l, w) && !l.Either? && Good(d, r, next) && !r.Either? && !r.Both?
    case Negated(w, e) => w.typ == Ident && IsNot(w) && Good(d, e, next) && !e.Either? && !e.Both?
    case Group(open, e, close) => open.typ == LParen && Good(d, e, close) && Ends(close)
    case Column(name, tail, says) => name.typ == Ident && !IsNot(name) && TailSays(d, name.value, tail, next, says)
  }

  /** Nothing that would continue a condition. */
  predicate Ends(t: Token) { !(t.typ == Ident && (IsOr(t) || IsAnd(t))) }

  // --- reading on ---

  /** The token `k` places on, the end marker beyond the end. */
  function At(ts: seq<Token>, k: nat): Token { if k < |ts| then ts[k] else EOF_TOKEN }

  function Ahead(ts: seq<Token>, n: nat): (r: seq<Token>)
    ensures |r| == n && forall k :: 0 <= k < n ==> r[k] == At(ts, k)
  {
    seq(n, k requires 0 <= k < n => At(ts, k))
  }

  function Drop(ts: seq<Token>, n: nat): seq<Token> { if n <= |ts| then ts[n..] else [] }

  predicate Reads(f: Form, ts: seq<Token>) { Ahead(ts, |Yield(f)|) == Yield(f) }

  function After(f: Form, ts: seq<Token>): seq<Token> { Drop(ts, |Yield(f)|) }

  lemma DropStep(ts: seq<Token>, n: nat)
    ensures First(Drop(ts, n)) == At(ts, n) && Rest(Drop(ts, n)) == Drop(ts, n + 1)
    ensures Drop(ts, 0) == ts
  {
  }

  lemma DropDrop(ts: seq<Token>, a: nat, b: nat)
    ensures Drop(Drop(ts, a), b) == Drop(ts, a + b)
    ensures forall k: nat :: At(Drop(ts, a), k) == At(ts, a + k)
  {
  }

  lemma AheadSplit(ts: seq<Token>, a: seq<Token>, b: seq<Token>)
    ensures Ahead(ts, |a + b|) == a + b <==> Ahead(ts, |a|) == a && Ahead(Drop(ts, |a|), |b|) == b
    ensures Drop(ts, |a + b|) == Drop(Drop(ts, |a|), |b|)
  {
    DropDrop(ts, |a|, |b|);
    var ab := a + b;
    if Ahead(ts, |ab|) == ab {
      assert forall k :: 0 <= k < |a| ==> Ahead(ts, |ab|)[k] == a[k];
      assert forall k :: 0 <= k < |b| ==> Ahead(ts, |ab|)[|a| + k] == b[k];
    }
    if Ahead(ts, |a|) == a && Ahead(Drop(ts, |a|), |b|) == b {
      forall k | 0 <= k < |ab| ensures Ahead(ts, |ab|)[k] == ab[k] {
        if k < |a| { assert Ahead(ts, |a|)[k] == a[k]; } else { assert Ahead(Drop(ts, |a|), |b|)[k - |a|] == b[k - |a|]; }
      }
    }
  }

  lemma AheadOf(a: seq<Token>, rest: seq<Token>)
    ensures Ahead(a + rest, |a|) == a && Drop(a + rest, |a|) == rest
  {
  }

  // --- literals and lists ---

  lemma ValueExact(col: string, op: CmpOp, ts: seq<Token>, node: Node)
    ensures ParseValue(col, Known(op), ts) == Ok(node, Rest(ts)) <==>
      || (node.Cmp? && node.col == col && node.op == op && Says(First(ts), node.val))
      || (node == IsNull(col) && First(ts).typ == Ident && IsNil(First(ts)))
    ensures ParseValue(col, Known(op), ts).Ok? ==> ParseValue(col, Known(op), ts).rest == Rest(ts)
  {
    hide EqualFold, AnyCase;
    var t := First(ts);
    Folds(t);
    Distinct(t);
    if t.typ == Str { InsideStripped(t.value); }
  }

  lemma InsideStripped(value: string)
    ensures forall s :: Inside(value, s) <==> s == Stripped(value)
  {
    if |value| >= 2 && value[0] == '\'' {
      var last := value[|value| - 1];
      forall s ensures value == "'" + s + [last] <==> s == value[1..|value| - 1] {
        if value == "'" + s + [last] { assert ("'" + s + [last])[1..|s| + 1] == s; }
      }
    }
  }

  lemma ElementExact(t: Token, v: Val)
    ensures Element(t) == AVal(v) <==> ElemSays(t, v)
  {
    hide EqualFold, AnyCase;
    Folds(t);
    Distinct(t);
    if t.typ == Str { InsideStripped(t.value); }
  }

  lemma InStep(col: string, done: seq<Val>, ts: seq<Token>)
    ensures InTail(col, done, ts) ==
      if First(ts).typ == Ident && IsNil(First(ts)) then InTail(col, done, Rest(ts))
      else
        var e, sep := Element(First(ts)), First(Rest(ts));
        if e.NoVal? then Fail
        else if sep.typ == RParen then Ok(In(col, done + [e.v]), Drop(ts, 2))
        else if sep.typ == Comma then InTail(col, done + [e.v], Drop(ts, 2))
        else Fail
  {
    hide EqualFold, AnyCase, Element;
    Folds(First(ts));
    DropDrop(ts, 1, 1);
  }

  lemma {:induction false} ListReads(col: string, done: seq<Val>, ts: seq<Token>, n: nat, elems: seq<Val>)
    requires ListSays(Ahead(ts, n), elems)
    ensures InTail(col, done, ts) == Ok(In(col, done + elems), Drop(ts, n))
    decreases n
  {
    hide InTail, ElemSays, AnyCase, Element;
    InStep(col, done, ts);
    var list := Ahead(ts, n);
    assert list[0] == First(ts);
    if list[0].typ == Ident && IsNil(list[0]) {
      assert list[1..] == Ahead(Rest(ts), n - 1);
      ListReads(col, done, Rest(ts), n - 1, elems);
      DropDrop(ts, 1, n - 1);
    } else {
      ElementExact(list[0], elems[0]);
      assert list[1] == First(Rest(ts));
      if list[1].typ == RParen {
        assert elems == [elems[0]];
      } else {
        assert list[2..] == Ahead(Drop(ts, 2), n - 2);
        ListReads(col, done + [elems[0]], Drop(ts, 2), n - 2, elems[1..]);
        DropDrop(ts, 2, n - 2);
        assert done + [elems[0]] + elems[1..] == done + elems;
      }
    }
  }

  lemma {:induction false} ListFound(col: string, done: seq<Val>, ts: seq<Token>) returns (n: nat, elems: seq<Val>)
    requires InTail(col, done, ts).Ok?
    ensures ListSays(Ahead(ts, n), elems) && InTail(col, done, ts) == Ok(In(col, done + elems), Drop(ts, n))
    decreases |ts|
  {
    hide InTail, ElemSays, AnyCase, Element;
    InStep(col, done, ts);
    EndFails(col, done, ts);
    if First(ts).typ == Ident && IsNil(First(ts)) {
      n, elems := ListFound(col, done, Rest(ts));
      assert Ahead(ts, n + 1)[1..] == Ahead(Rest(ts), n);
      DropDrop(ts, 1, n);
      n := n + 1;
    } else {
      var v := Element(First(ts)).v;
      ElementExact(First(ts), v);
      if First(Rest(ts)).typ == RParen {
        n, elems := 2, [v];
      } else {
        n, elems := ListFound(col, done + [v], Drop(ts, 2));
        assert Ahead(ts, n + 2)[2..] == Ahead(Drop(ts, 2), n);
        DropDrop(ts, 2, n);
        assert done + [v] + elems == done + ([v] + elems);
        n, elems := n + 2, [v] + elems;
      }
    }
  }

  lemma EndFails(col: string, done: seq<Val>, ts: seq<Token>)
    ensures ts == [] ==> InTail(col, done, ts) == Fail
  {
  }

  // --- what follows a column ---

  /** The choice after a column, in the words of the grammar. */
  lemma LeafChoice(d: Dates, col: string, ts: seq<Token>)
    ensures var t := First(ts);
      ParseLeaf(d, col, ts) ==
        if t.typ == EOF || t.typ == RParen then Ok(Always, ts)
        else if IsIn(t) then ParseIn(col, Rest(ts))
        else if IsIs(t) then ParseIs(col, Rest(ts))
        else if IsDate(t) then ParseDate(d, ts)
        else if t.typ == LParen then Ok(Call, Rest(ts))
        else ParseValue(col, ComparisonOp(t.value), Rest(ts))
  {
    hide EqualFold, AnyCase, ParseIn, ParseIs, ParseDate, ParseValue, ComparisonOp;
    Folds(First(ts));
  }

  lemma IsChoice(col: string, ts: seq<Token>)
    ensures ParseIs(col, Rest(ts)) ==
      if IsNot(At(ts, 1)) then (if IsNil(At(ts, 2)) then Ok(NotNull(col), Drop(ts, 3)) else Fail)
      else if IsNil(At(ts, 1)) then Ok(IsNull(col), Drop(ts, 2))
      else Fail
  {
    hide EqualFold, AnyCase;
    Folds(At(ts, 1));
    Folds(At(ts, 2));
    DropStep(ts, 0);
    DropStep(ts, 1);
    DropStep(ts, 2);
  }

  lemma DateChoice(d: Dates, ts: seq<Token>)
    ensures var date, format, op := At(ts, 2).value, At(ts, 4).value, ComparisonOp(At(ts, 6).value);
      ParseDate(d, ts) ==
        if !d(date, format) then Fail
        else if op.NoOp? then Ok(Dated(Equal, date, format), Drop(ts, 6))
        else Ok(Dated(op.op, date, format), Drop(ts, 7))
  {
    hide ComparisonOp, Drop, At;
    DropStep(ts, 0);
    DropStep(ts, 1);
    DropStep(ts, 2);
    DropStep(ts, 3);
    DropStep(ts, 4);
    DropStep(ts, 5);
    DropStep(ts, 6);
  }

  lemma InChoice(col: string, ts: seq<Token>)
    ensures ParseIn(col, Rest(ts)) == if At(ts, 1).typ == LParen then InTail(col, [], Drop(ts, 2)) else Fail
  {
    hide InTail;
    DropStep(ts, 0);
    DropStep(ts, 1);
  }

  lemma TailReads(d: Dates, col: string, ts: seq<Token>, n: nat, node: Node)
    requires TailSays(d, col, Ahead(ts, n), At(ts, n), node)
    ensures ParseLeaf(d, col, ts) == Ok(node, Drop(ts, n))
  {
    hide AnyCase, ParseLeaf, ParseIn, ParseIs, ParseDate, ParseValue, ComparisonOp, OpSays, Says, ListSays, InTail, At, Drop;
    LeafChoice(d, col, ts);
    var tail := Ahead(ts, n);
    DropStep(ts, 0);
    DropStep(ts, 1);
    Distinct(At(ts, 0));
    Distinct(At(ts, 1));
    match node
    case Always =>
    case In(_, elems) =>
      assert tail[2..] == Ahead(Drop(ts, 2), n - 2) by { DropDrop(ts, 2, n - 2); }
      InChoice(col, ts);
      ListReads(col, [], Drop(ts, 2), n - 2, elems);
      DropDrop(ts, 2, n - 2);
      assert [] + elems == elems;
    case IsNull(_) =>
      if IsIs(At(ts, 0)) {
        IsChoice(col, ts);
      } else {
        var op :| OpSays(At(ts, 0), op);
        OpMeans(At(ts, 0), op);
        ValueExact(col, op, Rest(ts), node);
      }
    case NotNull(_) => IsChoice(col, ts);
    case Call =>
    case Dated(op, date, format) =>
      DateChoice(d, ts);
      forall o ensures ComparisonOp(At(ts, 6).value) == Known(o) <==> OpSays(At(ts, 6), o) { OpMeans(At(ts, 6), o); }
      if n == 6 {
        assert ComparisonOp(At(ts, 6).value).NoOp?;
      }
    case Cmp(_, op, v) =>
      OpMeans(At(ts, 0), op);
      ValueExact(col, op, Rest(ts), node);
  }

  lemma TailFound(d: Dates, col: string, ts: seq<Token>) returns (n: nat)
    requires ParseLeaf(d, col, ts).Ok?
    ensures TailSays(d, col, Ahead(ts, n), At(ts, n), ParseLeaf(d, col, ts).node)
    ensures ParseLeaf(d, col, ts).rest == Drop(ts, n)
  {
    hide AnyCase, ParseLeaf, ParseIn, ParseIs, ParseDate, ParseValue, ComparisonOp, OpSays, Says, ListSays, InTail, At, Drop;
    LeafChoice(d, col, ts);
    DropStep(ts, 0);
    DropStep(ts, 1);
    Distinct(At(ts, 0));
    Distinct(At(ts, 1));
    var t := At(ts, 0);
    if t.typ == EOF || t.typ == RParen {
      n := 0;
    } else if IsIn(t) {
      InChoice(col, ts);
      var k, elems := ListFound(col, [], Drop(ts, 2));
      n := k + 2;
      DropDrop(ts, 2, k);
      assert Ahead(ts, n)[2..] == Ahead(Drop(ts, 2), k);
      assert [] + elems == elems;
      ListNotEmpty(Ahead(Drop(ts, 2), k), elems);
    } else if IsIs(t) {
      IsChoice(col, ts);
      n := if IsNot(At(ts, 1)) then 3 else 2;
    } else if IsDate(t) {
      DateChoice(d, ts);
      var op := ComparisonOp(At(ts, 6).value);
      forall o ensures op == Known(o) <==> OpSays(At(ts, 6), o) { OpMeans(At(ts, 6), o); }
      n := if op.NoOp? then 6 else 7;
    } else if t.typ == LParen {
      n := 1;
    } else {
      var op := ComparisonOp(t.value);
      if op.NoOp? { NoOperator(col, Rest(ts)); }
      OpMeans(t, op.op);
      ValueExact(col, op.op, Rest(ts), ParseLeaf(d, col, ts).node);
      n := 2;
    }
  }

  lemma ListNotEmpty(ts: seq<Token>, elems: seq<Val>)
    requires ListSays(ts, elems)
    ensures ts != []
  {
  }

  // --- every sentence is read ---

  predicate Single(f: Form) { !f.Either? && !f.Both? }

  lemma OneAhead(t: Token, rest: seq<Token>, ts: seq<Token>)
    ensures Ahead(ts, |[t] + rest|) == [t] + rest <==> First(ts) == t && Ahead(Rest(ts), |rest|) == rest
    ensures Drop(ts, |[t] + rest|) == Drop(Rest(ts), |rest|)
  {
    AheadSplit(ts, [t], rest);
    DropStep(ts, 0);
    DropStep(ts, 1);
    assert Ahead(ts, 1) == [First(ts)];
    assert ([First(ts)] == [t]) <==> First(ts) == t;
  }

  /** A form in three parts reads the tokens when its parts read them one after another. */
  lemma JoinedReads(a: seq<Token>, t: Token, b: seq<Token>, ts: seq<Token>)
    ensures var mid := Drop(ts, |a|);
      && (Ahead(ts, |a + [t] + b|) == a + [t] + b <==>
            Ahead(ts, |a|) == a && First(mid) == t && Ahead(Rest(mid), |b|) == b)
      && Drop(ts, |a + [t] + b|) == Drop(Rest(mid), |b|)
  {
    hide Ahead, Drop;
    assert a + [t] + b == a + ([t] + b);
    AheadSplit(ts, a, [t] + b);
    OneAhead(t, b, Drop(ts, |a|));
  }

  lemma Keywords(t: Token)
    ensures Keyword(t, "OR") <==> t.typ == Ident && IsOr(t)
    ensures Keyword(t, "AND") <==> t.typ == Ident && IsAnd(t)
    ensures Keyword(t, "NOT") <==> t.typ == Ident && IsNot(t)
  {
    hide EqualFold, AnyCase;
    Folds(t);
  }

  lemma NotChoice(d: Dates, ts: seq<Token>)
    ensures ParseNot(d, ts) ==
      if First(ts).typ == Ident && IsNot(First(ts)) then
        var p := ParseNot(d, Rest(ts));
        if p.Fail? then Fail else Ok(Not(p.node), p.rest)
      else if First(ts).typ == LParen then
        var p := ParseOr(d, Rest(ts));
        if p.Fail? then Fail else Ok(p.node, Rest(p.rest))
      else if First(ts).typ == Ident then ParseLeaf(d, First(ts).value, Rest(ts))
      else Fail
  {
    hide Keyword, AnyCase, ParseOr, ParseLeaf;
    Keywords(First(ts));
    NotStep(d, ts);
  }

  lemma AndChoice(d: Dates, left: Node, ts: seq<Token>)
    ensures AndTail(d, left, ts) ==
      if First(ts).typ == Ident && IsAnd(First(ts)) then
        var p := ParseNot(d, Rest(ts));
        if p.Fail? then Fail else AndTail(d, And(left, p.node), p.rest)
      else Ok(left, ts)
  {
    hide Keyword, AnyCase, ParseNot;
    Keywords(First(ts));
  }

  lemma OrChoice(d: Dates, left: Node, ts: seq<Token>)
    ensures OrTail(d, left, ts) ==
      if First(ts).typ == Ident && IsOr(First(ts)) then
        var p := ParseAnd(d, Rest(ts));
        if p.Fail? then Fail else OrTail(d, Or(left, p.node), p.rest)
      else Ok(left, ts)
  {
    hide Keyword, AnyCase, ParseAnd;
    Keywords(First(ts));
  }

  lemma AndStart(d: Dates, ts: seq<Token>)
    ensures ParseAnd(d, ts) == if ParseNot(d, ts).Fail? then Fail else AndTail(d, ParseNot(d, ts).node, ParseNot(d, ts).rest)
  {
    hide ParseNot, AndTail;
  }

  lemma OrStart(d: Dates, ts: seq<Token>)
    ensures ParseOr(d, ts) == if ParseAnd(d, ts).Fail? then Fail else OrTail(d, ParseAnd(d, ts).node, ParseAnd(d, ts).rest)
  {
    hide ParseAnd, OrTail;
  }

  lemma {:induction false} NotReads(d: Dates, f: Form, ts: seq<Token>)
    requires Single(f) && Reads(f, ts) && Good(d, f, First(After(f, ts)))
    ensures ParseNot(d, ts) == Ok(Tree(f), After(f, ts))
    decreases f, 0
  {
    hide ParseNot, ParseOr, ParseLeaf, Ahead, Drop, AnyCase, TailSays;
    NotChoice(d, ts);
    match f
    case Negated(w, e) =>
      OneAhead(w, Yield(e), ts);
      NotReads(d, e, Rest(ts));
    case Group(open, e, close) =>
      assert [open] + Yield(e) + [close] == [open] + (Yield(e) + [close]);
      OneAhead(open, Yield(e) + [close], ts);
      var inside := Rest(ts);
      JoinedReads(Yield(e), close, [], inside);
      assert Yield(e) + [close] + [] == Yield(e) + [close];
      DropStep(Rest(Drop(inside, |Yield(e)|)), 0);
      OrReads(d, e, inside);
      OrChoice(d, Tree(e), After(e, inside));
    case Column(name, tail, says) =>
      OneAhead(name, tail, ts);
      DropStep(Rest(ts), |tail|);
      TailReads(d, name.value, Rest(ts), |tail|, says);
  }

  lemma {:induction false} AndReads(d: Dates, f: Form, ts: seq<Token>)
    requires !f.Either? && Reads(f, ts) && Good(d, f, First(After(f, ts)))
    ensures ParseAnd(d, ts) == AndTail(d, Tree(f), After(f, ts))
    decreases f, 1
  {
    hide ParseNot, ParseAnd, AndTail, Ahead, Drop, AnyCase, TailSays;
    if f.Both? {
      JoinedReads(Yield(f.left), f.word, Yield(f.right), ts);
      AndReads(d, f.left, ts);
      var mid := After(f.left, ts);
      NotReads(d, f.right, Rest(mid));
      AndChoice(d, Tree(f.left), mid);
    } else {
      NotReads(d, f, ts);
      AndStart(d, ts);
    }
  }

  lemma {:induction false} OrReads(d: Dates, f: Form, ts: seq<Token>)
    requires Reads(f, ts) && Good(d, f, First(After(f, ts)))
    requires !(First(After(f, ts)).typ == Ident && IsAnd(First(After(f, ts))))
    ensures ParseOr(d, ts) == OrTail(d, Tree(f), After(f, ts))
    decreases f, 2
  {
    hide ParseAnd, ParseOr, AndTail, OrTail, Ahead, Drop, AnyCase, TailSays;
    var after := After(f, ts);
    if f.Either? {
      JoinedReads(Yield(f.left), f.word, Yield(f.right), ts);
      Distinct(f.word);
      OrReads(d, f.left, ts);
      var mid := After(f.left, ts);
      AndReads(d, f.right, Rest(mid));
      AndChoice(d, Tree(f.right), after);
      OrChoice(d, Tree(f.left), mid);
    } else {
      AndReads(d, f, ts);
      AndChoice(d, Tree(f), after);
      OrStart(d, ts);
    }
  }

  // --- and nothing else ---

  /** The form reads the tokens as the parser did. */
  predicate Explains(d: Dates, f: Form, ts: seq<Token>, p: Parsed) {
    p == Ok(Tree(f), After(f, ts)) && Reads(f, ts) && Good(d, f, First(After(f, ts)))
  }

  lemma {:induction false} NotFound(d: Dates, ts: seq<Token>) returns (f: Form)
    requires ParseNot(d, ts).Ok?
    ensures Single(f) && Explains(d, f, ts, ParseNot(d, ts))
    decreases |ts|, 3
  {
    hide ParseNot, ParseOr, ParseLeaf, Ahead, Drop, AnyCase, TailSays;
    NotChoice(d, ts);
    SomeLeft(d, ts);
    if First(ts).typ == Ident && IsNot(First(ts)) {
      var e := NotFound(d, Rest(ts));
      f := Negated(First(ts), e);
      OneAhead(First(ts), Yield(e), ts);
    } else if First(ts).typ == LParen {
      var inside := Rest(ts);
      var e := OrFound(d, inside);
      var close := First(After(e, inside));
      f := Group(First(ts), e, close);
      assert [First(ts)] + Yield(e) + [close] == [First(ts)] + (Yield(e) + [close]);
      OneAhead(First(ts), Yield(e) + [close], ts);
      JoinedReads(Yield(e), close, [], inside);
      assert Yield(e) + [close] + [] == Yield(e) + [close];
      NoneAhead(Rest(Drop(inside, |Yield(e)|)));
    } else {
      var n := TailFound(d, First(ts).value, Rest(ts));
      var tail := Ahead(Rest(ts), n);
      f := Column(First(ts), tail, ParseNot(d, ts).node);
      OneAhead(First(ts), tail, ts);
      DropStep(Rest(ts), n);
    }
  }

  lemma NoneAhead(ts: seq<Token>)
    ensures Ahead(ts, 0) == [] && Drop(ts, 0) == ts
  {
  }

  lemma SomeLeft(d: Dates, ts: seq<Token>)
    requires ParseNot(d, ts).Ok?
    ensures |Rest(ts)| < |ts|
  {
    hide ParseNot;
  }

  lemma {:induction false} AndFound(d: Dates, f: Form, ts: seq<Token>) returns (g: Form)
    requires !f.Either? && Reads(f, ts) && Good(d, f, First(After(f, ts)))
    requires AndTail(d, Tree(f), After(f, ts)).Ok?
    ensures !g.Either? && Explains(d, g, ts, AndTail(d, Tree(f), After(f, ts)))
    ensures var t := First(After(g, ts)); !(t.typ == Ident && IsAnd(t))
    decreases |After(f, ts)|
  {
    hide ParseNot, AndTail, Ahead, Drop, AnyCase, TailSays;
    var mid := After(f, ts);
    AndChoice(d, Tree(f), mid);
    if First(mid).typ == Ident && IsAnd(First(mid)) {
      var r := NotFound(d, Rest(mid));
      JoinedReads(Yield(f), First(mid), Yield(r), ts);
      g := AndFound(d, Both(f, First(mid), r), ts);
    } else {
      g := f;
    }
  }

  lemma {:induction false} EitherFound(d: Dates, f: Form, ts: seq<Token>) returns (g: Form)
    requires Reads(f, ts) && Good(d, f, First(After(f, ts)))
    requires var t := First(After(f, ts)); !(t.typ == Ident && IsAnd(t))
    requires OrTail(d, Tree(f), After(f, ts)).Ok?
    ensures Explains(d, g, ts, OrTail(d, Tree(f), After(f, ts))) && Ends(First(After(g, ts)))
    decreases |After(f, ts)|
  {
    hide ParseNot, ParseAnd, AndTail, OrTail, Ahead, Drop, AnyCase, TailSays;
    var mid := After(f, ts);
    OrChoice(d, Tree(f), mid);
    if First(mid).typ == Ident && IsOr(First(mid)) {
      AndStart(d, Rest(mid));
      var n := NotFound(d, Rest(mid));
      var r := AndFound(d, n, Rest(mid));
      JoinedReads(Yield(f), First(mid), Yield(r), ts);
      g := EitherFound(d, Either(f, First(mid), r), ts);
    } else {
      g := f;
    }
  }

  lemma {:induction false} OrFound(d: Dates, ts: seq<Token>) returns (f: Form)
    requires ParseOr(d, ts).Ok?
    ensures Explains(d, f, ts, ParseOr(d, ts)) && Ends(First(After(f, ts)))
    decreases |ts|, 5
  {
    hide ParseNot, ParseAnd, ParseOr, AndTail, OrTail, Ahead, Drop, AnyCase, TailSays;
    OrStart(d, ts);
    AndStart(d, ts);
    f := NotFound(d, ts);
    f := AndFound(d, f, ts);
    f := EitherFound(d, f, ts);
  }

  /** The parser accepts exactly the conditions of the grammar, each with the tree it stands for, and stops right after it. */
  lemma ConditionExact(d: Dates, ts: seq<Token>, node: Node, rest: seq<Token>)
    ensures ParseOr(d, ts) == Ok(node, rest) <==>
      exists f :: Tree(f) == node && After(f, ts) == rest && Reads(f, ts) && Good(d, f, First(rest)) && Ends(First(rest))
  {
    hide ParseOr, Ahead, Drop, AnyCase, TailSays;
    if ParseOr(d, ts) == Ok(node, rest) {
      var f := OrFound(d, ts);
      assert Tree(f) == node && After(f, ts) == rest;
    }
    forall f | After(f, ts) == rest && Reads(f, ts) && Good(d, f, First(rest)) && Ends(First(rest))
      ensures ParseOr(d, ts) == Ok(Tree(f), rest)
    {
      OrReads(d, f, ts);
      OrChoice(d, Tree(f), rest);
    }
  }

  /** A word after an operator: TRUE is the integer 1, FALSE 0, NULL asks for null, and any other word is its text. */
  lemma WordValue(d: Dates, name: Token, op: Token, known: CmpOp, word: Token, rest: seq<Token>)
    requires name.typ == Ident && !IsNot(name) && op.typ == Ident && OpSays(op, known) && word.typ == Ident
    ensures var col := name.value;
      ParseNot(d, [name, op, word] + rest) ==
        Ok(if IsTrue(word) then Cmp(col, known, Int("1"))
           else if IsFalse(word) then Cmp(col, known, Int("0"))
           else if IsNil(word) then IsNull(col)
           else Cmp(col, known, Text(word.value)), rest)
  {
    hide ParseNot, AnyCase, Ahead, Drop, OpSays;
    Distinct(word);
    var says := if IsTrue(word) then Cmp(name.value, known, Int("1")) else if IsFalse(word) then Cmp(name.value, known, Int("0"))
                else if IsNil(word) then IsNull(name.value) else Cmp(name.value, known, Text(word.value));
    var f := Column(name, [op, word], says);
    assert Yield(f) == [name, op, word];
    AheadOf(Yield(f), rest);
    NotReads(d, f, [name, op, word] + rest);
  }
}
