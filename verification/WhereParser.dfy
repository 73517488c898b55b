/** The recursive-descent parser of WHERE clauses: internal/gomdb/sql.go. */
module WhereParser {
  import opened WhereLexer

  // --- condition trees ---

  datatype CmpOp = Equal | LT | GT | LTEQ | GTEQ | NEQ | Like | ILike

  /** A literal; numbers keep their text. TRUE and FALSE are the integers 1 and 0. */
  datatype Val = Text(s: string) | Int(s: string) | Double(s: string)

  datatype Node =
    | Or(left: Node, right: Node)
    | And(left: Node, right: Node)
    | Not(arg: Node)
    | Cmp(col: string, op: CmpOp, val: Val)
    | IsNull(col: string)
    | NotNull(col: string)
    | In(col: string, elems: seq<Val>)
    | Always                                        // a column name on its own
    | Call                                          // a column name before a parenthesis
    | Dated(op: CmpOp, date: string, format: string) // strptime(...)

  // --- keywords ---

  function Lower(c: char): char { if 'A' <= c <= 'Z' then c + 32 as char else c }

  predicate EqualFold(a: string, b: string) { |a| == |b| && forall i :: 0 <= i < |a| ==> Lower(a[i]) == Lower(b[i]) }

  predicate Keyword(t: Token, word: string) { t.typ == Ident && EqualFold(t.value, word) }

  datatype MaybeOp = NoOp | Known(op: CmpOp)

  function ComparisonOp(value: string): MaybeOp {
    if value == "=" then Known(Equal) else if value == "<" then Known(LT) else if value == ">" then Known(GT)
    else if value == "<=" then Known(LTEQ) else if value == ">=" then Known(GTEQ) else if value == "<>" then Known(NEQ)
    else if EqualFold(value, "LIKE") then Known(Like) else if EqualFold(value, "ILIKE") then Known(ILike) else NoOp
  }

  function Stripped(s: string): string { if |s| >= 2 && s[0] == '\'' then s[1..|s| - 1] else s }

  // --- what parsing means, on token lists ---

  datatype Parsed = Fail | Ok(node: Node, rest: seq<Token>)

  function First(ts: seq<Token>): Token { if ts == [] then EOF_TOKEN else ts[0] }
  function Rest(ts: seq<Token>): seq<Token> { if ts == [] then [] else ts[1..] }

  /** Which dates `strptime` accepts; parsing them is not modelled. */
  type Dates = (string, string) -> bool

  function ParseOr(d: Dates, ts: seq<Token>): (p: Parsed)
    ensures p.Ok? ==> |p.rest| < |ts|
    decreases |ts|, 5
  {
    match ParseAnd(d, ts)
    case Fail => Fail
    case Ok(node, rest) => OrTail(d, node, rest)
  }

  function OrTail(d: Dates, left: Node, ts: seq<Token>): (p: Parsed)
    ensures p.Ok? ==> |p.rest| <= |ts|
    decreases |ts|, 1
  {
    if Keyword(First(ts), "OR") then
      match ParseAnd(d, Rest(ts))
      case Fail => Fail
      case Ok(right, rest) => OrTail(d, Or(left, right), rest)
    else Ok(left, ts)
  }

  function ParseAnd(d: Dates, ts: seq<Token>): (p: Parsed)
    ensures p.Ok? ==> |p.rest| < |ts|
    decreases |ts|, 4
  {
    match ParseNot(d, ts)
    case Fail => Fail
    case Ok(node, rest) => AndTail(d, node, rest)
  }

  function AndTail(d: Dates, left: Node, ts: seq<Token>): (p: Parsed)
    ensures p.Ok? ==> |p.rest| <= |ts|
    decreases |ts|, 1
  {
    if Keyword(First(ts), "AND") then
      match ParseNot(d, Rest(ts))
      case Fail => Fail
      case Ok(right, rest) => AndTail(d, And(left, right), rest)
    else Ok(left, ts)
  }

  function ParseNot(d: Dates, ts: seq<Token>): (p: Parsed)
    ensures p.Ok? ==> |p.rest| < |ts|
    decreases |ts|, 3
  {
    if Keyword(First(ts), "NOT") then
      match ParseNot(d, Rest(ts))
      case Fail => Fail
      case Ok(node, rest) => Ok(Not(node), rest)
    else ParseComparison(d, ts)
  }

  function ParseComparison(d: Dates, ts: seq<Token>): (p: Parsed)
    ensures p.Ok? ==> |p.rest| < |ts|
    decreases |ts|, 2
  {
    if First(ts).typ == LParen then
      match ParseOr(d, Rest(ts))
      case Fail => Fail
      case Ok(node, rest) => Ok(node, Rest(rest))
    else if First(ts).typ != Ident then Fail
    else ParseLeaf(d, First(ts).value, Rest(ts))
  }

  /** What follows a column name. */
  function ParseLeaf(d: Dates, col: string, ts: seq<Token>): (p: Parsed)
    ensures p.Ok? ==> |p.rest| <= |ts|
  {
    var next := First(ts);
    if next.typ == EOF || next.typ == RParen then Ok(Always, ts)
    else if EqualFold(next.value, "IN") then ParseIn(col, Rest(ts))
    else if EqualFold(next.value, "IS") then ParseIs(col, Rest(ts))
    else if EqualFold(next.value, "STRPTIME") then ParseDate(d, ts)
    else if next.typ == LParen then Ok(Call, Rest(ts))
    else ParseValue(col, ComparisonOp(next.value), Rest(ts))
  }

  function ParseIs(col: string, ts: seq<Token>): (p: Parsed)
    ensures p.Ok? ==> |p.rest| <= |ts|
  {
    var notNull := EqualFold(First(ts).value, "NOT");
    var rest := if notNull then Rest(ts) else ts;
    if !EqualFold(First(rest).value, "NULL") then Fail
    else Ok(if notNull then NotNull(col) else IsNull(col), Rest(rest))
  }

  /** STRPTIME, (, date, comma, format, ), and perhaps an operator; the marks are not looked at. */
  function ParseDate(d: Dates, ts: seq<Token>): (p: Parsed)
    ensures p.Ok? ==> |p.rest| <= |ts|
  {
    var atDate := Rest(Rest(ts));
    var atFormat := Rest(Rest(atDate));
    var after := Rest(Rest(atFormat));
    var date, format := First(atDate).value, First(atFormat).value;
    if !d(date, format) then Fail
    else match ComparisonOp(First(after).value)
      case NoOp => Ok(Dated(Equal, date, format), after)
      case Known(op) => Ok(Dated(op, date, format), Rest(after))
  }

  function ParseValue(col: string, op: MaybeOp, ts: seq<Token>): (p: Parsed)
    ensures p.Ok? ==> |p.rest| <= |ts|
  {
    var val := First(ts);
    if op.NoOp? then Fail
    else match val.typ
      case Str => Ok(Cmp(col, op.op, Text(Stripped(val.value))), Rest(ts))
      case Number => Ok(Cmp(col, op.op, if '.' in val.value then Double(val.value) else Int(val.value)), Rest(ts))
      case Ident =>
        if EqualFold(val.value, "NULL") then Ok(IsNull(col), Rest(ts))
        else Ok(Cmp(col, op.op, if EqualFold(val.value, "TRUE") then Int("1") else if EqualFold(val.value, "FALSE") then Int("0")
                                else Text(val.value)), Rest(ts))
      case _ => Fail
  }

  function ParseIn(col: string, ts: seq<Token>): (p: Parsed)
    ensures p.Ok? ==> |p.rest| <= |ts|
  {
    if First(ts).typ != LParen then Fail else InTail(col, [], Rest(ts))
  }

  datatype MaybeVal = NoVal | AVal(v: Val)

  /** An element of an IN list; its number keeps its text whatever it looks like. */
  function Element(t: Token): MaybeVal {
    match t.typ
    case Str => AVal(Text(Stripped(t.value)))
    case Number => AVal(Double(t.value))
    case Ident => if EqualFold(t.value, "TRUE") then AVal(Int("1")) else if EqualFold(t.value, "FALSE") then AVal(Int("0")) else NoVal
    case _ => NoVal
  }

  function InTail(col: string, elems: seq<Val>, ts: seq<Token>): (p: Parsed)
    ensures p.Ok? ==> |p.rest| <= |ts|
    decreases |ts|
  {
    if Keyword(First(ts), "NULL") then InTail(col, elems, Rest(ts))
    else
      var e, sep := Element(First(ts)), First(Rest(ts));
      if e.NoVal? then Fail
      else if sep.typ == RParen then Ok(In(col, elems + [e.v]), Rest(Rest(ts)))
      else if sep.typ == Comma then InTail(col, elems + [e.v], Rest(Rest(ts)))
      else Fail
  }

  // --- the parser object ---

  class Parser {
    const l: Lexer
    const dates: Dates
    var cur: Token
    var peeked: bool

    constructor (query: string, dates: Dates)
      ensures Valid() && Tokens() == Lex(query, 0) && fresh(l)
    {
      l := new Lexer(query);
      this.dates, cur, peeked := dates, EOF_TOKEN, false;
    }

    ghost predicate Valid()
      reads this, l
    {
      l.pos <= |l.input| && (peeked && cur.typ == EOF ==> cur == EOF_TOKEN && Lex(l.input, l.pos) == [])
    }

    /** The tokens still to come. */
    ghost function Tokens(): seq<Token>
      requires Valid()
      reads this, l
    {
      if peeked && cur.typ != EOF then [cur] + Lex(l.input, l.pos) else Lex(l.input, l.pos)
    }

    method Peek() returns (t: Token)
      requires Valid()
      modifies this, l
      ensures Valid() && Tokens() == old(Tokens()) && t == First(Tokens()) && peeked && cur == t
    {
      hide LexOne;
      if !peeked {
        cur := l.Next();
        peeked := true;
        LexEnd(l.input);
      }
      t := cur;
    }

    method Next() returns (t: Token)
      requires Valid()
      modifies this, l
      ensures Valid() && t == First(old(Tokens())) && Tokens() == Rest(old(Tokens()))
    {
      hide LexOne;
      if peeked {
        peeked := false;
        return cur;
      }
      LexEnd(l.input);
      t := l.Next();
    }

    method ParseOrM() returns (ok: bool, node: Node)
      requires Valid()
      modifies this, l
      ensures Valid() && Returned(ok, node, Tokens(), ParseOr(dates, old(Tokens())))
      decreases |Tokens()|, 5
    {
      hide ParseAnd;
      ok, node := ParseAndM();
      if !ok {
        return;
      }
      ghost var goal := ParseOr(dates, old(Tokens()));
      while true
        invariant Valid() && goal == OrTail(dates, node, Tokens()) && |Tokens()| < |old(Tokens())|
        decreases |Tokens()|
      {
        var tok := Peek();
        if !(tok.typ == Ident && EqualFold(tok.value, "OR")) {
          return true, node;
        }
        var _ := Next();
        var right;
        ok, right := ParseAndM();
        if !ok {
          return;
        }
        node := Or(node, right);
      }
    }

    method ParseAndM() returns (ok: bool, node: Node)
      requires Valid()
      modifies this, l
      ensures Valid() && Returned(ok, node, Tokens(), ParseAnd(dates, old(Tokens())))
      decreases |Tokens()|, 4
    {
      hide ParseNot;
      ok, node := ParseNotM();
      if !ok {
        return;
      }
      ghost var goal := ParseAnd(dates, old(Tokens()));
      while true
        invariant Valid() && goal == AndTail(dates, node, Tokens()) && |Tokens()| < |old(Tokens())|
        decreases |Tokens()|
      {
        var tok := Peek();
        if !(tok.typ == Ident && EqualFold(tok.value, "AND")) {
          return true, node;
        }
        var _ := Next();
        var right;
        ok, right := ParseNotM();
        if !ok {
          return;
        }
        node := And(node, right);
      }
    }

    method ParseNotM() returns (ok: bool, node: Node)
      requires Valid()
      modifies this, l
      ensures Valid() && Returned(ok, node, Tokens(), ParseNot(dates, old(Tokens())))
      decreases |Tokens()|, 3
    {
      hide ParseComparison, ParseNot, EqualFold, Tokens, Valid;
      ghost var ts := Tokens();
      NotStep(dates, ts);
      var tok := Peek();
      if tok.typ == Ident && EqualFold(tok.value, "NOT") {
        var _ := Next();
        var left;
        ok, left := ParseNotM();
        if !ok {
          return false, Always;
        }
        return true, Not(left);
      }
      ok, node := ParseComparisonM();
    }

    method ParseComparisonM() returns (ok: bool, node: Node)
      requires Valid()
      modifies this, l
      ensures Valid() && Returned(ok, node, Tokens(), ParseComparison(dates, old(Tokens())))
      decreases |Tokens()|, 2
    {
      hide ParseOr, ParseLeaf;
      var tok := Peek();
      if tok.typ == LParen {
        var _ := Next();
        ok, node := ParseOrM();
        if !ok {
          return;
        }
        var _ := Next();
        return true, node;
      }
      if tok.typ != Ident {
        return false, Always;
      }
      var colName := tok.value;
      var _ := Next();
      ok, node := ParseLeafM(colName);
    }

    method ParseLeafM(colName: string) returns (ok: bool, node: Node)
      requires Valid()
      modifies this, l
      ensures Valid() && Returned(ok, node, Tokens(), ParseLeaf(dates, colName, old(Tokens())))
      decreases |Tokens()|, 1
    {
      hide ParseIn, ParseIs, ParseDate, ParseValue, EqualFold;
      var nextTok := Peek();
      if nextTok.typ == EOF || nextTok.typ == RParen {
        return true, Always;
      }
      if EqualFold(nextTok.value, "IN") {
        var _ := Next();
        ok, node := ParseInList(colName);
        return;
      }
      if EqualFold(nextTok.value, "IS") {
        var _ := Next();
        ok, node := ParseIsM(colName);
        return;
      }
      if EqualFold(nextTok.value, "STRPTIME") {
        ok, node := ParseDateM();
        return;
      }
      if nextTok.typ == LParen {
        var _ := Next();
        return true, Call;
      }
      var op := ComparisonOp(nextTok.value);
      if op.NoOp? {
        NoOperator(colName, Rest(Tokens()));
        return false, Always;
      }
      var _ := Next();
      ok, node := ParseValueM(colName, op.op);
    }

    method ParseIsM(colName: string) returns (ok: bool, node: Node)
      requires Valid()
      modifies this, l
      ensures Valid() && Returned(ok, node, Tokens(), ParseIs(colName, old(Tokens())))
    {
      hide EqualFold;
      var notNull := false;
      var peek := Peek();
      if EqualFold(peek.value, "NOT") {
        var _ := Next();
        notNull := true;
      }
      var nullTok := Next();
      if !EqualFold(nullTok.value, "NULL") {
        return false, Always;
      }
      return true, if notNull then NotNull(colName) else IsNull(colName);
    }

    method ParseDateM() returns (ok: bool, node: Node)
      requires Valid()
      modifies this, l
      ensures Valid() && Returned(ok, node, Tokens(), ParseDate(dates, old(Tokens())))
    {
      hide ComparisonOp;
      var _ := Next();
      var _ := Next();
      var date := Next();
      var _ := Next();
      var format := Next();
      var _ := Next();
      if !dates(date.value, format.value) {
        return false, Always;
      }
      var opTok := Peek();
      var op := ComparisonOp(opTok.value);
      if op.NoOp? {
        return true, Dated(Equal, date.value, format.value);
      }
      var _ := Next();
      return true, Dated(op.op, date.value, format.value);
    }

    method ParseValueM(colName: string, op: CmpOp) returns (ok: bool, node: Node)
      requires Valid()
      modifies this, l
      ensures Valid() && Returned(ok, node, Tokens(), ParseValue(colName, Known(op), old(Tokens())))
    {
      hide EqualFold, Stripped;
      var valTok := Next();
      match valTok.typ
      case Str => return true, Cmp(colName, op, Text(Stripped(valTok.value)));
      case Number =>
        return true, Cmp(colName, op, if '.' in valTok.value then Double(valTok.value) else Int(valTok.value));
      case Ident =>
        if EqualFold(valTok.value, "NULL") {
          return true, IsNull(colName);
        }
        if EqualFold(valTok.value, "TRUE") {
          return true, Cmp(colName, op, Int("1"));
        }
        if EqualFold(valTok.value, "FALSE") {
          return true, Cmp(colName, op, Int("0"));
        }
        return true, Cmp(colName, op, Text(valTok.value));
      case _ => return false, Always;
    }

    method ParseInList(colName: string) returns (ok: bool, node: Node)
      requires Valid()
      modifies this, l
      ensures Valid() && Returned(ok, node, Tokens(), ParseIn(colName, old(Tokens())))
    {
      hide EqualFold, Element;
      var open := Next();
      if open.typ != LParen {
        return false, Always;
      }
      var elems: seq<Val> := [];
      ghost var goal := ParseIn(colName, old(Tokens()));
      while true
        invariant Valid() && goal == InTail(colName, elems, Tokens())
        decreases |Tokens()|
      {
        var tok := Next();
        if tok.typ == Ident && EqualFold(tok.value, "NULL") {
          continue;
        }
        var e := Element(tok);
        if e.NoVal? {
          return false, Always;
        }
        elems := elems + [e.v];
        var sep := Next();
        if sep.typ == RParen {
          return true, In(colName, elems);
        }
        if sep.typ != Comma {
          return false, Always;
        }
      }
    }
  }

  /** A method's answer against the meaning. */
  ghost predicate Returned(ok: bool, node: Node, rest: seq<Token>, p: Parsed) {
    if p.Fail? then !ok else ok && p == Ok(node, rest)
  }

  lemma NotStep(d: Dates, ts: seq<Token>)
    ensures ParseNot(d, ts) ==
      if Keyword(First(ts), "NOT") then
        match ParseNot(d, Rest(ts))
        case Fail => Fail
        case Ok(node, rest) => Ok(Not(node), rest)
      else ParseComparison(d, ts)
  {
  }

  lemma LexEnd(s: string)
    ensures Lex(s, |s|) == []
  {
  }

  lemma NoOperator(col: string, ts: seq<Token>)
    ensures ParseValue(col, NoOp, ts) == Fail
  {
  }
}
