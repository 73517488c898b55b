/** Writing a condition as text and parsing it back: internal/gomdb/sql.go. */
module WhereRoundTrip {
  import opened WhereLexer
  import opened WhereParser
  import opened WhereGrammar

  // --- any way of writing ---

  /**
   However a condition of the grammar is written (words in any case, any white space, parentheses where they
   are not needed), its text, followed by one whose first token is not AND or OR, parses to the tree it stands
   for, and parsing stops at that text.
   */
  lemma WrittenForm(d: Dates, f: Form, ps: seq<Piece>, tail: string)
    requires TokensOf(ps) == Yield(f) && Separate(ps, tail)
    requires var next := First(Lex(Written(ps) + tail, |Written(ps)|)); Good(d, f, next) && Ends(next)
    ensures var s := Written(ps) + tail; ParseOr(d, Lex(s, 0)) == Ok(Tree(f), Lex(s, |Written(ps)|))
  {
    hide ParseOr, Lex, Written, Separate, Good, Ahead, Drop, TokensOf;
    var text := Written(ps);
    var s := text + tail;
    assert s[0..|text|] == text && s[0 + |text|..] == tail;
    WrittenRead(ps, s, 0);
    var rest := Lex(s, |text|);
    AheadOf(Yield(f), rest);
    ConditionExact(d, Lex(s, 0), Tree(f), rest);
  }

  // --- one way of writing every tree ---

  function OpText(op: CmpOp): Spelled {
    match op
    case Equal => Op("=") case LT => Op("<") case GT => Op(">") case LTEQ => Op("<=") case GTEQ => Op(">=") case NEQ => Op("<>")
    case Like => Word("LIKE") case ILike => Word("ILIKE")
  }

  /** A text that may stand without quotes. */
  predicate PlainWord(s: string) {
    Spellable(Word(s)) && !AnyCase(s, "TRUE", "true") && !AnyCase(s, "FALSE", "false") && !AnyCase(s, "NULL", "null")
  }

  /** A literal, as a word where `words` asks for it and there is one. */
  function ValText(v: Val, words: bool): Spelled {
    match v
    case Text(s) => if words && PlainWord(s) then Word(s) else Quoted(s)
    case Int(s) => if words && s == "1" then Word("TRUE") else if words && s == "0" then Word("FALSE") else Digits(s)
    case Double(s) => Digits(s)
  }

  function ElemText(v: Val): Spelled {
    match v
    case Text(s) => Quoted(s)
    case Int(s) => Word(if s == "1" then "TRUE" else "FALSE")
    case Double(s) => Digits(s)
  }

  function ElemList(elems: seq<Val>): seq<Spelled>
    requires elems != []
  {
    if |elems| == 1 then [ElemText(elems[0]), Mark(')')]
    else [ElemText(elems[0]), Mark(',')] + ElemList(elems[1..])
  }

  predicate PrintableVal(v: Val) {
    match v
    case Text(s) => Doubled(s)
    case Int(s) => NumberText(s) && '.' !in s
    case Double(s) => NumberText(s) && '.' in s
  }

  predicate PrintableElem(v: Val) {
    match v
    case Text(s) => Doubled(s)
    case Int(s) => s == "1" || s == "0"
    case Double(s) => NumberText(s)
  }

  /** A column name the parser does not take for the keyword NOT; in brackets it may be any other text without `]`. */
  predicate Name(col: string) { ']' !in col && !AnyCase(col, "NOT", "not") }

  predicate Printable(t: Node) {
    match t
    case Or(l, r) => Printable(l) && Printable(r)
    case And(l, r) => Printable(l) && Printable(r)
    case Not(e) => Printable(e)
    case Cmp(col, op, val) => Name(col) && PrintableVal(val)
    case IsNull(col) => Name(col)
    case NotNull(col) => Name(col)
    case In(col, elems) => Name(col) && elems != [] && forall k :: 0 <= k < |elems| ==> PrintableElem(elems[k])
    case _ => false
  }

  predicate Leaf(t: Node) { t.Cmp? || t.IsNull? || t.NotNull? || t.In? }

  /** What stands after the column. */
  function AfterColumn(t: Node, words: bool): seq<Spelled>
    requires Printable(t) && Leaf(t)
  {
    match t
    case Cmp(_, op, val) => [OpText(op), ValText(val, words)]
    case IsNull(_) => [if words then Op("=") else Word("IS"), Word("NULL")]
    case NotNull(_) => [Word("IS"), Word("NOT"), Word("NULL")]
    case In(_, elems) => [Word("IN"), Mark('(')] + ElemList(elems)
  }

  function Level(t: Node): nat { if t.Or? then 0 else if t.And? then 1 else 2 }

  /** A condition where only those of the given level or above may stand without parentheses. */
  function Print(t: Node, level: nat, words: bool): seq<Spelled>
    requires Printable(t)
    decreases t, 1
  {
    if Level(t) < level then [Mark('(')] + Body(t, words) + [Mark(')')] else Body(t, words)
  }

  function Body(t: Node, words: bool): seq<Spelled>
    requires Printable(t)
    decreases t, 0
  {
    match t
    case Or(l, r) => Print(l, 0, words) + [Word("OR")] + Print(r, 1, words)
    case And(l, r) => Print(l, 1, words) + [Word("AND")] + Print(r, 2, words)
    case Not(e) => [Word("NOT")] + Print(e, 2, words)
    case _ => [Bracketed(t.col)] + AfterColumn(t, words)
  }

  // --- what is written is a sentence of the grammar ---

  function Tokens(ts: seq<Spelled>): (r: seq<Token>)
    ensures |r| == |ts| && forall k :: 0 <= k < |ts| ==> r[k] == TokenOf(ts[k])
  {
    seq(|ts|, k requires 0 <= k < |ts| => TokenOf(ts[k]))
  }

  lemma TokensAppend(a: seq<Spelled>, b: seq<Spelled>)
    ensures Tokens(a + b) == Tokens(a) + Tokens(b)
  {
    hide TokenOf;
  }

  lemma TokensOne(t: Spelled)
    ensures Tokens([t]) == [TokenOf(t)]
  {
  }

  lemma TokensJoin(a: seq<Spelled>, t: Spelled, b: seq<Spelled>)
    ensures Tokens(a + [t] + b) == Tokens(a) + [TokenOf(t)] + Tokens(b)
  {
    hide Tokens, TokenOf;
    TokensAppend(a + [t], b);
    TokensAppend(a, [t]);
    TokensOne(t);
  }

  lemma ElemBack(v: Val)
    requires PrintableElem(v)
    ensures var t := TokenOf(ElemText(v)); ElemSays(t, v) && !(t.typ == Ident && IsNil(t))
  {
    if v.Text? { assert ("'" + v.s + "'")[|v.s| + 1] == '\''; }
  }

  lemma {:induction false} ListBack(elems: seq<Val>)
    requires elems != [] && forall k :: 0 <= k < |elems| ==> PrintableElem(elems[k])
    ensures ListSays(Tokens(ElemList(elems)), elems)
  {
    hide ElemSays, TokenOf, ElemText, PrintableElem, AnyCase;
    ElemBack(elems[0]);
    MarkToken();
    var sep := if |elems| == 1 then Mark(')') else Mark(',');
    if |elems| > 1 {
      ListBack(elems[1..]);
      TokensAppend([ElemText(elems[0]), sep], ElemList(elems[1..]));
      assert Tokens(ElemList(elems))[2..] == Tokens(ElemList(elems[1..]));
    }
  }

  lemma MarkToken()
    ensures TokenOf(Mark('(')).typ == LParen && TokenOf(Mark(')')).typ == RParen && TokenOf(Mark(',')).typ == Comma
  {
  }

  lemma ValBack(v: Val, words: bool)
    requires PrintableVal(v)
    ensures Says(TokenOf(ValText(v, words)), v)
  {
    if v.Text? { assert ("'" + v.s + "'")[|v.s| + 1] == '\''; }
  }

  lemma OpBack(op: CmpOp)
    ensures OpSays(TokenOf(OpText(op)), op) && TokenOf(OpText(op)).typ == Ident
  {
  }

  lemma WordTokens()
    ensures IsIs(TokenOf(Word("IS"))) && IsNot(TokenOf(Word("NOT"))) && IsNil(TokenOf(Word("NULL")))
    ensures IsIn(TokenOf(Word("IN"))) && IsOr(TokenOf(Word("OR"))) && IsAnd(TokenOf(Word("AND")))
    ensures OpSays(TokenOf(Op("=")), Equal)
  {
  }

  lemma LeafBack(d: Dates, t: Node, words: bool, next: Token)
    requires Printable(t) && Leaf(t)
    ensures TailSays(d, t.col, Tokens(AfterColumn(t, words)), next, t)
  {
    hide ElemList, ValText, OpText, Says, OpSays, ListSays, AnyCase, PrintableVal, PrintableElem;
    WordTokens();
    match t
    case Cmp(_, op, val) =>
      OpBack(op);
      ValBack(val, words);
    case IsNull(_) =>
    case NotNull(_) =>
    case In(_, elems) =>
      MarkToken();
      ListBack(elems);
      TokensAppend([Word("IN"), Mark('(')], ElemList(elems));
      assert Tokens(AfterColumn(t, words))[2..] == Tokens(ElemList(elems));
      ListLong(elems);
  }

  lemma ListLong(elems: seq<Val>)
    requires elems != []
    ensures |ElemList(elems)| >= 2
  {
  }

  function FormOf(t: Node, level: nat, words: bool): Form
    requires Printable(t)
    decreases t, 1
  {
    if Level(t) < level then Group(TokenOf(Mark('(')), BodyForm(t, words), TokenOf(Mark(')'))) else BodyForm(t, words)
  }

  function BodyForm(t: Node, words: bool): Form
    requires Printable(t)
    decreases t, 0
  {
    match t
    case Or(l, r) => Either(FormOf(l, 0, words), TokenOf(Word("OR")), FormOf(r, 1, words))
    case And(l, r) => Both(FormOf(l, 1, words), TokenOf(Word("AND")), FormOf(r, 2, words))
    case Not(e) => Negated(TokenOf(Word("NOT")), FormOf(e, 2, words))
    case _ => Column(TokenOf(Bracketed(t.col)), Tokens(AfterColumn(t, words)), t)
  }

  lemma {:induction false} FormTree(t: Node, level: nat, words: bool)
    requires Printable(t)
    ensures Tree(FormOf(t, level, words)) == t && Yield(FormOf(t, level, words)) == Tokens(Print(t, level, words))
    decreases t, 1
  {
    hide Tokens, TokenOf, Body, BodyForm;
    BodyTree(t, words);
    InParentheses(Body(t, words));
  }

  lemma {:induction false} BodyTree(t: Node, words: bool)
    requires Printable(t)
    ensures Tree(BodyForm(t, words)) == t && Yield(BodyForm(t, words)) == Tokens(Body(t, words))
    decreases t, 0
  {
    hide Tokens, TokenOf, AfterColumn, Print, FormOf;
    match t
    case Or(l, r) =>
      FormTree(l, 0, words);
      FormTree(r, 1, words);
      TokensJoin(Print(l, 0, words), Word("OR"), Print(r, 1, words));
    case And(l, r) =>
      FormTree(l, 1, words);
      FormTree(r, 2, words);
      TokensJoin(Print(l, 1, words), Word("AND"), Print(r, 2, words));
    case Not(e) =>
      FormTree(e, 2, words);
      TokensAppend([Word("NOT")], Print(e, 2, words));
      TokensOne(Word("NOT"));
    case _ => LeafTokens(t, words);
  }

  lemma LeafTokens(t: Node, words: bool)
    requires Printable(t) && Leaf(t)
    ensures Tokens(Body(t, words)) == [TokenOf(Bracketed(t.col))] + Tokens(AfterColumn(t, words))
  {
    hide Tokens, TokenOf, AfterColumn;
    TokensAppend([Bracketed(t.col)], AfterColumn(t, words));
    TokensOne(Bracketed(t.col));
  }

  lemma InParentheses(ts: seq<Spelled>)
    ensures Tokens([Mark('(')] + ts + [Mark(')')]) == [TokenOf(Mark('('))] + Tokens(ts) + [TokenOf(Mark(')'))]
  {
    hide Tokens, TokenOf;
    TokensAppend([Mark('(')] + ts, [Mark(')')]);
    TokensAppend([Mark('(')], ts);
    TokensOne(Mark('('));
    TokensOne(Mark(')'));
  }

  lemma {:induction false} FormGood(d: Dates, t: Node, words: bool, next: Token)
    requires Printable(t)
    ensures Good(d, BodyForm(t, words), next)
    decreases t, 0
  {
    hide AnyCase, AfterColumn, TailSays;
    WordTokens();
    match t
    case Or(l, r) =>
      LevelGood(d, l, 0, words, TokenOf(Word("OR")));
      LevelGood(d, r, 1, words, next);
    case And(l, r) =>
      LevelGood(d, l, 1, words, TokenOf(Word("AND")));
      LevelGood(d, r, 2, words, next);
    case Not(e) => LevelGood(d, e, 2, words, next);
    case _ => LeafBack(d, t, words, next);
  }

  lemma {:induction false} LevelGood(d: Dates, t: Node, level: nat, words: bool, next: Token)
    requires Printable(t) && level <= 2
    ensures var f := FormOf(t, level, words);
            Good(d, f, next) && (level > 0 ==> !f.Either?) && (level > 1 ==> !f.Both?)
    decreases t, 1
  {
    hide AnyCase, Body, AfterColumn;
    MarkToken();
    FormGood(d, t, words, next);
    FormGood(d, t, words, TokenOf(Mark(')')));
  }

  // --- as text ---

  predicate Closed(t: Spelled) { Spellable(t) && !t.Open? }

  /** A space before every token. */
  function Spaced(ts: seq<Spelled>): seq<Piece> { if ts == [] then [] else [Piece(" ", ts[0])] + Spaced(ts[1..]) }

  lemma {:induction false} SpacedTokens(ts: seq<Spelled>)
    ensures TokensOf(Spaced(ts)) == Tokens(ts)
  {
    hide TokenOf;
    if ts != [] {
      SpacedTokens(ts[1..]);
      assert Spaced(ts)[1..] == Spaced(ts[1..]);
      assert ts == [ts[0]] + ts[1..];
      TokensAppend([ts[0]], ts[1..]);
      TokensCons(Spaced(ts));
    }
  }

  lemma {:induction false} SpacedSeparate(ts: seq<Spelled>, tail: string)
    requires (forall k :: 0 <= k < |ts| ==> Closed(ts[k])) && (tail != "" ==> tail[0] == ' ')
    ensures Separate(Spaced(ts), tail) && (Written(Spaced(ts)) != "" ==> Written(Spaced(ts))[0] == ' ')
  {
    hide Spellable, Spelling, Apart;
    if ts != [] {
      SpacedSeparate(ts[1..], tail);
      assert Spaced(ts)[1..] == Spaced(ts[1..]) && Closed(ts[0]);
      SpaceApart(ts[0], Written(Spaced(ts[1..])) + tail);
    }
  }

  lemma SpaceApart(t: Spelled, next: string)
    requires !t.Open? && (next != "" ==> next[0] == ' ')
    ensures Apart(t, next)
  {
  }

  lemma {:induction false} AllSpellable(t: Node, level: nat, words: bool)
    requires Printable(t)
    ensures forall k :: 0 <= k < |Body(t, words)| ==> Closed(Body(t, words)[k])
    ensures forall k :: 0 <= k < |Print(t, level, words)| ==> Closed(Print(t, level, words)[k])
    decreases t
  {
    hide Closed, AfterColumn;
    MarksClosed();
    match t
    case Or(l, r) => AllSpellable(l, 0, words); AllSpellable(r, 1, words);
    case And(l, r) => AllSpellable(l, 1, words); AllSpellable(r, 2, words);
    case Not(e) => AllSpellable(e, 2, words);
    case _ => LeafSpellable(t, words);
  }

  lemma LeafSpellable(t: Node, words: bool)
    requires Printable(t) && Leaf(t)
    ensures forall k :: 0 <= k < |Body(t, words)| ==> Closed(Body(t, words)[k])
  {
    hide Closed, ElemList;
    MarksClosed();
    NameSpellable(t.col);
    match t
    case Cmp(_, op, val) =>
      OpSpellable(op);
      ValSpellable(val, words);
    case IsNull(_) =>
    case NotNull(_) =>
    case In(_, elems) => ElemsSpellable(elems);
  }

  lemma NameSpellable(col: string)
    requires Name(col)
    ensures Closed(Bracketed(col))
  {
  }

  lemma ValSpellable(val: Val, words: bool)
    requires PrintableVal(val)
    ensures Closed(ValText(val, words))
  {
    hide NumberText, Doubled;
    ValuesSpellable();
  }

  lemma OpSpellable(op: CmpOp)
    ensures Closed(OpText(op))
  {
  }

  lemma WordsSpellable()
    ensures Spellable(Word("OR")) && Spellable(Word("AND")) && Spellable(Word("NOT")) && Spellable(Word("IS"))
    ensures Spellable(Word("NULL")) && Spellable(Word("IN"))
  {
  }

  lemma ValuesSpellable()
    ensures Spellable(Op("=")) && Spellable(Word("TRUE")) && Spellable(Word("FALSE"))
    ensures Spellable(Mark('(')) && Spellable(Mark(')')) && Spellable(Mark(','))
  {
  }

  lemma ElemSpellable(v: Val)
    requires PrintableElem(v)
    ensures Closed(ElemText(v))
  {
    hide NumberText, Doubled;
    ValuesSpellable();
  }

  lemma {:induction false} ElemsSpellable(elems: seq<Val>)
    requires elems != [] && forall k :: 0 <= k < |elems| ==> PrintableElem(elems[k])
    ensures forall k :: 0 <= k < |ElemList(elems)| ==> Closed(ElemList(elems)[k])
  {
    hide ElemText, Closed;
    ElemSpellable(elems[0]);
    MarksClosed();
    if |elems| > 1 { ElemsSpellable(elems[1..]); }
  }

  lemma MarksClosed()
    ensures Closed(Mark(')')) && Closed(Mark(',')) && Closed(Mark('(')) && Closed(Word("IN")) && Closed(Word("OR"))
    ensures Closed(Word("AND")) && Closed(Word("NOT")) && Closed(Word("IS")) && Closed(Word("NULL")) && Closed(Op("="))
  {
    ValuesSpellable();
    WordsSpellable();
  }

  /** A condition as text; `words` chooses TRUE, FALSE, `= NULL` and bare words where they will do. */
  function QueryText(t: Node, words: bool): string
    requires Printable(t)
  {
    Written(Spaced(Print(t, 0, words)))
  }

  /** A printed condition, followed by any text whose first token is not AND or OR, parses to the same tree. */
  lemma WhereRoundTrip(d: Dates, t: Node, words: bool, tail: string)
    requires Printable(t) && (tail != "" ==> tail[0] == ' ')
    requires Ends(First(Lex(QueryText(t, words) + tail, |QueryText(t, words)|)))
    ensures var text := QueryText(t, words);
            ParseOr(d, Lex(text + tail, 0)) == Ok(t, Lex(text + tail, |text|))
  {
    hide ParseOr, Lex, Body, Written, Good, AnyCase;
    var ts := Print(t, 0, words);
    AllSpellable(t, 0, words);
    SpacedSeparate(ts, tail);
    SpacedTokens(ts);
    FormTree(t, 0, words);
    FormGood(d, t, words, First(Lex(QueryText(t, words) + tail, |QueryText(t, words)|)));
    WrittenForm(d, FormOf(t, 0, words), Spaced(ts), tail);
  }

  /** A comparison comes back exactly when its column is not spelled like NOT. */
  lemma ColumnExact(d: Dates, col: string, op: CmpOp, val: Val, words: bool, rest: seq<Token>)
    requires ']' !in col && PrintableVal(val)
    ensures var ts := Tokens([Bracketed(col), OpText(op), ValText(val, words)]) + rest;
            ParseNot(d, ts) == Ok(Cmp(col, op, val), rest) <==> !AnyCase(col, "NOT", "not")
  {
    hide ParseNot, AnyCase, OpText, ValText, Ahead, Drop, AfterColumn, TailSays;
    var tail := Tokens([OpText(op), ValText(val, words)]);
    TokensAppend([Bracketed(col)], [OpText(op), ValText(val, words)]);
    TokensOne(Bracketed(col));
    var ts := Tokens([Bracketed(col), OpText(op), ValText(val, words)]) + rest;
    assert ts == [Token(Ident, col)] + tail + rest;
    NotChoice(d, ts);
    if !AnyCase(col, "NOT", "not") {
      var t := Cmp(col, op, val);
      LeafAfter(t, words);
      LeafBack(d, t, words, First(rest));
      var f := Column(Token(Ident, col), tail, t);
      AheadOf(Yield(f), rest);
      NotReads(d, f, ts);
    }
  }

  lemma LeafAfter(t: Node, words: bool)
    requires t.Cmp? && Printable(t)
    ensures AfterColumn(t, words) == [OpText(t.op), ValText(t.val, words)]
  {
  }
}
