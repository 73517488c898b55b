/** The tokenizer of SQL queries: internal/gomdb/sql.go. */
module WhereLexer {
  import opened Wrappers

  datatype TokenType = EOF | Ident | Str | Number | Comma | Star | LParen | RParen | Dot | Semicolon
  datatype Token = Token(typ: TokenType, value: string)

  const EOF_TOKEN: Token := Token(EOF, "")

  predicate IsSpace(c: char) { c == ' ' || c == '\t' || c == '\n' || c == '\r' }
  predicate IsDigit(c: char) { '0' <= c <= '9' }
  predicate IsLetter(c: char) { 'a' <= c <= 'z' || 'A' <= c <= 'Z' || c == '_' || c == '#' }

  // --- where each kind of token ends ---

  function SkipSpace(s: string, i: nat): (e: nat)
    requires i <= |s|
    ensures i <= e <= |s| && (e < |s| ==> !IsSpace(s[e]))
    decreases |s| - i
  {
    if i < |s| && IsSpace(s[i]) then SkipSpace(s, i + 1) else i
  }

  /** The end of a string literal; a doubled quote stays inside. */
  function StringEnd(s: string, i: nat): (e: nat)
    requires i <= |s|
    ensures i <= e <= |s|
    decreases |s| - i
  {
    if i == |s| then i
    else if s[i] != '\'' then StringEnd(s, i + 1)
    else if i + 1 < |s| && s[i + 1] == '\'' then StringEnd(s, i + 2)
    else i + 1
  }

  function Find(s: string, i: nat, c: char): (e: nat)
    requires i <= |s|
    ensures i <= e <= |s|
    decreases |s| - i
  {
    if i < |s| && s[i] != c then Find(s, i + 1, c) else i
  }

  function NumberEnd(s: string, i: nat, hasDot: bool): (e: nat)
    requires i <= |s|
    ensures i <= e <= |s|
    decreases |s| - i
  {
    if i < |s| && IsDigit(s[i]) then NumberEnd(s, i + 1, hasDot)
    else if i < |s| && s[i] == '.' && !hasDot then NumberEnd(s, i + 1, true)
    else i
  }

  function WordEnd(s: string, i: nat): (e: nat)
    requires i <= |s|
    ensures i <= e <= |s|
    decreases |s| - i
  {
    if i < |s| && (IsLetter(s[i]) || IsDigit(s[i])) then WordEnd(s, i + 1) else i
  }

  function Punctuation(c: char): TokenType {
    if c == ',' then Comma else if c == '*' then Star else if c == '(' then LParen else if c == ')' then RParen
    else if c == '.' then Dot else if c == ';' then Semicolon else EOF
  }

  predicate StartsNumber(s: string, i: nat)
    requires i < |s|
  {
    IsDigit(s[i]) || (s[i] == '-' && i + 1 < |s| && IsDigit(s[i + 1]))
  }

  predicate TwoCharOp(s: string, i: nat)
    requires i < |s|
  {
    i + 1 < |s| && s[i..i + 2] in ["<>", "<=", ">="]
  }

  /** The token at `i`, where no space is, and where it ends. */
  function TokenAt(s: string, i: nat): (r: (Token, nat))
    requires i < |s|
    ensures i < r.1 <= |s| && r.0.typ != EOF
  {
    var c := s[i];
    if Punctuation(c) != EOF then (Token(Punctuation(c), [c]), i + 1)
    else if c == '\'' then
      var e := StringEnd(s, i + 1);
      (Token(Str, s[i..e]), e)
    else if c == '[' then
      var e := Find(s, i + 1, ']');
      (Token(Ident, s[i + 1..e]), Min(e + 1, |s|))
    else if StartsNumber(s, i) then
      var e := NumberEnd(s, if c == '-' then i + 1 else i, false);
      NumberGrows(s, i);
      (Token(Number, s[i..e]), e)
    else if IsLetter(c) then
      var e := WordEnd(s, i + 1);
      (Token(Ident, s[i..e]), e)
    else if c == '"' then
      var e := Find(s, i + 1, '"');
      (Token(Ident, s[i + 1..e]), Min(e + 1, |s|))
    else if TwoCharOp(s, i) then (Token(Ident, s[i..i + 2]), i + 2)
    else (Token(Ident, [c]), i + 1)
  }

  lemma NumberGrows(s: string, i: nat)
    requires i < |s| && StartsNumber(s, i)
    ensures NumberEnd(s, if s[i] == '-' then i + 1 else i, false) > i
  {
  }

  /** The next token from `i` on, and the position after it. */
  function LexOne(s: string, i: nat): (r: (Token, nat))
    requires i <= |s|
    ensures r.1 <= |s| && (r.0.typ != EOF ==> r.1 > i) && (r.0.typ == EOF ==> r == (EOF_TOKEN, |s|))
  {
    var j := SkipSpace(s, i);
    if j == |s| then (EOF_TOKEN, |s|) else TokenAt(s, j)
  }

  /** All tokens up to the end of the input. */
  function Lex(s: string, i: nat): (ts: seq<Token>)
    requires i <= |s|
    ensures forall k :: 0 <= k < |ts| ==> ts[k].typ != EOF
    decreases |s| - i
  {
    var (t, j) := LexOne(s, i);
    if t.typ == EOF then [] else [t] + Lex(s, j)
  }

  class Lexer {
    const input: string
    var pos: nat

    constructor (query: string)
      ensures input == query && pos == 0
    {
      input, pos := query, 0;
    }

    method SkipWS()
      requires pos <= |input|
      modifies this
      ensures pos == SkipSpace(input, old(pos))
    {
      while pos < |input| && IsSpace(input[pos])
        invariant pos <= |input| && SkipSpace(input, old(pos)) == SkipSpace(input, pos)
      {
        pos := pos + 1;
      }
    }

    /** The quoted text after an opening `'`. */
    method QuotedText()
      requires pos <= |input|
      modifies this
      ensures pos == StringEnd(input, old(pos))
    {
      while pos < |input|
        invariant pos <= |input| && StringEnd(input, old(pos)) == StringEnd(input, pos)
      {
        if input[pos] == '\'' {
          if pos + 1 < |input| && input[pos + 1] == '\'' {
            pos := pos + 2;
          } else {
            pos := pos + 1;
            return;
          }
        } else {
          pos := pos + 1;
        }
      }
    }

    /** The text up to a closing `]` or `"`, which is skipped. */
    method Delimited(close: char) returns (val: string)
      requires pos <= |input|
      modifies this
      ensures var e := Find(input, old(pos), close); val == input[old(pos)..e] && pos == Min(e + 1, |input|)
    {
      var start := pos;
      while pos < |input| && input[pos] != close
        invariant start <= pos <= |input| && Find(input, start, close) == Find(input, pos, close)
      {
        pos := pos + 1;
      }
      val := input[start..pos];
      if pos < |input| {
        pos := pos + 1;
      }
    }

    method Numeral()
      requires pos <= |input|
      modifies this
      ensures pos == NumberEnd(input, old(pos), false)
    {
      var hasDot := false;
      while pos < |input|
        invariant pos <= |input| && NumberEnd(input, old(pos), false) == NumberEnd(input, pos, hasDot)
      {
        if IsDigit(input[pos]) {
          pos := pos + 1;
        } else if input[pos] == '.' && !hasDot {
          hasDot := true;
          pos := pos + 1;
        } else {
          return;
        }
      }
    }

    method Word()
      requires pos <= |input|
      modifies this
      ensures pos == WordEnd(input, old(pos))
    {
      while pos < |input| && (IsLetter(input[pos]) || IsDigit(input[pos]))
        invariant pos <= |input| && WordEnd(input, old(pos)) == WordEnd(input, pos)
      {
        pos := pos + 1;
      }
    }

    method Next() returns (t: Token)
      requires pos <= |input|
      modifies this
      ensures (t, pos) == LexOne(input, old(pos)) && pos <= |input|
    {
      hide SkipSpace, StringEnd, Find, NumberEnd, WordEnd, IsSpace;
      SkipWS();
      if pos >= |input| {
        return EOF_TOKEN;
      }
      var ch, start := input[pos], pos;
      if Punctuation(ch) != EOF {
        pos := pos + 1;
        return Token(Punctuation(ch), [ch]);
      }
      if ch == '\'' {
        pos := pos + 1;
        QuotedText();
        return Token(Str, input[start..pos]);
      }
      if ch == '[' {
        pos := pos + 1;
        var val := Delimited(']');
        return Token(Ident, val);
      }
      if IsDigit(ch) || (ch == '-' && pos + 1 < |input| && IsDigit(input[pos + 1])) {
        if ch == '-' {
          pos := pos + 1;
        }
        Numeral();
        return Token(Number, input[start..pos]);
      }
      if IsLetter(ch) {
        pos := pos + 1;
        Word();
        return Token(Ident, input[start..pos]);
      }
      if ch == '"' {
        pos := pos + 1;
        var val := Delimited('"');
        return Token(Ident, val);
      }
      if pos + 1 < |input| && input[pos..pos + 2] in ["<>", "<=", ">="] {
        pos := pos + 2;
        return Token(Ident, input[start..pos]);
      }
      pos := pos + 1;
      OneChar(input, start);
      return Token(Ident, input[start..pos]);
    }
  }

  lemma OneChar(s: string, i: nat)
    requires i < |s|
    ensures s[i..i + 1] == [s[i]]
  {
  }

  // --- spelling tokens ---

  /**
   A token as text: a plain word, a name in brackets or double quotes, a quoted text, a whole or decimal number,
   an operator or other character, a mark, and what is left open at the end of the query.
   */
  datatype Spelled =
    | Word(s: string) | Bracketed(s: string) | Named(s: string) | Quoted(s: string) | Digits(s: string) | Op(s: string)
    | Mark(c: char) | Open(c: char, s: string)

  predicate WordChar(c: char) { 'a' <= c <= 'z' || 'A' <= c <= 'Z' || '0' <= c <= '9' || c == '_' || c == '#' }

  predicate BlankChar(c: char) { c == ' ' || c == '\t' || c == '\n' || c == '\r' }
  predicate MarkChar(c: char) { c == ',' || c == '*' || c == '(' || c == ')' || c == '.' || c == ';' }

  predicate Spellable(t: Spelled) {
    match t
    case Word(s) => |s| > 0 && !('0' <= s[0] <= '9') && forall k :: 0 <= k < |s| ==> WordChar(s[k])
    case Bracketed(s) => ']' !in s
    case Named(s) => '"' !in s
    case Quoted(s) => Doubled(s)
    case Digits(s) => NumberText(s)
    case Op(s) =>
      || s == "<>" || s == "<=" || s == ">="
      || (|s| == 1 && !WordChar(s[0]) && !BlankChar(s[0]) && !MarkChar(s[0]) && s[0] != '\'' && s[0] != '[' && s[0] != '"')
    case Mark(c) => MarkChar(c)
    case Open(c, s) => (c == '\'' && Doubled(s)) || (c == '[' && ']' !in s) || (c == '"' && '"' !in s)
  }

  /** Quotes come in twos. */
  predicate Doubled(s: string) {
    s == "" || (s[0] != '\'' && Doubled(s[1..])) || (|s| > 1 && s[0] == '\'' && s[1] == '\'' && Doubled(s[2..]))
  }

  /** An optional sign, a digit, and then digits and at most one point. */
  predicate NumberText(s: string) {
    var from := if |s| > 0 && s[0] == '-' then 1 else 0;
    && from < |s| && '0' <= s[from] <= '9'
    && (forall k :: from <= k < |s| ==> '0' <= s[k] <= '9' || s[k] == '.')
    && forall j, k :: from <= j < k < |s| ==> !(s[j] == '.' && s[k] == '.')
  }

  function Spelling(t: Spelled): string {
    match t
    case Word(s) => s
    case Bracketed(s) => "[" + s + "]"
    case Named(s) => "\"" + s + "\""
    case Quoted(s) => "'" + s + "'"
    case Digits(s) => s
    case Op(s) => s
    case Mark(c) => [c]
    case Open(c, s) => [c] + s
  }

  function TokenOf(t: Spelled): Token {
    match t
    case Word(s) => Token(Ident, s)
    case Bracketed(s) => Token(Ident, s)
    case Named(s) => Token(Ident, s)
    case Quoted(s) => Token(Str, "'" + s + "'")
    case Digits(s) => Token(Number, s)
    case Op(s) => Token(Ident, s)
    case Mark(c) =>
      Token(if c == ',' then Comma else if c == '*' then Star else if c == '(' then LParen else if c == ')' then RParen
            else if c == '.' then Dot else Semicolon, [c])
    case Open(c, s) => if c == '\'' then Token(Str, "'" + s) else Token(Ident, s)
  }

  /** The text that follows does not make the token longer. */
  predicate Apart(t: Spelled, next: string) {
    match t
    case Word(_) => next == "" || !WordChar(next[0])
    case Digits(s) => next == "" || (!('0' <= next[0] <= '9') && (next[0] == '.' ==> '.' in s))
    case Quoted(_) => next == "" || next[0] != '\''
    case Op(s) =>
      next == "" || ((s == "<" ==> next[0] != '>' && next[0] != '=') && (s == ">" ==> next[0] != '=')
                     && (s == "-" ==> !('0' <= next[0] <= '9')))
    case Open(_, _) => next == ""
    case _ => true
  }

  /** A token and the white space before it. */
  datatype Piece = Piece(gap: string, t: Spelled)

  function Written(ps: seq<Piece>): string {
    if ps == [] then "" else ps[0].gap + (Spelling(ps[0].t) + Written(ps[1..]))
  }

  predicate Blank(gap: string) { forall k :: 0 <= k < |gap| ==> BlankChar(gap[k]) }

  /** Tokens that are spelled rightly, with white space at least where two would run together. */
  predicate Separate(ps: seq<Piece>, tail: string) {
    ps == []
    || (Blank(ps[0].gap) && Spellable(ps[0].t) && Apart(ps[0].t, Written(ps[1..]) + tail) && Separate(ps[1..], tail))
  }

  function TokensOf(ps: seq<Piece>): (r: seq<Token>)
    ensures |r| == |ps| && forall k :: 0 <= k < |ps| ==> r[k] == TokenOf(ps[k].t)
  {
    seq(|ps|, k requires 0 <= k < |ps| => TokenOf(ps[k].t))
  }

  // --- each kind of token is read whole ---

  lemma CharClasses(c: char)
    ensures WordChar(c) <==> IsLetter(c) || IsDigit(c)
    ensures IsSpace(c) <==> BlankChar(c)
  {
  }

  predicate StandsAt(text: string, s: string, i: nat) { i + |text| <= |s| && s[i..i + |text|] == text }

  lemma StandsChar(text: string, s: string, i: nat, k: nat)
    requires StandsAt(text, s, i) && k < |text|
    ensures s[i + k] == text[k]
  {
    assert s[i..i + |text|][k] == s[i + k];
  }

  lemma {:induction false} WordSpan(s: string, i: nat, e: nat)
    requires i <= e <= |s| && (forall k :: i <= k < e ==> WordChar(s[k])) && (e < |s| ==> !WordChar(s[e]))
    ensures WordEnd(s, i) == e
    decreases e - i
  {
    hide WordChar;
    if i < |s| { CharClasses(s[i]); }
    if i < e { WordSpan(s, i + 1, e); }
  }

  lemma {:induction false} FindSpan(s: string, i: nat, e: nat, c: char)
    requires i <= e <= |s| && (forall k :: i <= k < e ==> s[k] != c) && (e < |s| ==> s[e] == c)
    ensures Find(s, i, c) == e
    decreases e - i
  {
    if i < e { FindSpan(s, i + 1, e, c); }
  }

  /** A quoted text ends at a single quote, or at the end of the query. */
  lemma {:induction false} QuoteSpan(w: string, s: string, i: nat)
    requires Doubled(w) && StandsAt(w, s, i)
    requires var e := i + |w|; e < |s| ==> s[e] == '\'' && (e + 1 < |s| ==> s[e + 1] != '\'')
    ensures StringEnd(s, i) == if i + |w| < |s| then i + |w| + 1 else |s|
    decreases |w|
  {
    if w != "" {
      StandsChar(w, s, i, 0);
      if w[0] != '\'' {
        assert s[i + 1..i + |w|] == w[1..];
        QuoteSpan(w[1..], s, i + 1);
      } else {
        StandsChar(w, s, i, 1);
        assert s[i + 2..i + |w|] == w[2..];
        QuoteSpan(w[2..], s, i + 2);
      }
    }
  }

  lemma {:induction false} NumberSpan(s: string, i: nat, e: nat, hasDot: bool)
    requires i <= e <= |s| && forall k :: i <= k < e ==> '0' <= s[k] <= '9' || (s[k] == '.' && !hasDot)
    requires forall j, k :: i <= j < k < e ==> !(s[j] == '.' && s[k] == '.')
    requires e < |s| ==> !('0' <= s[e] <= '9') && (s[e] == '.' ==> hasDot || exists k :: i <= k < e && s[k] == '.')
    ensures NumberEnd(s, i, hasDot) == e
    decreases e - i
  {
    if i < e { NumberSpan(s, i + 1, e, hasDot || s[i] == '.'); }
  }

  lemma {:induction false} SpaceSpan(s: string, i: nat, e: nat)
    requires i <= e <= |s| && forall k :: i <= k < e ==> IsSpace(s[k])
    ensures SkipSpace(s, i) == SkipSpace(s, e)
    decreases e - i
  {
    if i < e { SpaceSpan(s, i + 1, e); }
  }

  predicate ReadAt(t: Spelled, s: string, i: nat) {
    var e := i + |Spelling(t)|;
    e <= |s| && StandsAt(Spelling(t), s, i) && Apart(t, s[e..])
  }

  // what TokenAt does by the first character

  lemma AtWord(s: string, i: nat)
    requires i < |s| && WordChar(s[i]) && !('0' <= s[i] <= '9')
    ensures TokenAt(s, i) == (Token(Ident, s[i..WordEnd(s, i + 1)]), WordEnd(s, i + 1))
  {
    hide WordEnd, StringEnd, Find, NumberEnd;
  }

  lemma AtNumber(s: string, i: nat)
    requires i < |s| && ('0' <= s[i] <= '9' || (s[i] == '-' && i + 1 < |s| && '0' <= s[i + 1] <= '9'))
    ensures var e := NumberEnd(s, if s[i] == '-' then i + 1 else i, false);
            e >= i && TokenAt(s, i) == (Token(Number, s[i..e]), e)
  {
    hide WordEnd, StringEnd, Find, NumberEnd;
    NumberGrows(s, i);
  }

  lemma AtQuote(s: string, i: nat)
    requires i < |s| && s[i] == '\''
    ensures TokenAt(s, i) == (Token(Str, s[i..StringEnd(s, i + 1)]), StringEnd(s, i + 1))
  {
    hide WordEnd, StringEnd, Find, NumberEnd;
  }

  lemma AtName(s: string, i: nat)
    requires i < |s| && (s[i] == '[' || s[i] == '"')
    ensures var e := Find(s, i + 1, if s[i] == '[' then ']' else '"');
            TokenAt(s, i) == (Token(Ident, s[i + 1..e]), Min(e + 1, |s|))
  {
    hide WordEnd, StringEnd, Find, NumberEnd;
  }

  lemma AtOther(s: string, i: nat)
    requires i < |s| && !WordChar(s[i]) && Punctuation(s[i]) == EOF && s[i] != '\'' && s[i] != '[' && s[i] != '"' && !StartsNumber(s, i)
    ensures var n := if TwoCharOp(s, i) then 2 else 1;
            i + n <= |s| && TokenAt(s, i) == (Token(Ident, s[i..i + n]), i + n)
  {
    hide WordEnd, StringEnd, Find, NumberEnd, TwoCharOp;
    CharClasses(s[i]);
    OneChar(s, i);
    TwoChars(s, i);
  }

  lemma TwoChars(s: string, i: nat)
    requires i < |s|
    ensures TwoCharOp(s, i) ==> i + 2 <= |s|
  {
  }

  lemma WordRead(w: string, s: string, i: nat)
    requires Spellable(Word(w)) && ReadAt(Word(w), s, i)
    ensures TokenAt(s, i) == (Token(Ident, w), i + |w|)
  {
    hide TokenAt;
    forall k | i <= k < i + |w| ensures WordChar(s[k]) { StandsChar(w, s, i, k - i); }
    StandsChar(w, s, i, 0);
    WordSpan(s, i + 1, i + |w|);
    AtWord(s, i);
  }

  lemma NumberRead(w: string, s: string, i: nat)
    requires NumberText(w) && ReadAt(Digits(w), s, i)
    ensures TokenAt(s, i) == (Token(Number, w), i + |w|)
  {
    hide TokenAt;
    var from, e := if w[0] == '-' then 1 else 0, i + |w|;
    forall k | i <= k < e ensures s[k] == w[k - i] { StandsChar(w, s, i, k - i); }
    NumberStops(w, s, i);
    NumberSpan(s, i + from, e, false);
    AtNumber(s, i);
  }

  lemma NumberStops(w: string, s: string, i: nat)
    requires NumberText(w) && ReadAt(Digits(w), s, i)
    ensures var from, e := if w[0] == '-' then 1 else 0, i + |w|;
      e < |s| ==> !('0' <= s[e] <= '9') && (s[e] == '.' ==> exists k :: i + from <= k < e && s[k] == '.')
  {
    var e := i + |w|;
    if e < |s| {
      assert s[e..][0] == s[e];
      if s[e] == '.' {
        var k :| 0 <= k < |w| && w[k] == '.';
        StandsChar(w, s, i, k);
      }
    }
  }

  /** Text between an opening and a closing character. */
  lemma Between(a: string, w: string, b: string, s: string, i: nat)
    requires |a| == 1 && |b| <= 1 && StandsAt(a + w + b, s, i)
    ensures s[i] == a[0] && StandsAt(w, s, i + 1) && (|b| == 1 ==> s[i + 1 + |w|] == b[0])
    ensures forall k :: i + 1 <= k < i + 1 + |w| ==> s[k] == w[k - i - 1]
  {
    var all := a + w + b;
    forall k | 0 <= k < |all| ensures s[i + k] == all[k] { StandsChar(all, s, i, k); }
    assert forall k :: 0 <= k < |w| ==> all[1 + k] == w[k];
    assert forall k :: 0 <= k < |w| ==> s[i + 1 + k] == w[k];
  }

  lemma NamedRead(c: char, close: char, w: string, s: string, i: nat)
    requires (c == '[' && close == ']') || (c == '"' && close == '"')
    requires close !in w && StandsAt([c] + w + [close], s, i)
    ensures TokenAt(s, i) == (Token(Ident, w), i + |w| + 2)
  {
    hide TokenAt;
    Between([c], w, [close], s, i);
    FindSpan(s, i + 1, i + 1 + |w|, close);
    AtName(s, i);
  }

  lemma QuoteHere(all: string, w: string, s: string, i: nat)
    requires Doubled(w) && StandsAt(all, s, i) && StandsAt(w, s, i + 1) && s[i] == '\'' && |w| < |all| <= |w| + 2
    requires if |all| == |w| + 2 then s[i + 1 + |w|] == '\'' && (i + |all| < |s| ==> s[i + |all|] != '\'') else i + |all| == |s|
    ensures TokenAt(s, i) == (Token(Str, all), i + |all|)
  {
    hide TokenAt;
    QuoteSpan(w, s, i + 1);
    AtQuote(s, i);
  }

  lemma QuoteRead(w: string, s: string, i: nat)
    requires Doubled(w) && ReadAt(Quoted(w), s, i)
    ensures TokenAt(s, i) == (Token(Str, "'" + w + "'"), i + |w| + 2)
  {
    hide TokenAt, StandsAt, Doubled;
    Between("'", w, "'", s, i);
    var e := i + |w| + 2;
    assert e < |s| ==> s[e..][0] == s[e];
    QuoteHere("'" + w + "'", w, s, i);
  }

  lemma OpenRead(c: char, w: string, s: string, i: nat)
    requires Spellable(Open(c, w)) && ReadAt(Open(c, w), s, i)
    ensures TokenAt(s, i) == (TokenOf(Open(c, w)), i + |w| + 1)
  {
    hide TokenAt, Doubled, StandsAt;
    OpenStands(c, w, s, i);
    if c == '\'' { QuoteHere([c] + w, w, s, i); } else { OpenName(c, w, s, i); }
  }

  lemma OpenStands(c: char, w: string, s: string, i: nat)
    requires ReadAt(Open(c, w), s, i)
    ensures i + 1 + |w| == |s| && s[i] == c && StandsAt([c] + w, s, i) && StandsAt(w, s, i + 1)
  {
    assert [c] + w + "" == [c] + w;
    Between([c], w, "", s, i);
  }

  lemma OpenName(c: char, w: string, s: string, i: nat)
    requires (c == '[' && ']' !in w) || (c == '"' && '"' !in w)
    requires i + 1 + |w| == |s| && s[i] == c && StandsAt(w, s, i + 1)
    ensures TokenAt(s, i) == (Token(Ident, w), |s|)
  {
    hide TokenAt;
    forall k | i + 1 <= k < |s| ensures s[k] == w[k - i - 1] { StandsChar(w, s, i + 1, k - i - 1); }
    FindSpan(s, i + 1, |s|, if c == '[' then ']' else '"');
    AtName(s, i);
  }

  lemma OpRead(w: string, s: string, i: nat)
    requires Spellable(Op(w)) && ReadAt(Op(w), s, i)
    ensures TokenAt(s, i) == (Token(Ident, w), i + |w|)
  {
    hide TokenAt;
    StandsChar(w, s, i, 0);
    if |w| == 2 { StandsChar(w, s, i, 1); }
    if i + 1 < |s| {
      assert s[i..i + 2] == [s[i], s[i + 1]];
      if |w| == 1 { assert s[i + 1..][0] == s[i + 1]; }
    }
    AtOther(s, i);
  }

  lemma MarkRead(c: char, s: string, i: nat)
    requires Spellable(Mark(c)) && ReadAt(Mark(c), s, i)
    ensures TokenAt(s, i) == (TokenOf(Mark(c)), i + 1)
  {
    StandsChar([c], s, i, 0);
  }

  /** A spelled token that nothing after it makes longer is read as that token. */
  lemma SpelledRead(t: Spelled, s: string, i: nat)
    requires Spellable(t) && ReadAt(t, s, i)
    ensures i < |s| && !IsSpace(s[i]) && TokenAt(s, i) == (TokenOf(t), i + |Spelling(t)|)
  {
    hide TokenAt;
    Starts(t);
    StandsChar(Spelling(t), s, i, 0);
    match t
    case Word(w) => WordRead(w, s, i);
    case Bracketed(w) => NamedRead('[', ']', w, s, i);
    case Named(w) => NamedRead('"', '"', w, s, i);
    case Quoted(w) => QuoteRead(w, s, i);
    case Digits(w) => NumberRead(w, s, i);
    case Op(w) => OpRead(w, s, i);
    case Mark(c) => MarkRead(c, s, i);
    case Open(c, w) => OpenRead(c, w, s, i);
  }

  lemma Starts(t: Spelled)
    requires Spellable(t)
    ensures Spelling(t) != "" && !IsSpace(Spelling(t)[0])
  {
  }

  lemma PartOf(s: string, i: nat, all: string, a: nat, b: nat)
    requires StandsAt(all, s, i) && a <= b <= |all|
    ensures StandsAt(all[a..b], s, i + a)
  {
    forall k | 0 <= k < |all| ensures s[i + k] == all[k] { StandsChar(all, s, i, k); }
  }

  lemma WrittenHead(ps: seq<Piece>, s: string, i: nat)
    requires ps != [] && StandsAt(Written(ps), s, i)
    ensures var j := i + |ps[0].gap|;
            i + |Written(ps)| <= |s| && StandsAt(ps[0].gap, s, i) && StandsAt(Spelling(ps[0].t), s, j)
            && StandsAt(Written(ps[1..]), s, j + |Spelling(ps[0].t)|)
            && j + |Spelling(ps[0].t)| + |Written(ps[1..])| == i + |Written(ps)|
  {
    hide Spelling, Written, StandsAt;
    var gap, text, rest := ps[0].gap, Spelling(ps[0].t), Written(ps[1..]);
    var all := gap + (text + rest);
    WrittenStep(ps);
    ThreeParts(gap, text, rest);
    Fits(all, s, i);
    PartOf(s, i, all, 0, |gap|);
    PartOf(s, i, all, |gap|, |gap| + |text|);
    PartOf(s, i, all, |gap| + |text|, |all|);
  }

  lemma WrittenStep(ps: seq<Piece>)
    requires ps != []
    ensures Written(ps) == ps[0].gap + (Spelling(ps[0].t) + Written(ps[1..]))
  {
  }

  lemma ThreeParts(a: string, b: string, c: string)
    ensures var all := a + (b + c);
            |all| == |a| + |b| + |c| && all[0..|a|] == a && all[|a|..|a| + |b|] == b && all[|a| + |b|..|all|] == c
  {
    var all := a + (b + c);
    assert all[|a|..] == b + c;
    assert all[|a|..|a| + |b|] == (b + c)[..|b|];
    assert all[|a| + |b|..|all|] == (b + c)[|b|..];
  }

  lemma Fits(text: string, s: string, i: nat)
    requires StandsAt(text, s, i)
    ensures i + |text| <= |s|
  {
  }

  lemma GapSkipped(gap: string, s: string, i: nat)
    requires Blank(gap) && StandsAt(gap, s, i)
    ensures SkipSpace(s, i) == SkipSpace(s, i + |gap|)
  {
    forall k | i <= k < i + |gap| ensures IsSpace(s[k]) {
      StandsChar(gap, s, i, k - i);
      CharClasses(s[k]);
    }
    SpaceSpan(s, i, i + |gap|);
  }

  lemma LexHere(s: string, i: nat, j: nat)
    requires i <= j < |s| && !IsSpace(s[j]) && SkipSpace(s, i) == SkipSpace(s, j)
    ensures Lex(s, i) == [TokenAt(s, j).0] + Lex(s, TokenAt(s, j).1)
  {
    hide TokenAt;
  }

  /** Written tokens are read back, and reading goes on with what follows them. */
  lemma {:induction false} WrittenRead(ps: seq<Piece>, s: string, i: nat)
    requires i + |Written(ps)| <= |s| && StandsAt(Written(ps), s, i) && Separate(ps, s[i + |Written(ps)|..])
    ensures Lex(s, i) == TokensOf(ps) + Lex(s, i + |Written(ps)|)
    decreases |ps|
  {
    hide TokenAt, Spellable, Spelling, TokenOf, Lex, StandsAt, TokensOf, Apart, Blank, SkipSpace;
    if ps == [] {
      NothingWritten(Lex(s, i));
    } else {
      var p, rest := ps[0], Written(ps[1..]);
      WrittenHead(ps, s, i);
      var j := i + |p.gap|;
      var k := j + |Spelling(p.t)|;
      GapSkipped(p.gap, s, i);
      RestOf(rest, s, k);
      assert s[i + |Written(ps)|..] == s[k + |rest|..];
      SpelledRead(p.t, s, j);
      LexHere(s, i, j);
      WrittenRead(ps[1..], s, k);
      TokensCons(ps);
      Associative([TokenOf(p.t)], TokensOf(ps[1..]), Lex(s, i + |Written(ps)|));
    }
  }

  lemma RestOf(rest: string, s: string, k: nat)
    requires StandsAt(rest, s, k)
    ensures k + |rest| <= |s| && s[k..] == rest + s[k + |rest|..]
  {
  }

  lemma NothingWritten(rest: seq<Token>)
    ensures TokensOf([]) + rest == rest && Written([]) == ""
  {
    assert TokensOf([]) == [];
  }

  lemma Associative(a: seq<Token>, b: seq<Token>, c: seq<Token>)
    ensures a + b + c == a + (b + c)
  {
  }

  lemma TokensCons(ps: seq<Piece>)
    requires ps != []
    ensures TokensOf(ps) == [TokenOf(ps[0].t)] + TokensOf(ps[1..])
  {
    hide TokenOf;
  }
}
