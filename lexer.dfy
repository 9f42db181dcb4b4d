/** The MiniLanguage lexer (MiniLanguage/Lexer.cs): a cursor over the source characters that tries,
    at each position, an operator, whitespace, a number and a word, in that order, and stops at the
    first position where none of the four applies.

    The pure step functions below (OperatorStep, WhitespaceStep, NumberStep, WordStep, Step, LexRun)
    are the specification; the class `Lexer` is the imperative lexer, and each of its methods is
    proved to leave the state that the matching step function computes. */
module MiniLexer {
  import opened Wrappers

  /** Token kinds. The first three lines are the lexer's `TokenType` enum in source order; the last
      two hold the kinds the parser checks for that the enum does not list. The parser's `Star`,
      `NumberLiteral`, `OpenCurlyBrace` and `CloseCurlyBrace` are `Times`, `Number`, `OpenBrace`
      and `CloseBrace` here. */
  datatype TokenType =
    | Plus | Minus | Times | Slash | OpenParen | CloseParen | Bang | And | Or
    | DoubleEqual | NotEqual | Less | LessOrEqual | Greater | GreaterOrEqual | Equal
    | Semicolon | OpenBrace | CloseBrace | Comma | Number | If | Else | While | Var | Return | Function | Identifier
    | Colon | Ref | Int | Float | String | Bool | True | False | StringLiteral
    | OpenSquareBracket | CloseSquareBracket

  datatype Token = Token(contents: string, kind: TokenType, line: int, column: int)

  /** The characters an operator can start with. */
  predicate IsOperatorStart(c: char) {
    c == '+' || c == '-' || c == '*' || c == '/' || c == '(' || c == ')' || c == ';' || c == '=' ||
    c == '!' || c == '<' || c == '>' || c == ',' || c == '{' || c == '}' || c == '&' || c == '|'
  }

  /** An entry of the operator table: a non-empty lexeme and the kind it produces. */
  type OperatorEntry = e: (string, TokenType) | |e.0| > 0 && IsOperatorStart(e.0[0]) witness ("+", Plus)

  /** The operator table in the order of its source text. The source keeps it in a dictionary and
      enumerates that; the enumeration is taken to be the insertion order. */
  const Operators: seq<OperatorEntry> := [
    ("+", Plus), ("-", Minus), ("*", Times), ("/", Slash), ("(", OpenParen), (")", CloseParen),
    (";", Semicolon), ("==", DoubleEqual), ("!=", NotEqual), ("<=", LessOrEqual), (">=", GreaterOrEqual),
    ("<", Less), (">", Greater), ("=", Equal), (",", Comma), ("{", OpenBrace), ("}", CloseBrace),
    ("!", Bang), ("&&", And), ("||", Or)
  ]

  const Keywords: map<string, TokenType> := map[
    "if" := If, "else" := Else, "while" := While, "var" := Var, "return" := Return, "function" := Function
  ]

  predicate IsDigit(c: char) { '0' <= c <= '9' }

  predicate IsWordStart(c: char) { ('a' <= c <= 'z') || ('A' <= c <= 'Z') || c == '_' }

  predicate IsWordChar(c: char) { IsWordStart(c) || IsDigit(c) }

  predicate IsWhitespace(c: char) { c == ' ' || c == '\t' || c == '\r' || c == '\n' }

  predicate All(u: seq<char>, p: char -> bool) { forall k :: 0 <= k < |u| ==> p(u[k]) }

  function Min(a: int, b: int): int { if a <= b then a else b }

  /** The lexer's mutable state: `Index`, `Line`, `Column` and the `Tokens` list. */
  datatype LexState = LexState(index: nat, line: int, column: int, tokens: seq<Token>)

  const Start := LexState(0, 0, 0, [])

  // ---------------------------------------------------------------------------------------------
  // Specification: one step of the lexer

  /** The state that ConsumeAndAddToken leaves. */
  function AddToken(s: seq<char>, st: LexState, kind: TokenType, length: nat): LexState
    requires st.index + length <= |s|
  {
    LexState(st.index + length, st.line, st.column + length,
             st.tokens + [Token(s[st.index..st.index + length], kind, st.line, st.column)])
  }

  /** TryConsumeWhitespace as a function: None when it returns false. */
  function WhitespaceStep(s: seq<char>, st: LexState): Option<LexState> {
    if st.index >= |s| then None
    else
      var c := s[st.index];
      if c == ' ' || c == '\t' then Some(st.(index := st.index + 1, column := st.column + 1))
      else if c == '\r' then Some(st.(index := st.index + 1, line := 0, column := 0))
      else if c == '\n' then Some(st.(index := st.index + 1))
      else None
  }

  /** The length of the longest run of characters satisfying `p` that starts at `i`. */
  function Run(s: seq<char>, i: nat, p: char -> bool): (n: nat)
    requires i <= |s|
    ensures i + n <= |s|
    ensures forall k :: i <= k < i + n ==> p(s[k])
    ensures i + n == |s| || !p(s[i + n])
    decreases |s| - i
  {
    if i < |s| && p(s[i]) then 1 + Run(s, i + 1, p) else 0
  }

  /** The length TryLexNumber consumes at `i`, or None when it returns false: a digit run, then,
      when a '.' follows, the '.' and a second digit run, which must not be empty. */
  function NumberLength(s: seq<char>, i: nat): (r: Option<nat>)
    requires i <= |s|
    ensures r.Some? ==> 0 < r.value && i + r.value <= |s|
  {
    var d := Run(s, i, IsDigit);
    if d == 0 then None
    else if i + d < |s| && s[i + d] == '.' then
      if i + d + 1 >= |s| || !IsDigit(s[i + d + 1]) then None
      else Some(d + 1 + Run(s, i + d + 1, IsDigit))
    else Some(d)
  }

  function NumberStep(s: seq<char>, st: LexState): Option<LexState>
    requires st.index <= |s|
  {
    match NumberLength(s, st.index)
    case None => None
    case Some(n) => Some(AddToken(s, st, Number, n))
  }

  /** TryLexWord as a function. Its caller guarantees a character at `Index`; the source reads it
      before its own bounds check. */
  function WordStep(s: seq<char>, st: LexState): Option<LexState>
    requires st.index < |s|
  {
    if !IsWordStart(s[st.index]) then None
    else
      Some(WordToken(s, st, Run(s, st.index, IsWordChar)))
  }

  /** The state after a word of length `n` at the cursor. */
  function WordToken(s: seq<char>, st: LexState, n: nat): LexState
    requires st.index + n <= |s|
  {
    AddToken(s, st, WordKind(s[st.index..st.index + n]), n)
  }

  /** A word is the keyword it spells, or else an identifier. */
  function WordKind(text: string): TokenType {
    if text in Keywords then Keywords[text] else Identifier
  }

  /** The do-while comparison loop of TryLexOperator for the table entry `op`, entered with
      `length == k`: the final (match, length). */
  function Compare(op: string, s: seq<char>, i: nat, k: nat): (r: (bool, nat))
    requires k < |op| && i + k < |s|
    ensures k < r.1 <= |op| && i + r.1 <= |s|
    decreases |op| - k
  {
    var m := op[k] == s[i + k];
    if m && k + 1 < |op| && i + k + 1 < |s| then Compare(op, s, i, k + 1) else (m, k + 1)
  }

  predicate Matches(ops: seq<OperatorEntry>, s: seq<char>, i: nat, e: nat)
    requires i < |s| && e < |ops|
  {
    Compare(ops[e].0, s, i, 0).0
  }

  /** The foreach over an operator table `ops` (the lexer passes Operators) from entry `j` on: the
      first entry that matches. */
  function FirstOperator(ops: seq<OperatorEntry>, s: seq<char>, i: nat, j: nat): (r: Option<(TokenType, nat)>)
    requires i < |s| && j <= |ops|
    ensures r.Some? ==> 0 < r.value.1 && i + r.value.1 <= |s|
    decreases |ops| - j
  {
    if j == |ops| then None
    else
      var c := Compare(ops[j].0, s, i, 0);
      if c.0 then Some((ops[j].1, c.1)) else FirstOperator(ops, s, i, j + 1)
  }

  function OperatorStep(s: seq<char>, st: LexState): Option<LexState> {
    if st.index >= |s| then None
    else
      match FirstOperator(Operators, s, st.index, 0)
      case None => None
      case Some((kind, n)) => Some(AddToken(s, st, kind, n))
  }

  /** One iteration of the loop in Lex: operator, then whitespace, then number, then word. */
  function Step(s: seq<char>, st: LexState): (r: Option<LexState>)
    requires st.index < |s|
    ensures r.Some? ==> st.index < r.value.index <= |s|
  {
    var op := OperatorStep(s, st);
    if op.Some? then op
    else
      var ws := WhitespaceStep(s, st);
      if ws.Some? then ws
      else
        var num := NumberStep(s, st);
        if num.Some? then num else WordStep(s, st)
  }

  /** The whole of Lex from state `st`: steps until the input ends or no step applies. The
      result never goes back, keeps every token already emitted, and stops short of the end only
      at a character where all four attempts fail. */
  function LexRun(s: seq<char>, st: LexState): (r: LexState)
    requires st.index <= |s|
    ensures st.index <= r.index <= |s|
    ensures st.tokens <= r.tokens
    ensures r.index < |s| ==> Step(s, r).None?
    decreases |s| - st.index
  {
    if st.index == |s| then st
    else
      match Step(s, st)
      case None => st
      case Some(next) => LexRun(s, next)
  }

  /** A fresh lexer over `source` followed by a call of Lex. */
  function Lex(source: string): LexState {
    LexRun(source, Start)
  }

  // ---------------------------------------------------------------------------------------------
  // The imperative lexer

  class Lexer {
    const characters: seq<char>
    var index: nat
    var line: int
    var column: int
    var tokens: seq<Token>

    function State(): LexState
      reads this
    {
      LexState(index, line, column, tokens)
    }

    ghost predicate Valid()
      reads this
    {
      index <= |characters|
    }

    constructor (sourceCode: string)
      ensures Valid() && characters == sourceCode && State() == Start
    {
      characters := sourceCode;
      index, line, column, tokens := 0, 0, 0, [];
    }

    method Lex()
      requires Valid()
      modifies this
      ensures Valid() && State() == LexRun(characters, old(State()))
    {
      while index < |characters|
        invariant Valid()
        invariant LexRun(characters, State()) == LexRun(characters, old(State()))
        decreases |characters| - index
      {
        ghost var before := State();
        var done := TryLexOperator();
        if !done { done := TryConsumeWhitespace(); }
        if !done { done := TryLexNumber(); }
        if !done { done := TryLexWord(); }
        assert done ==> Step(characters, before) == Some(State());
        if !done {
          // the source reports "Unreconized token" on the console here
          return;
        }
      }
    }

    method TryConsumeWhitespace() returns (consumed: bool)
      requires Valid()
      modifies this
      ensures Valid()
      ensures consumed == WhitespaceStep(characters, old(State())).Some?
      ensures State() == if consumed then WhitespaceStep(characters, old(State())).value else old(State())
    {
      if index >= |characters| {
        return false;
      }
      var ch := characters[index];
      if ch == ' ' || ch == '\t' {
        column := column + 1;
        index := index + 1;
        return true;
      } else if ch == '\r' {
        index := index + 1;
        line := 0;
        column := 0;
        return true;
      } else if ch == '\n' {
        index := index + 1;
        return true;
      }
      return false;
    }

    method ConsumeAndAddToken(kind: TokenType, length: nat)
      requires Valid() && index + length <= |characters|
      modifies this
      ensures Valid()
      ensures State() == AddToken(characters, old(State()), kind, length)
    {
      var token := Token(characters[index..index + length], kind, line, column);
      index := index + length;
      column := column + length;
      tokens := tokens + [token];
    }

    method TryLexWord() returns (lexed: bool)
      requires Valid() && index < |characters|
      modifies this
      ensures Valid()
      ensures lexed == WordStep(characters, old(State())).Some?
      ensures State() == if lexed then WordStep(characters, old(State())).value else old(State())
    {
      if !IsWordStart(characters[index]) {
        return false;
      }
      var length := WordLengthAt(characters, index);
      var text := characters[index..index + length];
      if text in Keywords {
        ConsumeAndAddToken(Keywords[text], length);
      } else {
        ConsumeAndAddToken(Identifier, length);
      }
      return true;
    }

    /** The scanning loop of TryLexWord, which consumes nothing: it carries the character just
        past the run in `ch`. */
    static method WordLengthAt(s: seq<char>, i: nat) returns (length: nat)
      requires i < |s|
      ensures length == Run(s, i, IsWordChar)
    {
      length := 0;
      var ch := s[i];
      while i + length < |s| && IsWordChar(ch)
        invariant i + length <= |s|
        invariant forall k :: i <= k < i + length ==> IsWordChar(s[k])
        invariant i + length < |s| ==> ch == s[i + length]
        decreases |s| - i - length
      {
        length := length + 1;
        if i + length < |s| {
          ch := s[i + length];
        }
      }
      RunIsMaximal(s, i, IsWordChar, length);
    }

    method TryLexNumber() returns (lexed: bool)
      requires Valid()
      modifies this
      ensures Valid()
      ensures lexed == NumberStep(characters, old(State())).Some?
      ensures State() == if lexed then NumberStep(characters, old(State())).value else old(State())
    {
      var length := NumberLengthAt(characters, index);
      if length.None? {
        return false;
      }
      ConsumeAndAddToken(Number, length.value);
      return true;
    }

    /** The two digit loops of TryLexNumber and its '.' test, which consume nothing. */
    static method NumberLengthAt(s: seq<char>, i: nat) returns (r: Option<nat>)
      requires i <= |s|
      ensures r == NumberLength(s, i)
    {
      var length := 0;
      while i + length < |s| && IsDigit(s[i + length])
        invariant i + length <= |s|
        invariant forall k :: i <= k < i + length ==> IsDigit(s[k])
        decreases |s| - i - length
      {
        length := length + 1;
      }
      RunIsMaximal(s, i, IsDigit, length);
      if length == 0 {
        return None;
      }
      ghost var digits := length;
      if i + length < |s| && s[i + length] == '.' {
        length := length + 1;
        if i + length >= |s| || !IsDigit(s[i + length]) {
          return None;
        }
      }
      ghost var fraction := length;
      while i + length < |s| && IsDigit(s[i + length])
        invariant fraction <= length && i + length <= |s|
        invariant forall k :: i + fraction <= k < i + length ==> IsDigit(s[k])
        decreases |s| - i - length
      {
        length := length + 1;
      }
      RunIsMaximal(s, i + fraction, IsDigit, length - fraction);
      return Some(length);
    }

    method TryLexOperator() returns (lexed: bool)
      requires Valid()
      modifies this
      ensures Valid()
      ensures lexed == OperatorStep(characters, old(State())).Some?
      ensures State() == if lexed then OperatorStep(characters, old(State())).value else old(State())
    {
      if index >= |characters| {
        return false;
      }
      var j := 0;
      while j < |Operators|
        invariant j <= |Operators|
        invariant FirstOperator(Operators, characters, index, j) == FirstOperator(Operators, characters, index, 0)
        invariant State() == old(State())
      {
        var chars := Operators[j].0;
        var matched := chars[0] == characters[index];
        var length := 1;
        while matched && length < |chars| && index + length < |characters|
          invariant 1 <= length <= |chars| && index + length <= |characters|
          invariant matched && length < |chars| && index + length < |characters| ==>
                      Compare(chars, characters, index, 0) == Compare(chars, characters, index, length)
          invariant !(matched && length < |chars| && index + length < |characters|) ==>
                      Compare(chars, characters, index, 0) == (matched, length)
          decreases |chars| - length
        {
          matched := chars[length] == characters[index + length];
          length := length + 1;
        }
        if matched {
          ConsumeAndAddToken(Operators[j].1, length);
          return true;
        }
        j := j + 1;
      }
      return false;
    }
  }

  // ---------------------------------------------------------------------------------------------
  // Properties

  /** A run that cannot be extended is the one Run computes. */
  lemma {:induction false} RunIsMaximal(s: seq<char>, i: nat, p: char -> bool, n: nat)
    requires i + n <= |s|
    requires forall k :: i <= k < i + n ==> p(s[k])
    requires i + n == |s| || !p(s[i + n])
    ensures Run(s, i, p) == n
    decreases n
  {
    if n > 0 {
      RunIsMaximal(s, i + 1, p, n - 1);
    }
  }

  predicate IsNumberText(t: string) {
    (0 < |t| && All(t, IsDigit)) ||
    (exists d :: 0 < d < |t| - 1 && t[d] == '.' && All(t[..d], IsDigit) && All(t[d + 1..], IsDigit))
  }

  predicate IsWordText(t: string) {
    0 < |t| && IsWordStart(t[0]) && All(t, IsWordChar)
  }

  /** A number token is a digit run with an optional fraction of at least one digit, and it is
      maximal: no digit follows it, and a number without a fraction is not followed by '.'.
      TryLexNumber fails exactly when no digit is at `i`, or when the digit run is followed by a
      '.' that is not followed by a digit. */
  lemma NumberLengthMeaning(s: seq<char>, i: nat)
    requires i <= |s|
    ensures NumberLength(s, i).Some? ==>
      var n := NumberLength(s, i).value;
      IsNumberText(s[i..i + n]) && (i + n == |s| || !IsDigit(s[i + n])) &&
      (All(s[i..i + n], IsDigit) ==> i + n == |s| || s[i + n] != '.')
    ensures NumberLength(s, i).None? <==>
      (i == |s| || !IsDigit(s[i]) ||
       (var d := Run(s, i, IsDigit); i + d < |s| && s[i + d] == '.' && (i + d + 1 == |s| || !IsDigit(s[i + d + 1]))))
  {
    var d := Run(s, i, IsDigit);
    if d > 0 && i + d < |s| && s[i + d] == '.' && i + d + 1 < |s| && IsDigit(s[i + d + 1]) {
      FractionNumber(s, i, d, Run(s, i + d + 1, IsDigit));
    } else if d > 0 {
      IntegerNumber(s, i, d);
    }
  }

  /** A digit run, a '.' and a second, non-empty digit run make a number with a fraction. */
  lemma FractionNumber(s: seq<char>, i: nat, d: nat, f: nat)
    requires i <= |s| && d == Run(s, i, IsDigit) && 0 < d && i + d + 1 < |s|
    requires s[i + d] == '.' && IsDigit(s[i + d + 1]) && f == Run(s, i + d + 1, IsDigit)
    ensures IsNumberText(s[i..i + d + 1 + f]) && !All(s[i..i + d + 1 + f], IsDigit)
    ensures i + d + 1 + f == |s| || !IsDigit(s[i + d + 1 + f])
  {
    var t := s[i..i + d + 1 + f];
    assert All(t[..d], IsDigit) by {
      assert forall k | 0 <= k < d :: t[..d][k] == s[i + k];
    }
    var u := t[d + 1..];
    assert All(u, IsDigit) by {
      assert forall k | 0 <= k < |u| :: u[k] == s[i + d + 1 + k];
    }
    DottedNumberText(t, d);
  }

  /** Digits, a '.' and digits, both runs non-empty, are a number text that is not all digits. */
  lemma DottedNumberText(t: string, d: nat)
    requires 0 < d < |t| - 1 && t[d] == '.' && All(t[..d], IsDigit) && All(t[d + 1..], IsDigit)
    ensures IsNumberText(t) && !All(t, IsDigit)
  {
    assert !IsDigit(t[d]);
  }

  /** A non-empty digit run alone is a number without a fraction. */
  lemma IntegerNumber(s: seq<char>, i: nat, d: nat)
    requires i <= |s| && d == Run(s, i, IsDigit) && 0 < d
    ensures IsNumberText(s[i..i + d]) && All(s[i..i + d], IsDigit)
  {
  }

  /** The comparison loop compares the entry with the input up to the end of the shorter of the
      two; it reports a match exactly when that common prefix agrees, and then the length
      compared. */
  lemma {:induction false} CompareMeaning(op: string, s: seq<char>, i: nat, k: nat)
    requires k < |op| && i + k < |s|
    requires op[..k] == s[i..i + k]
    ensures var len := Min(|op|, |s| - i);
      (Compare(op, s, i, k).0 <==> op[..len] == s[i..i + len]) &&
      (Compare(op, s, i, k).0 ==> Compare(op, s, i, k).1 == len)
    decreases |op| - k
  {
    var len := Min(|op|, |s| - i);
    var m := op[k] == s[i + k];
    if m {
      assert op[..k + 1] == op[..k] + [op[k]] && s[i..i + k + 1] == s[i..i + k] + [s[i + k]];
      if k + 1 < |op| && i + k + 1 < |s| {
        CompareMeaning(op, s, i, k + 1);
      }
    } else {
      assert op[..len][k] != s[i..i + len][k];
    }
  }

  /** The first table entry, in table order, that matches wins. */
  lemma {:induction false} FirstOperatorIsFirstMatch(ops: seq<OperatorEntry>, s: seq<char>, i: nat, j: nat)
    requires i < |s| && j <= |ops|
    ensures FirstOperator(ops, s, i, j).Some? <==> exists e :: j <= e < |ops| && Matches(ops, s, i, e)
    ensures forall e :: j <= e < |ops| && Matches(ops, s, i, e) && (forall e' :: j <= e' < e ==> !Matches(ops, s, i, e')) ==>
              FirstOperator(ops, s, i, j) == Some((ops[e].1, Compare(ops[e].0, s, i, 0).1))
    decreases |ops| - j
  {
    if j < |ops| {
      FirstOperatorIsFirstMatch(ops, s, i, j + 1);
      if Matches(ops, s, i, j) {
        assert FirstOperator(ops, s, i, j) == Some((ops[j].1, Compare(ops[j].0, s, i, 0).1));
        forall e | j <= e < |ops| && Matches(ops, s, i, e) && (forall e' :: j <= e' < e ==> !Matches(ops, s, i, e'))
          ensures FirstOperator(ops, s, i, j) == Some((ops[e].1, Compare(ops[e].0, s, i, 0).1))
        {
          assert e == j;
        }
      } else {
        assert FirstOperator(ops, s, i, j) == FirstOperator(ops, s, i, j + 1);
        forall e | j <= e < |ops| && Matches(ops, s, i, e)
          ensures j + 1 <= e
        {
        }
        forall e | j <= e < |ops| && Matches(ops, s, i, e) && (forall e' :: j <= e' < e ==> !Matches(ops, s, i, e'))
          ensures FirstOperator(ops, s, i, j) == Some((ops[e].1, Compare(ops[e].0, s, i, 0).1))
        {
          assert forall e' :: j + 1 <= e' < e ==> !Matches(ops, s, i, e');
        }
      }
    }
  }

  predicate IsOperatorText(text: string, kind: TokenType) {
    exists e :: 0 <= e < |Operators| && Operators[e].1 == kind &&
      0 < |text| <= |Operators[e].0| && text == Operators[e].0[..|text|]
  }

  /** What the source can emit: a number token's text is a number, an identifier's a word that is
      not a keyword, a keyword's its keyword, and an operator token's a non-empty prefix of a
      table entry of its kind (the whole entry unless the input ended inside it). */
  predicate WellFormedToken(t: Token) {
    if t.kind == Number then IsNumberText(t.contents)
    else if t.kind == Identifier then IsWordText(t.contents) && t.contents !in Keywords
    else (t.contents in Keywords && Keywords[t.contents] == t.kind) || IsOperatorText(t.contents, t.kind)
  }

  lemma EntryPrefix(e: nat, text: string)
    requires e < |Operators| && 0 < |text| <= |Operators[e].0| && text == Operators[e].0[..|text|]
    ensures IsOperatorText(text, Operators[e].1)
  {
  }

  /** `text` is a non-empty prefix of table entry `e`, and `kind` is that entry's kind. */
  predicate EntryPrefixOf(ops: seq<OperatorEntry>, text: string, kind: TokenType, e: nat) {
    e < |ops| && ops[e].1 == kind && 0 < |text| <= |ops[e].0| && text == ops[e].0[..|text|]
  }

  /** The token an operator step emits is a non-empty prefix of the table entry that won, and of
      that entry's kind. */
  lemma {:induction false} FirstOperatorText(ops: seq<OperatorEntry>, s: seq<char>, i: nat, j: nat)
      returns (kind: TokenType, n: nat, e: nat)
    requires i < |s| && j <= |ops| && FirstOperator(ops, s, i, j).Some?
    ensures FirstOperator(ops, s, i, j) == Some((kind, n)) && i + n <= |s|
    ensures EntryPrefixOf(ops, s[i..i + n], kind, e)
    decreases |ops| - j
  {
    if Matches(ops, s, i, j) {
      MatchText(ops, s, i, j);
      kind, n, e := ops[j].1, Compare(ops[j].0, s, i, 0).1, j;
    } else {
      kind, n, e := FirstOperatorText(ops, s, i, j + 1);
    }
  }

  /** An entry that matches yields a prefix of itself. */
  lemma MatchText(ops: seq<OperatorEntry>, s: seq<char>, i: nat, j: nat)
    requires i < |s| && j < |ops| && Matches(ops, s, i, j)
    ensures var c := Compare(ops[j].0, s, i, 0); EntryPrefixOf(ops, s[i..i + c.1], ops[j].1, j)
  {
    var op := ops[j].0;
    CompareMeaning(op, s, i, 0);
  }

  /** `n` is `st` with one token appended, on the same line: the token holds the characters from
      `st.index` up to `n.index` and carries the position `st` recorded. */
  predicate AppendsToken(s: seq<char>, st: LexState, n: LexState) {
    st.index <= n.index <= |s| && |n.tokens| > 0 && n.tokens == st.tokens + [n.tokens[|n.tokens| - 1]] &&
    n.line == st.line &&
    var t := n.tokens[|n.tokens| - 1];
    t.contents == s[st.index..n.index] && t.line == st.line && t.column == st.column
  }

  lemma AddTokenAppends(s: seq<char>, st: LexState, kind: TokenType, length: nat)
    requires st.index + length <= |s|
    ensures var n := AddToken(s, st, kind, length);
      AppendsToken(s, st, n) && n.tokens[|n.tokens| - 1] == Token(s[st.index..st.index + length], kind, st.line, st.column)
  {
  }

  lemma OperatorStepFacts(s: seq<char>, st: LexState)
    requires st.index < |s| && OperatorStep(s, st).Some?
    ensures var n := OperatorStep(s, st).value;
      AppendsToken(s, st, n) && WellFormedToken(n.tokens[|n.tokens| - 1])
  {
    var kind, n, e := FirstOperatorText(Operators, s, st.index, 0);
    OperatorTokenWellFormed(s[st.index..st.index + n], kind, st.line, st.column, e);
    AddTokenAppends(s, st, kind, n);
  }

  /** A prefix of a table entry, of the entry's kind, is the text of a well-formed token: no entry
      has kind Number or Identifier. */
  lemma OperatorTokenWellFormed(text: string, kind: TokenType, line: int, column: int, e: nat)
    requires EntryPrefixOf(Operators, text, kind, e)
    ensures WellFormedToken(Token(text, kind, line, column))
  {
    EntryPrefix(e, text);
    assert kind != Number && kind != Identifier;
  }

  lemma NumberStepFacts(s: seq<char>, st: LexState)
    requires st.index < |s| && NumberStep(s, st).Some?
    ensures var n := NumberStep(s, st).value;
      AppendsToken(s, st, n) && WellFormedToken(n.tokens[|n.tokens| - 1])
  {
    NumberLengthMeaning(s, st.index);
  }

  lemma WordStepFacts(s: seq<char>, st: LexState)
    requires st.index < |s| && WordStep(s, st).Some?
    ensures var n := WordStep(s, st).value;
      AppendsToken(s, st, n) && WellFormedToken(n.tokens[|n.tokens| - 1])
  {
    var n := Run(s, st.index, IsWordChar);
    var text := s[st.index..st.index + n];
    assert All(text, IsWordChar);
    assert IsWordText(text);
  }

  /** What one step does: it skips one whitespace character, possibly resetting `Line` to 0, or
      it appends one well-formed token whose text is exactly the characters consumed and whose
      position is the one before the step. */
  lemma StepFacts(s: seq<char>, st: LexState)
    requires st.index < |s| && Step(s, st).Some?
    ensures var n := Step(s, st).value;
      (n.tokens == st.tokens && n.index == st.index + 1 && IsWhitespace(s[st.index]) &&
       (n.line == st.line || n.line == 0)) ||
      (AppendsToken(s, st, n) && WellFormedToken(n.tokens[|n.tokens| - 1]))
  {
    if OperatorStep(s, st).Some? {
      OperatorStepFacts(s, st);
    } else if WhitespaceStep(s, st).Some? {
    } else if NumberStep(s, st).Some? {
      NumberStepFacts(s, st);
    } else {
      WordStepFacts(s, st);
    }
  }

  /** `Line` never advances: starting from line 0, every token the lexer emits is on line 0. */
  lemma {:induction false} LineStaysZero(s: seq<char>, st: LexState)
    requires st.index <= |s| && st.line == 0
    requires forall t :: t in st.tokens ==> t.line == 0
    ensures LexRun(s, st).line == 0
    ensures forall t :: t in LexRun(s, st).tokens ==> t.line == 0
    decreases |s| - st.index
  {
    if st.index < |s| && Step(s, st).Some? {
      StepFacts(s, st);
      LineStaysZero(s, Step(s, st).value);
    }
  }

  /** Every token the lexer emits is well formed. */
  lemma {:induction false} TokensWellFormed(s: seq<char>, st: LexState)
    requires st.index <= |s|
    requires forall t :: t in st.tokens ==> WellFormedToken(t)
    ensures forall t :: t in LexRun(s, st).tokens ==> WellFormedToken(t)
    decreases |s| - st.index
  {
    if st.index < |s| && Step(s, st).Some? {
      StepFacts(s, st);
      TokensWellFormed(s, Step(s, st).value);
    }
  }

  /** What the lexer consumed, in order: the tokens it emitted and the whitespace it skipped. */
  datatype Piece = Emitted(token: Token) | Skipped(c: char)

  function PieceText(p: Piece): string {
    match p
    case Emitted(t) => t.contents
    case Skipped(c) => [c]
  }

  function Text(ps: seq<Piece>): string {
    if ps == [] then [] else PieceText(ps[0]) + Text(ps[1..])
  }

  function TokensOf(ps: seq<Piece>): seq<Token> {
    if ps == [] then []
    else (if ps[0].Emitted? then [ps[0].token] else []) + TokensOf(ps[1..])
  }

  /** The pieces consumed by LexRun from `st`, one per step. */
  function Trace(s: seq<char>, st: LexState): seq<Piece>
    requires st.index <= |s|
    decreases |s| - st.index
  {
    if st.index == |s| then []
    else
      match Step(s, st)
      case None => []
      case Some(next) => [PieceOf(s, st, next)] + Trace(s, next)
  }

  /** The piece that a step from `st` to `next` consumed: the token it appended, or the character
      it skipped. */
  function PieceOf(s: seq<char>, st: LexState, next: LexState): Piece
    requires st.index < |s|
  {
    if |next.tokens| > |st.tokens| then Emitted(next.tokens[|next.tokens| - 1]) else Skipped(s[st.index])
  }

  /** Reconstruction: the token texts and the skipped whitespace, concatenated in order, are
      exactly the characters consumed; the tokens among the pieces are the tokens appended. */
  lemma PiecesCons(p: Piece, ps: seq<Piece>)
    ensures Text([p] + ps) == PieceText(p) + Text(ps)
    ensures TokensOf([p] + ps) == (if p.Emitted? then [p.token] else []) + TokensOf(ps)
  {
    assert ([p] + ps)[1..] == ps;
  }

  /** One step of the trace: the piece the step consumed, then the rest. */
  lemma TraceUnfold(s: seq<char>, st: LexState)
    requires st.index < |s| && Step(s, st).Some?
    ensures var next := Step(s, st).value;
      Trace(s, st) == [PieceOf(s, st, next)] + Trace(s, next) && LexRun(s, st) == LexRun(s, next)
  {
  }

  /** The piece one step consumes is the text between the two indices, the tokens grow by at most
      that piece, and a skipped character is whitespace. */
  lemma PieceFacts(s: seq<char>, st: LexState)
    requires st.index < |s| && Step(s, st).Some?
    ensures var next := Step(s, st).value; var p := PieceOf(s, st, next);
      st.index < next.index <= |s| && PieceText(p) == s[st.index..next.index] &&
      next.tokens == st.tokens + (if p.Emitted? then [p.token] else []) && (p.Skipped? ==> IsWhitespace(p.c))
  {
    StepFacts(s, st);
  }

  /** Where no step applies, or at the end, nothing more is consumed. */
  lemma TraceStops(s: seq<char>, st: LexState)
    requires st.index <= |s| && (st.index == |s| || Step(s, st).None?)
    ensures Trace(s, st) == [] && LexRun(s, st).index == st.index
  {
  }

  lemma EmptyPrefix<T>(e: seq<T>, x: seq<T>)
    requires e == []
    ensures e + x == x
  {
  }

  lemma SliceSplit(s: seq<char>, a: nat, b: nat, c: nat)
    requires a <= b <= c <= |s|
    ensures s[a..c] == s[a..b] + s[b..c]
  {
  }

  lemma {:induction false} ReconstructText(s: seq<char>, st: LexState)
    requires st.index <= |s|
    ensures Text(Trace(s, st)) == s[st.index..LexRun(s, st).index]
    decreases |s| - st.index
  {
    if st.index < |s| && Step(s, st).Some? {
      var next := Step(s, st).value;
      var p := PieceOf(s, st, next);
      TraceUnfold(s, st);
      PieceFacts(s, st);
      PiecesCons(p, Trace(s, next));
      ReconstructText(s, next);
      SliceSplit(s, st.index, next.index, LexRun(s, next).index);
    } else {
      TraceStops(s, st);
    }
  }

  /** The tokens of one step: those of the piece it consumed. */
  lemma StepTokens(s: seq<char>, st: LexState) returns (emitted: seq<Token>)
    requires st.index < |s| && Step(s, st).Some?
    ensures Step(s, st).value.index <= |s|
    ensures Step(s, st).value.tokens == st.tokens + emitted
    ensures TokensOf(Trace(s, st)) == emitted + TokensOf(Trace(s, Step(s, st).value))
    ensures LexRun(s, st) == LexRun(s, Step(s, st).value)
  {
    var next := Step(s, st).value;
    var p := PieceOf(s, st, next);
    TraceUnfold(s, st);
    PieceFacts(s, st);
    PiecesCons(p, Trace(s, next));
    emitted := if p.Emitted? then [p.token] else [];
  }

  lemma {:induction false} ReconstructTokens(s: seq<char>, st: LexState)
    requires st.index <= |s|
    ensures LexRun(s, st).tokens == st.tokens + TokensOf(Trace(s, st))
    decreases |s| - st.index
  {
    if st.index < |s| && Step(s, st).Some? {
      var next := Step(s, st).value;
      var emitted := StepTokens(s, st);
      ReconstructTokens(s, next);
      assert (st.tokens + emitted) + TokensOf(Trace(s, next)) == st.tokens + (emitted + TokensOf(Trace(s, next)));
    }
  }

  lemma {:induction false} SkippedAreWhitespace(s: seq<char>, st: LexState)
    requires st.index <= |s|
    ensures forall p :: p in Trace(s, st) && p.Skipped? ==> IsWhitespace(p.c)
    decreases |s| - st.index
  {
    if st.index < |s| && Step(s, st).Some? {
      TraceUnfold(s, st);
      PieceFacts(s, st);
      SkippedAreWhitespace(s, Step(s, st).value);
    }
  }

  /** Reconstruction: the token texts and the skipped whitespace, concatenated in order, are
      exactly the characters consumed; the tokens among the pieces are the tokens appended; every
      skipped character is whitespace. */
  lemma Reconstruction(s: seq<char>, st: LexState)
    requires st.index <= |s|
    ensures Text(Trace(s, st)) == s[st.index..LexRun(s, st).index]
    ensures LexRun(s, st).tokens == st.tokens + TokensOf(Trace(s, st))
    ensures forall p :: p in Trace(s, st) && p.Skipped? ==> IsWhitespace(p.c)
  {
    ReconstructText(s, st);
    ReconstructTokens(s, st);
    SkippedAreWhitespace(s, st);
  }

  /** For a whole source: the pieces rebuild the consumed prefix, and the whole source when the
      lexer did not halt early. */
  lemma LexReconstructsSource(source: string)
    ensures Text(Trace(source, Start)) == source[..Lex(source).index]
    ensures Lex(source).index == |source| ==> Text(Trace(source, Start)) == source
    ensures Lex(source).tokens == TokensOf(Trace(source, Start))
  {
    var r := LexRun(source, Start);
    var ts := TokensOf(Trace(source, Start));
    Reconstruction(source, Start);
    assert source[0..r.index] == source[..r.index];
    EmptyPrefix(Start.tokens, ts);
    assert r.index == |source| ==> source[..r.index] == source;
  }

  /** Lex halts at a character, without skipping it, only when none of the four attempts applies
      there; the tokens emitted before are kept; every token is on line 0. */
  lemma LexHaltsWhereNothingApplies(source: string)
    ensures var r := Lex(source);
      r.index < |source| ==>
        OperatorStep(source, r).None? && WhitespaceStep(source, r).None? &&
        NumberStep(source, r).None? && WordStep(source, r).None?
    ensures forall t :: t in Lex(source).tokens ==> t.line == 0 && WellFormedToken(t)
  {
    LineStaysZero(source, Start);
    TokensWellFormed(source, Start);
  }

  /** An entry whose first character is not the one at `i` is passed over. */
  lemma PassOverOne(ops: seq<OperatorEntry>, s: seq<char>, i: nat, j: nat)
    requires i < |s| && j < |ops| && ops[j].0[0] != s[i]
    ensures FirstOperator(ops, s, i, j) == FirstOperator(ops, s, i, j + 1)
  {
    assert !Compare(ops[j].0, s, i, 0).0;
  }

  /** The first seven entries are "+", "-", "*", "/", "(", ")" and ";". */
  lemma FirstSevenEntries()
    ensures forall e | 0 <= e < 7 :: Operators[e].0[0] in "+-*/();"
  {
  }

  /** The next two start with '=' and '!'. */
  lemma FirstNineEntries()
    ensures forall e | 0 <= e < 9 :: Operators[e].0[0] in "+-*/();=!"
  {
  }

  /** Entries `j` up to `k` that start with one of `cs` are passed over at any other character. */
  lemma {:induction false} PassOver(ops: seq<OperatorEntry>, s: seq<char>, i: nat, j: nat, k: nat, cs: seq<char>)
    requires i < |s| && j <= k <= |ops| && s[i] !in cs
    requires forall e | j <= e < k :: ops[e].0[0] in cs
    ensures FirstOperator(ops, s, i, j) == FirstOperator(ops, s, i, k)
    decreases k - j
  {
    if j < k {
      PassOverOne(ops, s, i, j);
      PassOver(ops, s, i, j + 1, k, cs);
    }
  }

  /** A two-character entry reached at the last character of the input, which is the entry's
      first, matches with length 1. */
  lemma EntryAtEnd(ops: seq<OperatorEntry>, s: seq<char>, i: nat, j: nat, c: char, d: char, kind: TokenType)
    requires i + 1 == |s| && s[i] == c && j < |ops| && ops[j] == ([c, d], kind)
    ensures FirstOperator(ops, s, i, j) == Some((kind, 1))
  {
    assert Compare(ops[j].0, s, i, 0) == (true, 1);
  }

  /** Because the two-character entries come before '<', the input "<=" gives one LessOrEqual
      token. */
  lemma LessOrEqualIsOneToken(s: seq<char>, i: nat)
    requires i + 1 < |s| && s[i] == '<' && s[i + 1] == '='
    ensures FirstOperator(Operators, s, i, 0) == Some((LessOrEqual, 2))
  {
    FirstNineEntries();
    PassOver(Operators, s, i, 0, 9, "+-*/();=!");
    EntryOfTwo(Operators, s, i, 9, '<', '=', LessOrEqual);
  }

  /** An entry of two characters that the input holds at `i` matches with length 2. */
  lemma EntryOfTwo(ops: seq<OperatorEntry>, s: seq<char>, i: nat, j: nat, c: char, d: char, kind: TokenType)
    requires i + 1 < |s| && s[i] == c && s[i + 1] == d && j < |ops| && ops[j] == ([c, d], kind)
    ensures FirstOperator(ops, s, i, j) == Some((kind, 2))
  {
    assert Compare(ops[j].0, s, i, 0) == (true, 2);
  }

  /** The first entry from `j` on whose text starts with `c`, paired with length 1. */
  function FirstStartingWith(ops: seq<OperatorEntry>, c: char, j: nat): Option<(TokenType, nat)>
    requires j <= |ops|
    decreases |ops| - j
  {
    if j == |ops| then None
    else if ops[j].0[0] == c then Some((ops[j].1, 1))
    else FirstStartingWith(ops, c, j + 1)
  }

  /** At the last character of the input the comparison loop stops after one character, so the
      first entry that starts with that character wins, with a one-character text. */
  lemma {:induction false} TrailingOperator(ops: seq<OperatorEntry>, s: seq<char>, i: nat, j: nat)
    requires i + 1 == |s| && j <= |ops|
    ensures FirstOperator(ops, s, i, j) == FirstStartingWith(ops, s[i], j)
    decreases |ops| - j
  {
    if j < |ops| {
      assert Compare(ops[j].0, s, i, 0) == (ops[j].0[0] == s[i], 1);
      TrailingOperator(ops, s, i, j + 1);
    }
  }

  /** So a trailing "=" is a DoubleEqual token with the text "=". */
  lemma TrailingEqual(s: seq<char>, i: nat)
    requires i + 1 == |s| && s[i] == '='
    ensures FirstOperator(Operators, s, i, 0) == Some((DoubleEqual, 1))
  {
    FirstSevenEntries();
    PassOver(Operators, s, i, 0, 7, "+-*/();");
    EntryAtEnd(Operators, s, i, 7, '=', '=', DoubleEqual);
  }

  /** No operator starts with a character that IsOperatorStart rejects. */
  lemma {:induction false} NoOperatorAt(ops: seq<OperatorEntry>, s: seq<char>, i: nat, j: nat)
    requires i < |s| && j <= |ops| && !IsOperatorStart(s[i])
    ensures FirstOperator(ops, s, i, j).None?
    decreases |ops| - j
  {
    if j < |ops| {
      NoOperatorAt(ops, s, i, j + 1);
    }
  }

  /** "1." fails to lex: the digit run is followed by a '.' with no digit after it, so
      TryLexNumber consumes nothing and Lex stops at once, with no token. */
  lemma TrailingDotHalts()
    ensures Lex("1.") == Start
  {
    var s := "1.";
    NoOperatorAt(Operators, s, 0, 0);
    assert Run(s, 0, IsDigit) == 1 by { RunIsMaximal(s, 0, IsDigit, 1); }
    assert Step(s, Start).None?;
  }

  /** For every input: at a digit run followed by a '.' with no digit after it, TryLexNumber
      consumes nothing, no operator starts at the digit, and Lex stops there with the state
      unchanged. */
  lemma DanglingDotHalts(s: seq<char>, st: LexState, d: nat)
    requires st.index < |s| && d == Run(s, st.index, IsDigit) && 0 < d
    requires st.index + d < |s| && s[st.index + d] == '.'
    requires st.index + d + 1 == |s| || !IsDigit(s[st.index + d + 1])
    ensures LexRun(s, st) == st
  {
    NoOperatorAt(Operators, s, st.index, 0);
    assert OperatorStep(s, st).None?;
    assert WhitespaceStep(s, st).None?;
    NumberLengthMeaning(s, st.index);
    assert NumberStep(s, st).None?;
    assert WordStep(s, st).None?;
  }

  /** "1 ." lexes the number, skips the space and halts at the '.', which starts nothing. */
  lemma DotAfterSpaceHalts()
    ensures Lex("1 .") == LexState(2, 0, 2, [Token("1", Number, 0, 0)])
  {
    var s := "1 .";
    var st1 := LexState(1, 0, 1, [Token("1", Number, 0, 0)]);
    var st2 := LexState(2, 0, 2, [Token("1", Number, 0, 0)]);
    OneSpaceDotFirst();
    OneSpaceDotSecond();
    OneSpaceDotThird();
    assert LexRun(s, st2) == st2;
    assert LexRun(s, st1) == st2;
  }

  lemma OneSpaceDotFirst()
    ensures Step("1 .", Start) == Some(LexState(1, 0, 1, [Token("1", Number, 0, 0)]))
  {
    var s := "1 .";
    NoOperatorAt(Operators, s, 0, 0);
    assert Run(s, 0, IsDigit) == 1 by { RunIsMaximal(s, 0, IsDigit, 1); }
    assert s[0..1] == "1";
    assert OperatorStep(s, Start).None?;
    assert WhitespaceStep(s, Start).None?;
    assert NumberLength(s, 0) == Some(1);
    assert AddToken(s, Start, Number, 1) == LexState(1, 0, 1, [Token("1", Number, 0, 0)]);
    assert NumberStep(s, Start) == Some(AddToken(s, Start, Number, 1));
    StepIsNumberStep(s, Start);
  }

  /** Step falls through to TryLexNumber when the operator and whitespace attempts fail. */
  lemma StepIsNumberStep(s: seq<char>, st: LexState)
    requires st.index < |s|
    requires OperatorStep(s, st).None? && WhitespaceStep(s, st).None? && NumberStep(s, st).Some?
    ensures Step(s, st) == NumberStep(s, st)
  {
  }

  lemma OneSpaceDotSecond()
    ensures Step("1 .", LexState(1, 0, 1, [Token("1", Number, 0, 0)]))
         == Some(LexState(2, 0, 2, [Token("1", Number, 0, 0)]))
  {
    NoOperatorAt(Operators, "1 .", 1, 0);
  }

  lemma OneSpaceDotThird()
    ensures Step("1 .", LexState(2, 0, 2, [Token("1", Number, 0, 0)])).None?
  {
    var s := "1 .";
    NoOperatorAt(Operators, s, 2, 0);
    assert Run(s, 2, IsDigit) == 0;
  }
}
