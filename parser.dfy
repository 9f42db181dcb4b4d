/** The MiniLanguage parser (MiniLanguage/Parser.cs): recursive descent over the token list.

    The source keeps the cursor in a field `Index` that `Read` advances and that `ParseExpression`
    restores to backtrack. Here every parse function takes the cursor `i` and returns the node it
    built with the cursor after it (`Parsed(value, next)`), so restoring the cursor is simply reusing
    an earlier `i`. Each `while` loop of the source is a tail-recursive function that carries what
    the loop has built so far. A thrown SyntaxError is a `Failure(SyntaxError(..))`, and reading
    `Tokens[Index]` past the end of the list is `Failure(IndexOutOfRange)`. */
module MiniParser {
  import opened Wrappers
  import opened MiniLexer
  import opened MiniAst

  datatype Message =
    | Expected(expected: TokenType, found: TokenType)   // "Expected {0}, found {1}"
    | Text(text: string)

  datatype ParseError = SyntaxError(column: int, line: int, message: Message) | IndexOutOfRange

  /** A parsed node and the cursor just after it. */
  datatype Parsed<+T> = Parsed(value: T, next: nat)

  type Outcome<+T> = Result<Parsed<T>, ParseError>

  // ---------------------------------------------------------------------------------------------
  // Cursor primitives

  /** Match(type, ahead): false past the end of the list, otherwise a comparison of kinds. */
  predicate Match(toks: seq<Token>, i: nat, kind: TokenType, ahead: nat := 0) {
    i + ahead < |toks| && toks[i + ahead].kind == kind
  }

  /** Read: the current token, and the cursor after it. */
  function Read(toks: seq<Token>, i: nat): (r: Outcome<Token>)
    ensures r.Success? <==> i < |toks|
    ensures r.Success? ==> r.value.value == toks[i] && r.value.next == i + 1
    ensures r.Failure? ==> r.error == IndexOutOfRange
  {
    if i < |toks| then Success(Parsed(toks[i], i + 1)) else Failure(IndexOutOfRange)
  }

  /** MatchAndRead: reads the current token exactly when it has the kind asked for. It looks at
      `Tokens[Index]` without a bounds check. */
  function MatchAndRead(toks: seq<Token>, i: nat, kind: TokenType): (r: Outcome<bool>)
    ensures r.Failure? <==> i >= |toks|
    ensures r.Failure? ==> r.error == IndexOutOfRange
    ensures r.Success? ==> (r.value.value <==> Match(toks, i, kind))
    ensures r.Success? ==> r.value.next == if r.value.value then i + 1 else i
  {
    if i >= |toks| then Failure(IndexOutOfRange)
    else if toks[i].kind == kind then Success(Parsed(true, i + 1))
    else Success(Parsed(false, i))
  }

  /** Error(message): the SyntaxError thrown at the current token, which is itself read without a
      bounds check. */
  function ErrorAt(toks: seq<Token>, i: nat, message: Message): (e: ParseError)
    ensures e == IndexOutOfRange <==> i >= |toks|
    ensures i < |toks| ==> e.column == toks[i].column && e.line == toks[i].line && e.message == message
  {
    if i < |toks| then SyntaxError(toks[i].column, toks[i].line, message) else IndexOutOfRange
  }

  /** Expect: consumes a token of the kind asked for, or fails at the current token. */
  function Expect(toks: seq<Token>, i: nat, kind: TokenType): (r: Result<nat, ParseError>)
    ensures r.Success? <==> Match(toks, i, kind)
    ensures r.Success? ==> r.value == i + 1
    ensures i >= |toks| ==> r == Failure(IndexOutOfRange)
    ensures i < |toks| && !Match(toks, i, kind) ==>
              r == Failure(SyntaxError(toks[i].column, toks[i].line, Expected(kind, toks[i].kind)))
  {
    var m :- MatchAndRead(toks, i, kind);
    if m.value then Success(m.next) else Failure(ErrorAt(toks, i, Expected(kind, toks[i].kind)))
  }

  // ---------------------------------------------------------------------------------------------
  // Expressions. Each function of the cluster names a rank in its `decreases` clause: a call at
  // the same cursor goes to a lower rank, every other call is at a later cursor.

  /** ParseFunctionCallArguments: expressions separated by commas up to a `)`, which it leaves
      unread. `acc` holds the arguments parsed so far. */
  function CallArguments(toks: seq<Token>, i: nat, acc: seq<Expr>): (r: Outcome<seq<Expr>>)
    requires i <= |toks|
    ensures r.Success? ==> i <= r.value.next <= |toks|
    decreases |toks| - i, 11
  {
    if Match(toks, i, CloseParen) then Success(Parsed(acc, i))
    else
      var arg :- ParseExpression(toks, i);
      if Match(toks, arg.next, CloseParen) then CallArguments(toks, arg.next, acc + [arg.value])
      else
        var j :- Expect(toks, arg.next, Comma);
        CallArguments(toks, j, acc + [arg.value])
  }

  /** The optional prefix operator of ParseFactor: at most one `+`, `-` or `!`. With no `+` the
      `MatchAndRead(Minus)` test reads the current token, so at the end of the list it fails. */
  function Prefix(toks: seq<Token>, i: nat): (r: Outcome<Option<UnaryOp>>)
    requires i <= |toks|
    ensures r.Failure? <==> i == |toks|
    ensures r.Success? ==> r.value.next == if r.value.value.Some? then i + 1 else i
    ensures r.Success? ==>
              (r.value.value == Some(UnaryOp.Plus) <==> toks[i].kind == TokenType.Plus) &&
              (r.value.value == Some(UnaryOp.Minus) <==> toks[i].kind == TokenType.Minus) &&
              (r.value.value == Some(UnaryOp.Not) <==> toks[i].kind == Bang)
  {
    if Match(toks, i, TokenType.Plus) then Success(Parsed(Some(UnaryOp.Plus), i + 1))
    else if i == |toks| then Failure(IndexOutOfRange)
    else if Match(toks, i, TokenType.Minus) then Success(Parsed(Some(UnaryOp.Minus), i + 1))
    else if Match(toks, i, Bang) then Success(Parsed(Some(UnaryOp.Not), i + 1))
    else Success(Parsed(None, i))
  }

  /** The kinds of token that can start a primary expression in ParseFactor. */
  predicate StartsPrimary(kind: TokenType) {
    kind == Identifier || kind == Number || kind == OpenParen || kind == True || kind == False ||
    kind == StringLiteral
  }

  /** The primary part of ParseFactor: a call, an array index, a name, a number, a parenthesised
      expression, a Boolean or a string literal; anything else is "Unexpected token.". */
  function Primary(toks: seq<Token>, i: nat): (r: Outcome<Expr>)
    requires i <= |toks|
    ensures r.Success? ==> i < r.value.next <= |toks|
    decreases |toks| - i, 2
  {
    if Match(toks, i, Identifier) then
      var name := toks[i].contents;
      if Match(toks, i, OpenParen, 1) then
        var args :- CallArguments(toks, i + 2, []);
        var j :- Expect(toks, args.next, CloseParen);
        Success(Parsed(Call(name, args.value), j))
      else if Match(toks, i, OpenSquareBracket, 1) then
        var index :- ParseExpression(toks, i + 2);
        var j :- Expect(toks, index.next, CloseSquareBracket);
        Success(Parsed(Index(name, index.value), j))
      else Success(Parsed(Ident(name), i + 1))
    else if Match(toks, i, Number) then Success(Parsed(NumberLit(toks[i].contents), i + 1))
    else if i == |toks| then Failure(IndexOutOfRange)       // MatchAndRead(OpenParen)
    else if Match(toks, i, OpenParen) then
      var e :- ParseExpression(toks, i + 1);
      var j :- Expect(toks, e.next, CloseParen);
      Success(Parsed(e.value, j))
    else if Match(toks, i, True) || Match(toks, i, False) then
      Success(Parsed(BoolLit(toks[i].contents), i + 1))
    else if Match(toks, i, StringLiteral) then Success(Parsed(StringLit(toks[i].contents), i + 1))
    else Failure(ErrorAt(toks, i, Text("Unexpected token.")))
  }

  /** ParseFactor: an optional prefix operator applied to one primary. */
  function ParseFactor(toks: seq<Token>, i: nat): (r: Outcome<Expr>)
    requires i <= |toks|
    ensures r.Success? ==> i < r.value.next <= |toks|
    decreases |toks| - i, 3
  {
    var prefix :- Prefix(toks, i);
    var factor :- Primary(toks, prefix.next);
    match prefix.value
    case Some(op) => Success(Parsed(Unary(op, factor.value), factor.next))
    case None => Success(Parsed(factor.value, factor.next))
  }

  /** The `*` and `/` operator at the cursor, if any. */
  function TermOperator(toks: seq<Token>, i: nat): Option<BinaryOp> {
    if Match(toks, i, Times) then Some(Multiply)
    else if Match(toks, i, Slash) then Some(Divide)
    else None
  }

  /** The loop of ParseTerm, with `left` the tree built so far. */
  function TermRest(toks: seq<Token>, i: nat, left: Expr): (r: Outcome<Expr>)
    requires i <= |toks|
    ensures r.Success? ==> i <= r.value.next <= |toks|
    decreases |toks| - i, 4
  {
    match TermOperator(toks, i)
    case None => Success(Parsed(left, i))
    case Some(op) =>
      var right :- ParseFactor(toks, i + 1);
      if TermOperator(toks, right.next).Some? then TermRest(toks, right.next, Binary(op, left, right.value))
      else Success(Parsed(Binary(op, left, right.value), right.next))
  }

  /** ParseTerm: factors joined by `*` and `/`. */
  function ParseTerm(toks: seq<Token>, i: nat): (r: Outcome<Expr>)
    requires i <= |toks|
    ensures r.Success? ==> i < r.value.next <= |toks|
    decreases |toks| - i, 4
  {
    var left :- ParseFactor(toks, i);
    TermRest(toks, left.next, left.value)
  }

  /** The `+` and `-` operator at the cursor, if any. */
  function ArithOperator(toks: seq<Token>, i: nat): Option<BinaryOp> {
    if Match(toks, i, TokenType.Plus) then Some(Add)
    else if Match(toks, i, TokenType.Minus) then Some(Subtract)
    else None
  }

  /** The loop of ParseArithmeticExpression. */
  function ArithRest(toks: seq<Token>, i: nat, left: Expr): (r: Outcome<Expr>)
    requires i <= |toks|
    ensures r.Success? ==> i <= r.value.next <= |toks|
    decreases |toks| - i, 5
  {
    match ArithOperator(toks, i)
    case None => Success(Parsed(left, i))
    case Some(op) =>
      var right :- ParseTerm(toks, i + 1);
      if ArithOperator(toks, right.next).Some? then ArithRest(toks, right.next, Binary(op, left, right.value))
      else Success(Parsed(Binary(op, left, right.value), right.next))
  }

  /** ParseArithmeticExpression: terms joined by `+` and `-`. */
  function ParseArith(toks: seq<Token>, i: nat): (r: Outcome<Expr>)
    requires i <= |toks|
    ensures r.Success? ==> i < r.value.next <= |toks|
    decreases |toks| - i, 5
  {
    var left :- ParseTerm(toks, i);
    ArithRest(toks, left.next, left.value)
  }

  /** The relational or equality operator at the cursor, checked in the source's order. */
  function RelationalOperator(toks: seq<Token>, i: nat): Option<BinaryOp> {
    if Match(toks, i, TokenType.DoubleEqual) then Some(BinaryOp.DoubleEqual)
    else if Match(toks, i, TokenType.NotEqual) then Some(BinaryOp.NotEqual)
    else if Match(toks, i, TokenType.Less) then Some(BinaryOp.Less)
    else if Match(toks, i, TokenType.LessOrEqual) then Some(BinaryOp.LessOrEqual)
    else if Match(toks, i, TokenType.Greater) then Some(BinaryOp.Greater)
    else if Match(toks, i, TokenType.GreaterOrEqual) then Some(BinaryOp.GreaterOrEqual)
    else None
  }

  /** The optional comparison after the left operand `left`, which ends at `i`: with a
      relational or equality operator there, a second arithmetic expression and a Binary node. */
  function ComparisonRest(toks: seq<Token>, i: nat, left: Expr): (r: Outcome<Expr>)
    requires i <= |toks|
    ensures r.Success? ==> i <= r.value.next <= |toks|
    decreases |toks| - i, 6
  {
    match RelationalOperator(toks, i)
    case None => Success(Parsed(left, i))
    case Some(op) =>
      var right :- ParseArith(toks, i + 1);
      Success(Parsed(Binary(op, left, right.value), right.next))
  }

  /** ParseConditionalExpression: an arithmetic expression, optionally followed by one
      comparison operator and a second arithmetic expression. */
  function ParseConditional(toks: seq<Token>, i: nat): (r: Outcome<Expr>)
    requires i <= |toks|
    ensures r.Success? ==> i < r.value.next <= |toks|
    decreases |toks| - i, 6
  {
    var left :- ParseArith(toks, i);
    ComparisonRest(toks, left.next, left.value)
  }

  /** The loop of ParseAndExpression. A `&&` followed by another `&&` builds an `And` node; the last
      `&&` of a chain builds an `Add` node. */
  function AndRest(toks: seq<Token>, i: nat, left: Expr): (r: Outcome<Expr>)
    requires i <= |toks|
    ensures r.Success? ==> i <= r.value.next <= |toks|
    decreases |toks| - i, 7
  {
    if !Match(toks, i, TokenType.And) then Success(Parsed(left, i))
    else
      var right :- ParseConditional(toks, i + 1);
      if Match(toks, right.next, TokenType.And) then AndRest(toks, right.next, Binary(BinaryOp.And, left, right.value))
      else Success(Parsed(Binary(Add, left, right.value), right.next))
  }

  function ParseAnd(toks: seq<Token>, i: nat): (r: Outcome<Expr>)
    requires i <= |toks|
    ensures r.Success? ==> i < r.value.next <= |toks|
    decreases |toks| - i, 7
  {
    var left :- ParseConditional(toks, i);
    AndRest(toks, left.next, left.value)
  }

  /** The loop of ParseOr. It continues only when an `&&` follows the right operand, which
      ParseAnd never leaves (OrStopsAfterOne). */
  function OrRest(toks: seq<Token>, i: nat, left: Expr): (r: Outcome<Expr>)
    requires i <= |toks|
    ensures r.Success? ==> i <= r.value.next <= |toks|
    decreases |toks| - i, 8
  {
    if !Match(toks, i, Or) then Success(Parsed(left, i))
    else
      var right :- ParseAnd(toks, i + 1);
      if Match(toks, right.next, TokenType.And) then OrRest(toks, right.next, Binary(BinaryOp.And, left, right.value))
      else Success(Parsed(Binary(Add, left, right.value), right.next))
  }

  function ParseOr(toks: seq<Token>, i: nat): (r: Outcome<Expr>)
    requires i <= |toks|
    ensures r.Success? ==> i < r.value.next <= |toks|
    decreases |toks| - i, 8
  {
    var left :- ParseAnd(toks, i);
    OrRest(toks, left.next, left.value)
  }

  /** The rest of an `x[index]` lookahead, from the end `j` of the index expression: the `]`, then
      either `=` and the assigned value, or back to the cursor `i` on entry and ParseOr. */
  function IndexTail(toks: seq<Token>, i: nat, index: Expr, j: nat): (r: Outcome<Expr>)
    requires i < j <= |toks|
    ensures r.Success? ==> i < r.value.next <= |toks|
    decreases |toks| - i, 9
  {
    var k :- Expect(toks, j, CloseSquareBracket);
    var equal :- MatchAndRead(toks, k, Equal);
    if equal.value then
      var value :- ParseExpression(toks, equal.next);
      Success(Parsed(Assign(Index(toks[i].contents, index), value.value), value.next))
    else ParseOr(toks, i)
  }

  /** ParseExpression: `x = e` and `x[i] = e` assignments, recognised by lookahead; an `x[i]` with
      no `=` after it goes back to the cursor on entry and is parsed by ParseOr. */
  function ParseExpression(toks: seq<Token>, i: nat): (r: Outcome<Expr>)
    requires i <= |toks|
    ensures r.Success? ==> i < r.value.next <= |toks|
    decreases |toks| - i, 10
  {
    if Match(toks, i, Identifier) && Match(toks, i, Equal, 1) then
      var value :- ParseExpression(toks, i + 2);
      Success(Parsed(Assign(Ident(toks[i].contents), value.value), value.next))
    else if Match(toks, i, Identifier) && Match(toks, i, OpenSquareBracket, 1) then
      var index :- ParseExpression(toks, i + 2);
      IndexTail(toks, i, index.value, index.next)
    else ParseOr(toks, i)
  }

  // ---------------------------------------------------------------------------------------------
  // Type annotations

  /** The `while (MatchAndRead(OpenSquareBracket)) arrayDimensions++` loop. */
  function OpenBrackets(toks: seq<Token>, i: nat, dims: nat): (r: Outcome<nat>)
    requires i <= |toks|
    ensures r.Success? ==> i <= r.value.next <= |toks| && r.value.value == dims + (r.value.next - i)
    decreases |toks| - i
  {
    var open :- MatchAndRead(toks, i, OpenSquareBracket);
    if open.value then OpenBrackets(toks, open.next, dims + 1) else Success(Parsed(dims, i))
  }

  /** The element type of an annotation; with none of the four keywords it stays `Any`. Each test
      is a MatchAndRead, so the end of the list fails. */
  function BaseType(toks: seq<Token>, i: nat): (r: Outcome<VariableType>)
    requires i <= |toks|
    ensures r.Failure? <==> i == |toks|
    ensures r.Success? ==> r.value.next == if r.value.value == AnyType then i else i + 1
  {
    if i == |toks| then Failure(IndexOutOfRange)
    else if Match(toks, i, Int) then Success(Parsed(IntType, i + 1))
    else if Match(toks, i, Float) then Success(Parsed(FloatType, i + 1))
    else if Match(toks, i, String) then Success(Parsed(StringType, i + 1))
    else if Match(toks, i, Bool) then Success(Parsed(BoolType, i + 1))
    else Success(Parsed(AnyType, i))
  }

  /** Every token from `lo` up to `hi` is a `[`. */
  predicate AllOpen(toks: seq<Token>, lo: nat, hi: nat)
    requires hi <= |toks|
  {
    forall k :: lo <= k < hi ==> toks[k].kind == OpenSquareBracket
  }

  /** The `for` loop that expects `n` more closing brackets, each of which must be a `[` token. */
  function ExpectOpenBrackets(toks: seq<Token>, i: nat, n: nat): (r: Result<nat, ParseError>)
    requires i <= |toks|
    ensures r.Success? <==> i + n <= |toks| && AllOpen(toks, i, i + n)
    ensures r.Success? ==> r.value == i + n
    decreases n
  {
    if n == 0 then Success(i)
    else
      var j :- Expect(toks, i, OpenSquareBracket);
      ExpectOpenBrackets(toks, j, n - 1)
  }

  /** ParseTypeAnnotation: nothing (`null`) unless a `:` follows; otherwise brackets, an
      element type, an optional `ref` and as many "closing" brackets as opening ones. */
  function ParseTypeAnnotation(toks: seq<Token>, i: nat): (r: Outcome<Option<TypeAnnotation>>)
    requires i <= |toks|
    ensures r.Success? ==> i <= r.value.next <= |toks|
    ensures r.Success? ==> (r.value.value.None? <==> !Match(toks, i, Colon))
    ensures r.Success? && r.value.value.None? ==> r.value.next == i
  {
    if !Match(toks, i, Colon) then Success(Parsed(None, i))
    else
      var dims :- OpenBrackets(toks, i + 1, 0);
      var tail :- AnnotationTail(toks, dims.next, dims.value);
      Success(Parsed(Some(tail.value), tail.next))
  }

  /** The rest of an annotation with `dims` opening brackets, from the element type on: the
      optional `ref` and the `dims` "closing" brackets. */
  function AnnotationTail(toks: seq<Token>, i: nat, dims: nat): (r: Outcome<TypeAnnotation>)
    requires i <= |toks|
    ensures r.Success? ==> i <= r.value.next <= |toks| && r.value.value.arrayDimensions == dims
    ensures r.Success? ==> dims <= r.value.next && AllOpen(toks, r.value.next - dims, r.value.next)
  {
    var base :- BaseType(toks, i);
    var isRef :- MatchAndRead(toks, base.next, Ref);
    var j :- ExpectOpenBrackets(toks, isRef.next, dims);
    Success(Parsed(TypeAnnotation(base.value, dims, isRef.value), j))
  }

  // ---------------------------------------------------------------------------------------------
  // Declarations and statements

  /** ParseValDeclarationStatment after its `var` keyword: a name, an optional annotation, an
      optional `= initialiser`, and a `;`. */
  function VarDeclarationAfterVar(toks: seq<Token>, i: nat): (r: Outcome<VarDecl>)
    requires i <= |toks|
    ensures r.Success? ==> i < r.value.next <= |toks|
  {
    if !Match(toks, i, Identifier) then Failure(ErrorAt(toks, i, Text("identifier expected")))
    else
      var annotation :- ParseTypeAnnotation(toks, i + 1);
      var init :- Initialiser(toks, annotation.next);
      var j :- Expect(toks, init.next, Semicolon);
      Success(Parsed(VarDecl(toks[i].contents, annotation.value, init.value), j))
  }

  /** The optional `= initialiser` of a `var` declaration. */
  function Initialiser(toks: seq<Token>, i: nat): (r: Outcome<Option<Expr>>)
    requires i <= |toks|
    ensures r.Success? ==> i <= r.value.next <= |toks|
    ensures r.Success? ==> (r.value.value.Some? <==> Match(toks, i, Equal))
  {
    if Match(toks, i, Equal) then
      var e :- ParseExpression(toks, i + 1);
      Success(Parsed(Some(e.value), e.next))
    else Success(Parsed(None, i))
  }

  /** ParseValDeclarationStatment: `null` (None) when the current token is not `var`. Its two
      callers test for `var` first and so go straight to VarDeclarationAfterVar. */
  function ParseVarDeclaration(toks: seq<Token>, i: nat): (r: Outcome<Option<VarDecl>>)
    requires i <= |toks|
    ensures r.Success? ==> (r.value.value.Some? <==> Match(toks, i, Var))
    ensures r.Success? ==> i <= r.value.next <= |toks|
  {
    var isVar :- MatchAndRead(toks, i, Var);
    if !isVar.value then Success(Parsed(None, i))
    else
      var d :- VarDeclarationAfterVar(toks, isVar.next);
      Success(Parsed(Some(d.value), d.next))
  }

  /** The loop of ParseFunctionDeclarationArguments: `name annotation` items separated by commas,
      up to a `)` that it leaves unread. */
  function ParameterItems(toks: seq<Token>, i: nat, acc: seq<VarDecl>): (r: Outcome<seq<VarDecl>>)
    requires i <= |toks|
    ensures r.Success? ==> i <= r.value.next <= |toks|
    ensures r.Success? ==> acc <= r.value.value
    ensures r.Success? && r.value.next == i ==> r.value.value == acc
    ensures r.Success? && !Match(toks, i, CloseParen) ==> |acc| < |r.value.value|
    decreases |toks| - i
  {
    if Match(toks, i, CloseParen) then Success(Parsed(acc, i))
    else if !Match(toks, i, Identifier) then Failure(ErrorAt(toks, i, Text("Identifier expected")))
    else
      var annotation :- ParseTypeAnnotation(toks, i + 1);
      var decl := VarDecl(toks[i].contents, annotation.value, None);
      if Match(toks, annotation.next, CloseParen) then ParameterItems(toks, annotation.next, acc + [decl])
      else
        var j :- Expect(toks, annotation.next, Comma);
        ParameterItems(toks, j, acc + [decl])
  }

  /** ParseFunctionDeclarationArguments: `null` (None) for an empty list, else the parameters. */
  function ParseParameters(toks: seq<Token>, i: nat): (r: Outcome<Option<seq<VarDecl>>>)
    requires i <= |toks|
    ensures r.Success? ==> i <= r.value.next <= |toks|
    ensures Match(toks, i, CloseParen) ==> r == Success(Parsed(None, i))
    ensures r.Success? && r.value.value.Some? ==> |r.value.value.value| > 0
  {
    if Match(toks, i, CloseParen) then Success(Parsed(None, i))
    else
      var items :- ParameterItems(toks, i, []);
      Success(Parsed(Some(items.value), items.next))
  }

  /** The `while (!Match(CloseCurlyBrace))` loop shared by a block and a function body: statements
      up to a `}` that it leaves unread. */
  function StatementsUntilClose(toks: seq<Token>, i: nat, acc: seq<Stmt>): (r: Outcome<seq<Stmt>>)
    requires i <= |toks|
    ensures r.Success? ==> i <= r.value.next <= |toks|
    decreases |toks| - i, 2
  {
    if Match(toks, i, CloseBrace) then Success(Parsed(acc, i))
    else
      var s :- ParseStatement(toks, i);
      StatementsUntilClose(toks, s.next, acc + [s.value])
  }

  /** ParseStatement. Its first test is `MatchAndRead(OpenCurlyBrace)`, which reads the current
      token, so at the end of the list it fails; with a token present each MatchAndRead test below
      is a Match and a one-token advance. */
  function ParseStatement(toks: seq<Token>, i: nat): (r: Outcome<Stmt>)
    requires i <= |toks|
    ensures r.Success? ==> i < r.value.next <= |toks|
    decreases |toks| - i, 1
  {
    if i == |toks| then Failure(IndexOutOfRange)
    else if Match(toks, i, OpenBrace) then
      var body :- StatementsUntilClose(toks, i + 1, []);
      var j :- Expect(toks, body.next, CloseBrace);
      Success(Parsed(Block(body.value), j))
    else if Match(toks, i, If) then
      var a :- Expect(toks, i + 1, OpenParen);
      var condition :- ParseExpression(toks, a);
      var b :- Expect(toks, condition.next, CloseParen);
      var consequent :- ParseStatement(toks, b);
      if Match(toks, consequent.next, Else) then
        var alternate :- ParseStatement(toks, consequent.next + 1);
        Success(Parsed(IfStmt(condition.value, consequent.value, Some(alternate.value)), alternate.next))
      else Success(Parsed(IfStmt(condition.value, consequent.value, None), consequent.next))
    else if Match(toks, i, While) then
      var a :- Expect(toks, i + 1, OpenParen);
      var condition :- ParseExpression(toks, a);
      var b :- Expect(toks, condition.next, CloseParen);
      var body :- ParseStatement(toks, b);
      Success(Parsed(WhileStmt(condition.value, body.value), body.next))
    else if Match(toks, i, Var) then
      var d :- VarDeclarationAfterVar(toks, i + 1);
      Success(Parsed(VarStmt(d.value), d.next))
    else if Match(toks, i, Ref) then
      var d :- RefAfterRef(toks, i + 1);
      Success(Parsed(d.value, d.next))
    else if Match(toks, i, Function) then
      var f :- FunctionAfterKeyword(toks, i + 1);
      Success(Parsed(FunctionStmt(f.value), f.next))
    else if Match(toks, i, Return) then
      var e :- ParseExpression(toks, i + 1);
      var j :- Expect(toks, e.next, Semicolon);
      Success(Parsed(ReturnStmt(e.value), j))
    else
      var e :- ParseExpression(toks, i);
      var j :- Expect(toks, e.next, Semicolon);
      Success(Parsed(ExprStmt(e.value), j))
  }

  /** A `ref` statement after its keyword. The guard wants four more tokens, then tests for an
      identifier and a `=`; its third test looks at the identifier again instead of the token
      after the `=`, so the referenced name is the text of whatever token is there. */
  function RefAfterRef(toks: seq<Token>, i: nat): (r: Outcome<Stmt>)
    requires i <= |toks|
    ensures r.Success? ==> i < r.value.next <= |toks|
  {
    if i + 3 >= |toks| then Failure(ErrorAt(toks, i, Text("unexpected token")))
    else if !(Match(toks, i, Identifier) && Match(toks, i, Equal, 1) && Match(toks, i, Identifier)) then
      Failure(ErrorAt(toks, i, Text("unexpected token")))
    else
      var j :- Expect(toks, i + 3, Semicolon);
      Success(Parsed(RefStmt(toks[i].contents, toks[i + 2].contents), j))
  }

  /** ParseFunctionDeclarationStatement after its `function` keyword: a name, a parenthesised
      parameter list and a braced body. */
  function FunctionAfterKeyword(toks: seq<Token>, i: nat): (r: Outcome<FunctionDecl>)
    requires i <= |toks|
    ensures r.Success? ==> i < r.value.next <= |toks|
    decreases |toks| - i, 0
  {
    if !Match(toks, i, Identifier) then Failure(ErrorAt(toks, i, Text("Identifier expected")))
    else
      var a :- Expect(toks, i + 1, OpenParen);
      var params :- ParseParameters(toks, a);
      var b :- Expect(toks, params.next, CloseParen);
      var c :- Expect(toks, b, OpenBrace);
      var body :- StatementsUntilClose(toks, c, []);
      var j :- Expect(toks, body.next, CloseBrace);
      Success(Parsed(FunctionDecl(toks[i].contents, params.value, body.value), j))
  }

  /** ParseFunctionDeclarationStatement: `null` (None) when the current token is not `function`. */
  function ParseFunctionDeclaration(toks: seq<Token>, i: nat): (r: Outcome<Option<FunctionDecl>>)
    requires i <= |toks|
    ensures r.Success? ==> (r.value.value.Some? <==> Match(toks, i, Function))
    ensures r.Success? ==> i <= r.value.next <= |toks|
  {
    if !Match(toks, i, Function) then Success(Parsed(None, i))
    else
      var f :- FunctionAfterKeyword(toks, i + 1);
      Success(Parsed(Some(f.value), f.next))
  }

  // ---------------------------------------------------------------------------------------------
  // Programs

  /** The loop of ParseProgram: `var` and `function` declarations until the tokens run out. */
  function ProgramRest(toks: seq<Token>, i: nat, program: ProgramNode): (r: Result<ProgramNode, ParseError>)
    requires i <= |toks|
    ensures r.Success? ==> program.functions <= r.value.functions && program.variables <= r.value.variables
    decreases |toks| - i
  {
    if i == |toks| then Success(program)
    else if Match(toks, i, Var) then
      var d :- VarDeclarationAfterVar(toks, i + 1);
      ProgramRest(toks, d.next, program.(variables := program.variables + [d.value]))
    else if Match(toks, i, Function) then
      var f :- FunctionAfterKeyword(toks, i + 1);
      ProgramRest(toks, f.next, program.(functions := program.functions + [f.value]))
    else Failure(ErrorAt(toks, i, Text("Unexpected token")))
  }

  /** ParseProgram: a fresh parser over `toks` followed by a call of ParseProgram. */
  function ParseProgram(toks: seq<Token>): Result<ProgramNode, ParseError> {
    ProgramRest(toks, 0, ProgramNode([], []))
  }

  // ---------------------------------------------------------------------------------------------
  // Properties: operator chains

  /** One operator of a chain with the operand to its right. */
  datatype Operand = Operand(op: BinaryOp, arg: Expr)

  /** `first` combined, left to right, with each operator and operand: the left-nested tree. */
  function FoldLeft(first: Expr, rest: seq<Operand>): Expr
    decreases |rest|
  {
    if rest == [] then first else FoldLeft(Binary(rest[0].op, first, rest[0].arg), rest[1..])
  }

  /** From `i` on, the tokens hold the `*`/`/` operators and factors listed in `rest`, and the
      chain stops at `end`, where no such operator follows. */
  predicate IsTermChain(toks: seq<Token>, i: nat, rest: seq<Operand>, end: nat)
    requires i <= |toks|
    decreases |rest|
  {
    if rest == [] then end == i && TermOperator(toks, i).None?
    else
      TermOperator(toks, i) == Some(rest[0].op) &&
      var right := ParseFactor(toks, i + 1);
      right.Success? && right.value.value == rest[0].arg && IsTermChain(toks, right.value.next, rest[1..], end)
  }

  /** The same for `+`/`-` operators and terms. */
  predicate IsArithChain(toks: seq<Token>, i: nat, rest: seq<Operand>, end: nat)
    requires i <= |toks|
    decreases |rest|
  {
    if rest == [] then end == i && ArithOperator(toks, i).None?
    else
      ArithOperator(toks, i) == Some(rest[0].op) &&
      var right := ParseTerm(toks, i + 1);
      right.Success? && right.value.value == rest[0].arg && IsArithChain(toks, right.value.next, rest[1..], end)
  }

  /** `*` and `/` are left-associative: the loop of ParseTerm folds its factors to the left. */
  lemma {:induction false} TermRestFolds(toks: seq<Token>, i: nat, left: Expr, rest: seq<Operand>, end: nat)
    requires i <= |toks| && IsTermChain(toks, i, rest, end)
    ensures TermRest(toks, i, left) == Success(Parsed(FoldLeft(left, rest), end))
    decreases |rest|
  {
    if rest != [] {
      var right := ParseFactor(toks, i + 1).value;
      TermRestFolds(toks, right.next, Binary(rest[0].op, left, right.value), rest[1..], end);
    }
  }

  /** `+` and `-` are left-associative: the loop of ParseArithmeticExpression folds its terms to
      the left. */
  lemma {:induction false} ArithRestFolds(toks: seq<Token>, i: nat, left: Expr, rest: seq<Operand>, end: nat)
    requires i <= |toks| && IsArithChain(toks, i, rest, end)
    ensures ArithRest(toks, i, left) == Success(Parsed(FoldLeft(left, rest), end))
    decreases |rest|
  {
    if rest != [] {
      var right := ParseTerm(toks, i + 1).value;
      ArithRestFolds(toks, right.next, Binary(rest[0].op, left, right.value), rest[1..], end);
    }
  }

  /** One pass of the loop of ParseArithmeticExpression that goes round again. */
  lemma ArithRestContinues(toks: seq<Token>, i: nat, left: Expr, op: BinaryOp, b: Expr, k: nat)
    requires i < |toks| && ArithOperator(toks, i) == Some(op)
    requires ParseTerm(toks, i + 1) == Success(Parsed(b, k)) && ArithOperator(toks, k).Some?
    ensures ArithRest(toks, i, left) == ArithRest(toks, k, Binary(op, left, b))
  {
  }

  /** The last pass of the loop of ParseArithmeticExpression. */
  lemma ArithRestEnds(toks: seq<Token>, i: nat, left: Expr, op: BinaryOp, c: Expr, m: nat)
    requires i < |toks| && ArithOperator(toks, i) == Some(op)
    requires ParseTerm(toks, i + 1) == Success(Parsed(c, m)) && ArithOperator(toks, m).None?
    ensures ArithRest(toks, i, left) == Success(Parsed(Binary(op, left, c), m))
  {
  }

  /** `a - b - c` is `Subtract(Subtract(a, b), c)`, whatever the three terms are. */
  lemma SubtractChainsLeft(toks: seq<Token>, i: nat, a: Expr, j: nat, b: Expr, k: nat, c: Expr, m: nat)
    requires i <= |toks|
    requires ParseTerm(toks, i) == Success(Parsed(a, j))
    requires Match(toks, j, TokenType.Minus) && ParseTerm(toks, j + 1) == Success(Parsed(b, k))
    requires Match(toks, k, TokenType.Minus) && ParseTerm(toks, k + 1) == Success(Parsed(c, m))
    requires ArithOperator(toks, m).None?
    ensures ParseArith(toks, i) == Success(Parsed(Binary(Subtract, Binary(Subtract, a, b), c), m))
  {
    ArithRestContinues(toks, j, a, Subtract, b, k);
    ArithRestEnds(toks, k, Binary(Subtract, a, b), Subtract, c, m);
  }

  /** `&&` chains: an And node for every operator but the last, which builds an Add node. */
  function AndFold(left: Expr, rest: seq<Expr>): Expr
    decreases |rest|
  {
    if rest == [] then left
    else if |rest| == 1 then Binary(Add, left, rest[0])
    else AndFold(Binary(BinaryOp.And, left, rest[0]), rest[1..])
  }

  /** From `i` on, the tokens hold `&&` operators and the comparisons listed in `rest`, up to
      `end`, where no `&&` follows. */
  predicate IsAndChain(toks: seq<Token>, i: nat, rest: seq<Expr>, end: nat)
    requires i <= |toks|
    decreases |rest|
  {
    if rest == [] then end == i && !Match(toks, i, TokenType.And)
    else
      Match(toks, i, TokenType.And) &&
      var right := ParseConditional(toks, i + 1);
      right.Success? && right.value.value == rest[0] && IsAndChain(toks, right.value.next, rest[1..], end)
  }

  lemma {:induction false} AndRestFolds(toks: seq<Token>, i: nat, left: Expr, rest: seq<Expr>, end: nat)
    requires i <= |toks| && IsAndChain(toks, i, rest, end)
    ensures AndRest(toks, i, left) == Success(Parsed(AndFold(left, rest), end))
    decreases |rest|
  {
    if rest != [] {
      var right := ParseConditional(toks, i + 1).value;
      AndRestFolds(toks, right.next, Binary(BinaryOp.And, left, right.value), rest[1..], end);
    }
  }

  /** `a && b` is `Add(a, b)` and `a && b && c` is `Add(And(a, b), c)`. */
  lemma AndBuildsAdd(toks: seq<Token>, i: nat, a: Expr, j: nat, b: Expr, k: nat, c: Expr, m: nat)
    requires i <= |toks|
    requires ParseConditional(toks, i) == Success(Parsed(a, j))
    requires Match(toks, j, TokenType.And) && ParseConditional(toks, j + 1) == Success(Parsed(b, k))
    ensures !Match(toks, k, TokenType.And) ==> ParseAnd(toks, i) == Success(Parsed(Binary(Add, a, b), k))
    ensures Match(toks, k, TokenType.And) && ParseConditional(toks, k + 1) == Success(Parsed(c, m)) &&
            !Match(toks, m, TokenType.And) ==>
              ParseAnd(toks, i) == Success(Parsed(Binary(Add, Binary(BinaryOp.And, a, b), c), m))
  {
    if !Match(toks, k, TokenType.And) {
      assert IsAndChain(toks, k, [], k);
      assert IsAndChain(toks, j, [b], k);
      AndRestFolds(toks, j, a, [b], k);
    } else if ParseConditional(toks, k + 1) == Success(Parsed(c, m)) && !Match(toks, m, TokenType.And) {
      var rest := [b, c];
      assert IsAndChain(toks, m, rest[2..], m);
      assert IsAndChain(toks, k, rest[1..], m);
      assert IsAndChain(toks, j, rest, m);
      AndRestFolds(toks, j, a, rest, m);
    }
  }

  lemma {:induction false} AndRestStops(toks: seq<Token>, i: nat, left: Expr)
    requires i <= |toks|
    ensures AndRest(toks, i, left).Success? ==> !Match(toks, AndRest(toks, i, left).value.next, TokenType.And)
    decreases |toks| - i
  {
    if Match(toks, i, TokenType.And) {
      var right := ParseConditional(toks, i + 1);
      if right.Success? && Match(toks, right.value.next, TokenType.And) {
        AndRestStops(toks, right.value.next, Binary(BinaryOp.And, left, right.value.value));
      }
    }
  }

  /** ParseAndExpression never stops in front of an `&&`. */
  lemma AndStopsBeforeAnd(toks: seq<Token>, i: nat)
    requires i <= |toks|
    ensures ParseAnd(toks, i).Success? ==> !Match(toks, ParseAnd(toks, i).value.next, TokenType.And)
  {
    var left := ParseConditional(toks, i);
    if left.Success? {
      AndRestStops(toks, left.value.next, left.value.value);
    }
  }

  /** The loop of ParseOr runs at most once: after the right operand there is never an `&&`. */
  lemma OrRestOnce(toks: seq<Token>, i: nat, left: Expr)
    requires i < |toks| && toks[i].kind == Or
    ensures OrRest(toks, i, left) ==
              var right :- ParseAnd(toks, i + 1);
              Success(Parsed(Binary(Add, left, right.value), right.next))
  {
    AndStopsBeforeAnd(toks, i + 1);
  }

  /** `||` as it reads: one ParseAnd, and at most one `||` with a second ParseAnd after it,
      giving an Add node. */
  function SingleOr(toks: seq<Token>, i: nat): Outcome<Expr>
    requires i <= |toks|
  {
    var left :- ParseAnd(toks, i);
    if !Match(toks, left.next, Or) then Success(left)
    else
      var right :- ParseAnd(toks, left.next + 1);
      Success(Parsed(Binary(Add, left.value, right.value), right.next))
  }

  /** `||` never continues past one operator: the test for `&&` after the right operand always
      fails, so `a || b` is `Add(a, b)` and whatever follows, a second `||` included, is left
      unread. */
  lemma OrStopsAfterOne(toks: seq<Token>, i: nat)
    requires i <= |toks|
    ensures ParseOr(toks, i) == SingleOr(toks, i)
  {
    var left := ParseAnd(toks, i);
    if left.Success? && Match(toks, left.value.next, Or) {
      OrRestOnce(toks, left.value.next, left.value.value);
    }
  }

  // ---------------------------------------------------------------------------------------------
  // Properties: factors, comparisons and assignments

  /** The kinds ParseFactor takes as a prefix operator, and the operator each gives. */
  predicate IsPrefixKind(kind: TokenType) {
    kind == TokenType.Plus || kind == TokenType.Minus || kind == Bang
  }

  function PrefixOperator(kind: TokenType): UnaryOp
    requires IsPrefixKind(kind)
  {
    if kind == TokenType.Plus then UnaryOp.Plus else if kind == TokenType.Minus then UnaryOp.Minus else Not
  }

  /** A prefix operator applies to the primary right after it, and to nothing else. */
  lemma PrefixWrapsPrimary(toks: seq<Token>, i: nat)
    requires i < |toks| && IsPrefixKind(toks[i].kind)
    ensures ParseFactor(toks, i) ==
              var f :- Primary(toks, i + 1);
              Success(Parsed(Unary(PrefixOperator(toks[i].kind), f.value), f.next))
  {
  }

  /** A token that starts no primary expression fails with "Unexpected token." at that token. */
  lemma NonPrimaryFails(toks: seq<Token>, i: nat)
    requires i < |toks| && !StartsPrimary(toks[i].kind)
    ensures Primary(toks, i) == Failure(SyntaxError(toks[i].column, toks[i].line, Text("Unexpected token.")))
  {
  }

  /** At most one prefix operator: `--a`, `-!a`, `+-a` and the like fail at the second one. */
  lemma OnePrefixOnly(toks: seq<Token>, i: nat)
    requires i + 1 < |toks| && IsPrefixKind(toks[i].kind) && IsPrefixKind(toks[i + 1].kind)
    ensures ParseFactor(toks, i) ==
              Failure(SyntaxError(toks[i + 1].column, toks[i + 1].line, Text("Unexpected token.")))
  {
    PrefixWrapsPrimary(toks, i);
    NonPrimaryFails(toks, i + 1);
  }

  /** A `-` and the primary after it make one factor. */
  lemma MinusFactor(toks: seq<Token>, i: nat, a: Expr, j: nat)
    requires i < |toks| && toks[i].kind == TokenType.Minus
    requires Primary(toks, i + 1) == Success(Parsed(a, j))
    ensures ParseFactor(toks, i) == Success(Parsed(Unary(UnaryOp.Minus, a), j))
  {
  }

  /** The last pass of the loop of ParseTerm. */
  lemma TermRestEnds(toks: seq<Token>, i: nat, left: Expr, op: BinaryOp, b: Expr, k: nat)
    requires i < |toks| && TermOperator(toks, i) == Some(op)
    requires ParseFactor(toks, i + 1) == Success(Parsed(b, k)) && TermOperator(toks, k).None?
    ensures TermRest(toks, i, left) == Success(Parsed(Binary(op, left, b), k))
  {
  }

  /** `-a * b` is `Multiply(Minus(a), b)`: the prefix binds tighter than `*`. */
  lemma MinusBindsTighterThanTimes(toks: seq<Token>, i: nat, a: Expr, j: nat, b: Expr, k: nat)
    requires i < |toks| && toks[i].kind == TokenType.Minus
    requires Primary(toks, i + 1) == Success(Parsed(a, j))
    requires Match(toks, j, Times) && ParseFactor(toks, j + 1) == Success(Parsed(b, k))
    requires TermOperator(toks, k).None?
    ensures ParseTerm(toks, i) == Success(Parsed(Binary(Multiply, Unary(UnaryOp.Minus, a), b), k))
  {
    MinusFactor(toks, i, a, j);
    TermRestEnds(toks, j, Unary(UnaryOp.Minus, a), Multiply, b, k);
  }

  /** A name followed by neither `(` nor `[` is one factor by itself. */
  lemma NameFactor(toks: seq<Token>, i: nat)
    requires i + 1 < |toks| && toks[i].kind == Identifier
    requires toks[i + 1].kind != OpenParen && toks[i + 1].kind != OpenSquareBracket
    ensures ParseFactor(toks, i) == Success(Parsed(Ident(toks[i].contents), i + 1))
  {
    assert Primary(toks, i) == Success(Parsed(Ident(toks[i].contents), i + 1));
  }

  /** Without a `*` or `/` at the cursor the loop of ParseTerm does nothing. */
  lemma TermRestNone(toks: seq<Token>, i: nat, left: Expr)
    requires i <= |toks| && TermOperator(toks, i).None?
    ensures TermRest(toks, i, left) == Success(Parsed(left, i))
  {
  }

  /** Without a `+` or `-` at the cursor the loop of ParseArithmeticExpression does nothing. */
  lemma ArithRestNone(toks: seq<Token>, i: nat, left: Expr)
    requires i <= |toks| && ArithOperator(toks, i).None?
    ensures ArithRest(toks, i, left) == Success(Parsed(left, i))
  {
  }

  /** A plain name directly followed by the token at `i + 1`, which is none of `(`, `[`, `*`, `/`,
      `+` and `-`, is a whole arithmetic expression. */
  lemma NameOperand(toks: seq<Token>, i: nat)
    requires i + 1 < |toks| && toks[i].kind == Identifier
    requires toks[i + 1].kind !in {OpenParen, OpenSquareBracket, Times, Slash, TokenType.Plus, TokenType.Minus}
    ensures ParseArith(toks, i) == Success(Parsed(Ident(toks[i].contents), i + 1))
  {
    NameFactor(toks, i);
    TermRestNone(toks, i + 1, Ident(toks[i].contents));
    ArithRestNone(toks, i + 1, Ident(toks[i].contents));
  }

  /** A comparison operator and the arithmetic expression after it. */
  lemma ComparisonTaken(toks: seq<Token>, j: nat, a: Expr, op: BinaryOp, b: Expr, k: nat)
    requires j < |toks| && RelationalOperator(toks, j) == Some(op)
    requires ParseArith(toks, j + 1) == Success(Parsed(b, k))
    ensures ComparisonRest(toks, j, a) == Success(Parsed(Binary(op, a, b), k))
  {
  }

  /** One comparison at most: after `a op b` the comparison is complete, whatever follows. */
  lemma ComparisonDoesNotChain(toks: seq<Token>, i: nat, a: Expr, j: nat, op: BinaryOp, b: Expr, k: nat)
    requires i <= |toks|
    requires ParseArith(toks, i) == Success(Parsed(a, j)) && RelationalOperator(toks, j) == Some(op)
    requires ParseArith(toks, j + 1) == Success(Parsed(b, k))
    ensures ParseConditional(toks, i) == Success(Parsed(Binary(op, a, b), k))
  {
    ComparisonTaken(toks, j, a, op, b, k);
  }

  /** `a < b < c` gives `Less(a, b)` and leaves `< c` unread. */
  lemma LessChainStops(toks: seq<Token>, i: nat)
    requires i + 3 < |toks|
    requires toks[i].kind == Identifier && toks[i + 1].kind == TokenType.Less
    requires toks[i + 2].kind == Identifier && toks[i + 3].kind == TokenType.Less
    ensures ParseConditional(toks, i) ==
              Success(Parsed(Binary(BinaryOp.Less, Ident(toks[i].contents), Ident(toks[i + 2].contents)), i + 3))
    ensures Match(toks, i + 3, TokenType.Less)
  {
    NameOperand(toks, i);
    NameOperand(toks, i + 2);
  }

  /** `x = y = e` is `Assign(x, Assign(y, e))`: assignment groups to the right. */
  lemma AssignmentGroupsRight(toks: seq<Token>, i: nat, e: Expr, k: nat)
    requires i + 4 <= |toks|
    requires toks[i].kind == Identifier && toks[i + 1].kind == Equal
    requires toks[i + 2].kind == Identifier && toks[i + 3].kind == Equal
    requires ParseExpression(toks, i + 4) == Success(Parsed(e, k))
    ensures ParseExpression(toks, i) ==
              Success(Parsed(Assign(Ident(toks[i].contents), Assign(Ident(toks[i + 2].contents), e)), k))
  {
    assert ParseExpression(toks, i + 2) == Success(Parsed(Assign(Ident(toks[i + 2].contents), e), k));
  }

  lemma ExpectConsumes(toks: seq<Token>, i: nat, kind: TokenType)
    requires Match(toks, i, kind)
    ensures Expect(toks, i, kind) == Success(i + 1)
  {
  }

  /** An `x[` with a parsed index continues with the rest of the lookahead. */
  lemma IndexEntered(toks: seq<Token>, i: nat, index: Expr, j: nat)
    requires Match(toks, i, Identifier) && Match(toks, i, OpenSquareBracket, 1)
    requires ParseExpression(toks, i + 2) == Success(Parsed(index, j))
    ensures i < j && ParseExpression(toks, i) == IndexTail(toks, i, index, j)
  {
    assert !Match(toks, i, Equal, 1);
  }

  /** `x[index] = value` as it reads: the value is the expression after the `=` at `j + 1`. */
  function ElementAssignment(toks: seq<Token>, i: nat, index: Expr, j: nat): Outcome<Expr>
    requires i < |toks| && j + 2 <= |toks|
  {
    var value :- ParseExpression(toks, j + 2);
    Success(Parsed(Assign(Index(toks[i].contents, index), value.value), value.next))
  }

  lemma IndexTailAssigns(toks: seq<Token>, i: nat, index: Expr, j: nat)
    requires i < j && Match(toks, j, CloseSquareBracket) && Match(toks, j + 1, Equal)
    ensures IndexTail(toks, i, index, j) == ElementAssignment(toks, i, index, j)
  {
    ExpectConsumes(toks, j, CloseSquareBracket);
  }

  lemma IndexTailFallsBack(toks: seq<Token>, i: nat, index: Expr, j: nat)
    requires i < j && Match(toks, j, CloseSquareBracket) && j + 1 < |toks| && !Match(toks, j + 1, Equal)
    ensures IndexTail(toks, i, index, j) == ParseOr(toks, i)
  {
    ExpectConsumes(toks, j, CloseSquareBracket);
  }

  /** The lookahead for `x[index]` with `=` after the `]`: an array-element assignment, whose
      value is the expression after the `=`. */
  lemma IndexAssignment(toks: seq<Token>, i: nat, index: Expr, j: nat)
    requires Match(toks, i, Identifier) && Match(toks, i, OpenSquareBracket, 1)
    requires ParseExpression(toks, i + 2) == Success(Parsed(index, j)) && Match(toks, j, CloseSquareBracket)
    requires Match(toks, j + 1, Equal)
    ensures ParseExpression(toks, i) == ElementAssignment(toks, i, index, j)
  {
    IndexEntered(toks, i, index, j);
    IndexTailAssigns(toks, i, index, j);
  }

  /** The lookahead for `x[index]` followed by a token other than `=`: it goes back to the cursor
      on entry and parses an ordinary expression. */
  lemma IndexFallsBack(toks: seq<Token>, i: nat, index: Expr, j: nat)
    requires Match(toks, i, Identifier) && Match(toks, i, OpenSquareBracket, 1)
    requires ParseExpression(toks, i + 2) == Success(Parsed(index, j)) && Match(toks, j, CloseSquareBracket)
    requires j + 1 < |toks| && !Match(toks, j + 1, Equal)
    ensures ParseExpression(toks, i) == ParseOr(toks, i)
  {
    IndexEntered(toks, i, index, j);
    IndexTailFallsBack(toks, i, index, j);
  }

  /** The lookahead for `x[index]` at the end of the list: the test for `=` fails. */
  lemma IndexAtEnd(toks: seq<Token>, i: nat, index: Expr, j: nat)
    requires Match(toks, i, Identifier) && Match(toks, i, OpenSquareBracket, 1)
    requires ParseExpression(toks, i + 2) == Success(Parsed(index, j)) && Match(toks, j, CloseSquareBracket)
    requires j + 1 == |toks|
    ensures ParseExpression(toks, i) == Failure(IndexOutOfRange)
  {
    IndexEntered(toks, i, index, j);
    ExpectConsumes(toks, j, CloseSquareBracket);
  }

  // ---------------------------------------------------------------------------------------------
  // Properties: statements and declarations

  /** `ref x = t;`: only the name and the `=` are checked, so the referenced name is the text of
      any token after the `=`, a number or a keyword as well as a name. */
  lemma RefTakesAnyToken(toks: seq<Token>, i: nat)
    requires i + 4 < |toks| && toks[i].kind == Ref
    requires toks[i + 1].kind == Identifier && toks[i + 2].kind == Equal && toks[i + 4].kind == Semicolon
    ensures ParseStatement(toks, i) ==
              Success(Parsed(RefStmt(toks[i + 1].contents, toks[i + 3].contents), i + 5))
  {
  }

  /** A `ref` statement needs four tokens after the keyword, or it fails at the token after it. */
  lemma RefNeedsFourTokens(toks: seq<Token>, i: nat)
    requires i < |toks| && toks[i].kind == Ref && i + 4 >= |toks|
    ensures ParseStatement(toks, i) == Failure(ErrorAt(toks, i + 1, Text("unexpected token")))
  {
  }

  lemma {:induction false} OpenBracketsAreOpen(toks: seq<Token>, i: nat, dims: nat)
    requires i <= |toks|
    ensures var r := OpenBrackets(toks, i, dims);
            r.Success? ==> AllOpen(toks, i, r.value.next)
    decreases |toks| - i
  {
    if i < |toks| && toks[i].kind == OpenSquareBracket {
      OpenBracketsAreOpen(toks, i + 1, dims + 1);
    }
  }

  /** The parts of a parsed annotation: `d` brackets after the `:`, and as many "closing" ones
      at its end. */
  lemma AnnotationParts(toks: seq<Token>, i: nat) returns (d: nat)
    requires i <= |toks|
    requires ParseTypeAnnotation(toks, i).Success? && ParseTypeAnnotation(toks, i).value.value.Some?
    ensures var p := ParseTypeAnnotation(toks, i).value;
            Match(toks, i, Colon) && p.value.value.arrayDimensions == d && i + 1 + d <= p.next &&
            AllOpen(toks, i + 1, i + 1 + d) && AllOpen(toks, p.next - d, p.next)
  {
    var dims := OpenBrackets(toks, i + 1, 0).value;
    OpenBracketsAreOpen(toks, i + 1, 0);
    d := dims.value;
  }

  /** A type annotation with `d` dimensions is `:` followed by `d` tokens `[`, and it also ends
      with `d` tokens `[`: the "closing" brackets are tested for `[`, not `]`. */
  lemma AnnotationBrackets(toks: seq<Token>, i: nat)
    requires i <= |toks|
    requires ParseTypeAnnotation(toks, i).Success? && ParseTypeAnnotation(toks, i).value.value.Some?
    ensures var p := ParseTypeAnnotation(toks, i).value;
            var d := p.value.value.arrayDimensions;
            Match(toks, i, Colon) && i + 1 + d <= p.next &&
            (forall k :: i + 1 <= k < i + 1 + d ==> toks[k].kind == OpenSquareBracket) &&
            (forall k :: p.next - d <= k < p.next ==> toks[k].kind == OpenSquareBracket)
  {
    var d := AnnotationParts(toks, i);
  }

  /** `: [ int ]` is rejected: the `]` fails the test for a `[`. */
  lemma CloseBracketRejected(toks: seq<Token>, i: nat)
    requires i + 3 < |toks|
    requires toks[i].kind == Colon && toks[i + 1].kind == OpenSquareBracket
    requires toks[i + 2].kind == Int && toks[i + 3].kind == CloseSquareBracket
    ensures ParseTypeAnnotation(toks, i) ==
              Failure(SyntaxError(toks[i + 3].column, toks[i + 3].line, Expected(OpenSquareBracket, CloseSquareBracket)))
  {
    assert OpenBrackets(toks, i + 2, 1) == Success(Parsed(1, i + 2));
    assert OpenBrackets(toks, i + 1, 0) == Success(Parsed(1, i + 2));
  }

  /** `function f() { }`: an empty parameter list is `null` (None), not an empty list. */
  lemma EmptyParametersAreNull(toks: seq<Token>, i: nat)
    requires i + 4 < |toks| && toks[i].kind == Identifier && toks[i + 1].kind == OpenParen
    requires toks[i + 2].kind == CloseParen && toks[i + 3].kind == OpenBrace && toks[i + 4].kind == CloseBrace
    ensures FunctionAfterKeyword(toks, i) == Success(Parsed(FunctionDecl(toks[i].contents, None, []), i + 5))
  {
  }

  /** A program is `var` and `function` declarations only: any other token where a declaration
      should start fails with "Unexpected token". */
  lemma {:induction false} ProgramRejectsStray(toks: seq<Token>, i: nat, program: ProgramNode)
    requires i < |toks| && toks[i].kind != Var && toks[i].kind != Function
    ensures ProgramRest(toks, i, program) == Failure(SyntaxError(toks[i].column, toks[i].line, Text("Unexpected token")))
  {
  }
}
