/** The syntax tree shared by the MiniLanguage parser and compiler. The node classes themselves are
    not part of this model; their shape is rebuilt from how MiniLanguage/Parser.cs constructs them
    and how MiniLanguage/Compiler.cs reads them. A C# `null` child is an `Option` here. */
module MiniAst {
  import opened Wrappers

  /** UnaryExpression.Operator. */
  datatype UnaryOp = Plus | Minus | Not

  /** The BinaryExpression.Operator values the parser builds. */
  datatype BinaryOp =
    | Add | Subtract | Multiply | Divide | And
    | DoubleEqual | NotEqual | Less | LessOrEqual | Greater | GreaterOrEqual

  datatype Expr =
    | Ident(name: string)                          // IdentifierExpression
    | Call(callee: string, args: seq<Expr>)        // FunctionCallExpression
    | Index(array: string, index: Expr)            // ArrayIndexExpression
    | NumberLit(text: string)                      // the number literal: the lexeme, unparsed
    | BoolLit(text: string)                        // BoolLiteralExpression
    | StringLit(text: string)                      // StringLiteralExpression
    | Unary(uop: UnaryOp, operand: Expr)           // UnaryExpression
    | Binary(op: BinaryOp, left: Expr, right: Expr)  // BinaryExpression
    | Assign(target: Expr, value: Expr)            // AssignmentExpression

  /** VariableType of a type annotation. */
  datatype VariableType = AnyType | IntType | FloatType | StringType | BoolType

  datatype TypeAnnotation = TypeAnnotation(varType: VariableType, arrayDimensions: nat, isRef: bool)

  /** VarDeclarationStatement; also the node of a function parameter. */
  datatype VarDecl = VarDecl(name: string, annotation: Option<TypeAnnotation>, initialValue: Option<Expr>)

  /** FunctionDeclarationStatement: the parameter list is `null` (None) when it is empty, and the
      body is the statement list of its BlockStatement. */
  datatype FunctionDecl = FunctionDecl(name: string, params: Option<seq<VarDecl>>, body: seq<Stmt>)

  datatype Stmt =
    | Block(stmts: seq<Stmt>)                                  // BlockStatement
    | IfStmt(condition: Expr, consequent: Stmt, alternate: Option<Stmt>)
    | WhileStmt(condition: Expr, body: Stmt)
    | VarStmt(varDecl: VarDecl)
    | RefStmt(refName: string, referenced: string)             // RefDeclarationStatement
    | FunctionStmt(fn: FunctionDecl)
    | ReturnStmt(expr: Expr)
    | ExprStmt(expr: Expr)                                     // ExpressionStatement
    | AssignStmt(leftName: string, right: Option<Expr>)        // AssignmentStatement

  datatype ProgramNode = ProgramNode(functions: seq<FunctionDecl>, variables: seq<VarDecl>)
}
