/** The MiniLanguage compiler (MiniLanguage/Compiler.cs): a visitor over the syntax tree that appends
    instructions to one flat list, patches the targets of `if` jumps once it knows them, records the
    address of every function it meets and, when the whole program is emitted, points every call
    instruction at the address just before its function.

    The pure functions (ExprCode, CompileStmt, CompileBlock, CompileFunction, CompileProgramNode,
    Resolve, CompileProgram) are the specification; the class `Compiler` is the imperative visitor,
    and each of its methods is proved to reach the state the matching function computes. A thrown
    exception is a `Some(error)` returned by a method and a `Failure(error)` of a function. */
module MiniCompiler {
  import opened Wrappers
  import opened MiniAst

  /** The operand of LoadNumberInstruction. The source converts the literal text with
      double.Parse; that conversion is not part of this model, so the loaded value is named by the
      literal text. `ZeroValue` is the 0 loaded by the epilogue of a function. */
  datatype NumberValue = Literal(text: string) | ZeroValue

  /** The instruction classes the compiler creates. A jump target or call location that the
      compiler has not set yet holds the default 0 of a C# int field. */
  datatype Instruction =
    | AddInstruction
    | SubtractInstruction
    | MultiplyInstruction
    | DivideInstruction
    | LessInstruction
    | LoadNumberInstruction(number: NumberValue)
    | LoadVariableInstruction(variable: string)
    | NewVariableInstruction(variable: string)
    | StoreVariableInstruction(variable: string)
    | PopInstruction
    | ReturnInstruction
    | JumpOnFalseInstruction(jumpLocation: int)
    | JumpInstruction(jumpLocation: int)
    | CallInstruction(name: string, location: int)

  datatype CompileError =
    | NotImplemented            // NotImplementedException of the Unary and While visits
    | DuplicateKey(key: string) // FunctionLocations.Add of a name already present
    | NullReference             // Arguments.Count of a function whose parameter list is null
    | KeyNotFound(key: string)  // FunctionLocations[name] in the call fix-up
    | NoVisit(node: string)     // a node kind for which the compiler has no Visit overload

  // ---------------------------------------------------------------------------------------------
  // Expressions

  /** The instruction emitted after the operands of a binary expression: one for Add, Subtract,
      Multiply, Divide and Less, none for any other operator. */
  function ArithmeticInstruction(op: BinaryOp): seq<Instruction> {
    match op
    case Add => [AddInstruction]
    case Subtract => [SubtractInstruction]
    case Multiply => [MultiplyInstruction]
    case Divide => [DivideInstruction]
    case Less => [LessInstruction]
    case _ => []
  }

  /** The instructions the visit of an expression appends. They do not depend on where they are
      placed, since no expression emits a jump. The visitor's dispatch is not part of this model:
      a parsed number literal is taken to reach the number visit, and the nodes the compiler has
      no visit for (array index, bool and string literals, assignment expressions) to fail. */
  function ExprCode(e: Expr): (r: Result<seq<Instruction>, CompileError>)
    decreases e, 1
  {
    match e
    case Ident(name) => Success([LoadVariableInstruction(name)])
    case NumberLit(text) => Success([LoadNumberInstruction(Literal(text))])
    case Binary(op, left, right) =>
      var l :- ExprCode(left);
      var rr :- ExprCode(right);
      Success(l + rr + ArithmeticInstruction(op))
    case Call(callee, args) =>
      var a :- ArgumentsCode(args);
      Success(a + [CallInstruction(callee, 0)])
    case Unary(_, _) => Failure(NotImplemented)
    case Index(_, _) => Failure(NoVisit("ArrayIndexExpression"))
    case BoolLit(_) => Failure(NoVisit("BoolLiteralExpression"))
    case StringLit(_) => Failure(NoVisit("StringLiteralExpression"))
    case Assign(_, _) => Failure(NoVisit("AssignmentExpression"))
  }

  /** The arguments of a call, left to right. */
  function ArgumentsCode(args: seq<Expr>): (r: Result<seq<Instruction>, CompileError>)
    decreases args, 0
  {
    if args == [] then Success([])
    else
      var first :- ExprCode(args[0]);
      var rest :- ArgumentsCode(args[1..]);
      Success(first + rest)
  }

  /** `pre` in front of the result of a success; a failure unchanged. */
  function Prepend<T>(pre: seq<T>, r: Result<seq<T>, CompileError>): Result<seq<T>, CompileError> {
    match r
    case Success(rest) => Success(pre + rest)
    case Failure(e) => Failure(e)
  }

  lemma PrependNothing<T>(r: Result<seq<T>, CompileError>)
    ensures Prepend([], r) == r
  {
    if r.Success? {
      assert [] + r.value == r.value;
    }
  }

  lemma PrependTwice<T>(pre: seq<T>, mid: seq<T>, r: Result<seq<T>, CompileError>)
    ensures Prepend(pre, Prepend(mid, r)) == Prepend(pre + mid, r)
  {
    if r.Success? {
      assert pre + (mid + r.value) == pre + mid + r.value;
    }
  }

  // ---------------------------------------------------------------------------------------------
  // Statements, declarations and programs

  /** The three fields of the compiler: Instructions, FunctionLocations and StartAddress. */
  datatype CompilerState = CompilerState(code: seq<Instruction>, locations: map<string, int>, start: int)

  /** A newly constructed compiler. */
  const Initial := CompilerState([], map[], 0)

  function Emit(st: CompilerState, more: seq<Instruction>): CompilerState {
    st.(code := st.code + more)
  }

  /** The visit of a `var` declaration: NewVariable, and only with an initialiser its code and a
      Store. */
  function VarDeclCode(vd: VarDecl): Result<seq<Instruction>, CompileError> {
    match vd.initialValue
    case None => Success([NewVariableInstruction(vd.name)])
    case Some(e) =>
      var c :- ExprCode(e);
      Success([NewVariableInstruction(vd.name)] + c + [StoreVariableInstruction(vd.name)])
  }

  /** The parameter prologue of a function: NewVariable and Store for each parameter, from the
      last to the first. */
  function Prologue(params: seq<VarDecl>): seq<Instruction> {
    if params == [] then []
    else Prologue(params[1..]) + [NewVariableInstruction(params[0].name), StoreVariableInstruction(params[0].name)]
  }

  /** The visit of a statement: the state after it, or the exception it throws. */
  function CompileStmt(s: Stmt, st: CompilerState): (r: Result<CompilerState, CompileError>)
    ensures r.Success? ==> st.code <= r.value.code
    decreases s, 2
  {
    match s
    case Block(stmts) => CompileBlock(stmts, st)
    case IfStmt(condition, consequent, alternate) =>
      var cond :- ExprCode(condition);
      var jumpOnFalse := |st.code| + |cond|;
      var afterThen :- CompileStmt(consequent, Emit(st, cond + [JumpOnFalseInstruction(0)]));
      if alternate.None? then
        Success(afterThen.(code := afterThen.code[jumpOnFalse := JumpOnFalseInstruction(|afterThen.code|)]))
      else
        var jump := |afterThen.code|;
        var beforeElse := Emit(afterThen, [JumpInstruction(0)]);
        var patched := beforeElse.(code := beforeElse.code[jumpOnFalse := JumpOnFalseInstruction(jump + 1)]);
        var afterElse :- CompileStmt(alternate.value, patched);
        Success(afterElse.(code := afterElse.code[jump := JumpInstruction(|afterElse.code|)]))
    case WhileStmt(_, _) => Failure(NotImplemented)
    case VarStmt(vd) =>
      var c :- VarDeclCode(vd);
      Success(Emit(st, c))
    case RefStmt(_, _) => Failure(NoVisit("RefDeclarationStatement"))
    case FunctionStmt(fd) => CompileFunction(fd, st)
    case ReturnStmt(e) =>
      var c :- ExprCode(e);
      Success(Emit(st, c + [ReturnInstruction]))
    case ExprStmt(e) =>
      var c :- ExprCode(e);
      Success(Emit(st, c + [PopInstruction]))
    case AssignStmt(name, right) =>
      if right.None? then Success(st)
      else
        var c :- ExprCode(right.value);
        Success(Emit(st, c + [StoreVariableInstruction(name)]))
  }

  /** The visit of a block: its statements in order. */
  function CompileBlock(stmts: seq<Stmt>, st: CompilerState): (r: Result<CompilerState, CompileError>)
    ensures r.Success? ==> st.code <= r.value.code
    decreases stmts, 1
  {
    if stmts == [] then Success(st)
    else
      var next :- CompileStmt(stmts[0], st);
      CompileBlock(stmts[1..], next)
  }

  /** The visit of a function declaration: its address is recorded before anything else happens,
      then come the prologue, the body, the epilogue `LoadNumber 0; Return`, and StartAddress is
      set to the count after it. */
  function CompileFunction(fd: FunctionDecl, st: CompilerState): (r: Result<CompilerState, CompileError>)
    ensures r.Success? ==> st.code <= r.value.code
    decreases fd, 0
  {
    if fd.name in st.locations then Failure(DuplicateKey(fd.name))
    else if fd.params.None? then Failure(NullReference)
    else
      var entered := CompilerState(st.code + Prologue(fd.params.value), st.locations[fd.name := |st.code|], st.start);
      var body :- CompileBlock(fd.body, entered);
      var done := Emit(body, [LoadNumberInstruction(ZeroValue), ReturnInstruction]);
      Success(done.(start := |done.code|))
  }

  function CompileFunctions(fns: seq<FunctionDecl>, st: CompilerState): Result<CompilerState, CompileError> {
    if fns == [] then Success(st)
    else
      var next :- CompileFunction(fns[0], st);
      CompileFunctions(fns[1..], next)
  }

  function CompileVariables(vars: seq<VarDecl>, st: CompilerState): Result<CompilerState, CompileError> {
    if vars == [] then Success(st)
    else
      var c :- VarDeclCode(vars[0]);
      CompileVariables(vars[1..], Emit(st, c))
  }

  /** Visit(ProgramNode): every function declaration, then every top-level `var` declaration. */
  function CompileProgramNode(p: ProgramNode, st: CompilerState): Result<CompilerState, CompileError> {
    var afterFunctions :- CompileFunctions(p.functions, st);
    CompileVariables(p.variables, afterFunctions)
  }

  /** One instruction of the fix-up: a call gets its function's address minus one. */
  function ResolveCall(ins: Instruction, locations: map<string, int>): Result<Instruction, CompileError> {
    if !ins.CallInstruction? then Success(ins)
    else if ins.name in locations then Success(CallInstruction(ins.name, locations[ins.name] - 1))
    else Failure(KeyNotFound(ins.name))
  }

  /** The fix-up loop of Compile, front to back. */
  function Resolve(code: seq<Instruction>, locations: map<string, int>): Result<seq<Instruction>, CompileError>
    decreases |code|
  {
    if code == [] then Success([])
    else
      var head :- ResolveCall(code[0], locations);
      var tail :- Resolve(code[1..], locations);
      Success([head] + tail)
  }

  /** Compile: the visit of the program, then the fix-up of every call. */
  function CompileProgram(p: ProgramNode, st: CompilerState): Result<CompilerState, CompileError> {
    var visited :- CompileProgramNode(p, st);
    var code :- Resolve(visited.code, visited.locations);
    Success(visited.(code := code))
  }

  // ---------------------------------------------------------------------------------------------
  // Properties: expressions

  /** The expressions the compiler lowers: names, number literals, binary expressions and calls
      built from them. */
  predicate Compilable(e: Expr) {
    match e
    case Ident(_) => true
    case NumberLit(_) => true
    case Binary(_, left, right) => Compilable(left) && Compilable(right)
    case Call(_, args) => forall a | a in args :: Compilable(a)
    case _ => false
  }

  /** The instructions an expression can emit: no jump, return, pop, store or declaration. */
  predicate IsExpressionInstruction(ins: Instruction) {
    ins.AddInstruction? || ins.SubtractInstruction? || ins.MultiplyInstruction? || ins.DivideInstruction? ||
    ins.LessInstruction? || ins.LoadNumberInstruction? || ins.LoadVariableInstruction? || ins.CallInstruction?
  }

  /** The visit of an expression succeeds exactly on the compilable expressions, and then emits at
      least one instruction, all of them expression instructions. */
  lemma {:induction false} ExprCodeMeaning(e: Expr)
    ensures ExprCode(e).Success? <==> Compilable(e)
    ensures ExprCode(e).Success? ==>
              |ExprCode(e).value| > 0 && forall ins | ins in ExprCode(e).value :: IsExpressionInstruction(ins)
    decreases e, 1
  {
    match e
    case Binary(_, left, right) =>
      ExprCodeMeaning(left);
      ExprCodeMeaning(right);
    case Call(_, args) =>
      ArgumentsCodeMeaning(args);
    case _ =>
  }

  lemma {:induction false} ArgumentsCodeMeaning(args: seq<Expr>)
    ensures ArgumentsCode(args).Success? <==> forall a | a in args :: Compilable(a)
    ensures ArgumentsCode(args).Success? ==> forall ins | ins in ArgumentsCode(args).value :: IsExpressionInstruction(ins)
    decreases args, 0
  {
    if args != [] {
      ExprCodeMeaning(args[0]);
      ArgumentsCodeMeaning(args[1..]);
      assert forall a | a in args :: a == args[0] || a in args[1..];
    }
  }

  // ---------------------------------------------------------------------------------------------
  // Properties: jump targets and the function table

  predicate IsJump(ins: Instruction) {
    ins.JumpOnFalseInstruction? || ins.JumpInstruction?
  }

  predicate NoJumps(code: seq<Instruction>) {
    forall k | 0 <= k < |code| :: !IsJump(code[k])
  }

  /** Every jump at index `from` or later goes forward, to at most the end of the code. */
  predicate JumpsForward(code: seq<Instruction>, from: nat) {
    forall k | from <= k < |code| && IsJump(code[k]) :: k < code[k].jumpLocation <= |code|
  }

  /** `r` keeps every function address of `st`, and every address it adds lies in the code emitted
      since `st`. */
  predicate Grows(st: CompilerState, r: CompilerState) {
    (forall n | n in st.locations :: n in r.locations && r.locations[n] == st.locations[n]) &&
    (forall n | n in r.locations && n !in st.locations :: |st.code| <= r.locations[n] < |r.code|)
  }

  lemma ExprCodeHasNoJumps(e: Expr)
    requires ExprCode(e).Success?
    ensures NoJumps(ExprCode(e).value)
  {
    ExprCodeMeaning(e);
    var code := ExprCode(e).value;
    forall k | 0 <= k < |code| ensures !IsJump(code[k]) {
      assert code[k] in code;
    }
  }

  lemma VarDeclCodeHasNoJumps(vd: VarDecl)
    requires VarDeclCode(vd).Success?
    ensures NoJumps(VarDeclCode(vd).value)
  {
    if vd.initialValue.Some? {
      ExprCodeHasNoJumps(vd.initialValue.value);
    }
  }

  /** The prologue declares and stores the parameters from the last to the first. */
  lemma {:induction false} PrologueOrder(params: seq<VarDecl>)
    ensures |Prologue(params)| == 2 * |params|
    ensures forall k | 0 <= k < |params| ::
              Prologue(params)[2 * k] == NewVariableInstruction(params[|params| - 1 - k].name) &&
              Prologue(params)[2 * k + 1] == StoreVariableInstruction(params[|params| - 1 - k].name)
  {
    if params != [] {
      PrologueOrder(params[1..]);
    }
  }

  lemma PrologueHasNoJumps(params: seq<VarDecl>)
    ensures NoJumps(Prologue(params))
  {
    PrologueOrder(params);
    forall k | 0 <= k < |Prologue(params)| ensures !IsJump(Prologue(params)[k]) {
      assert k == 2 * (k / 2) || k == 2 * (k / 2) + 1;
    }
  }

  /** Appending code without jumps keeps the jumps of `code` from `from` on within range. */
  lemma EmitNoJumps(code: seq<Instruction>, more: seq<Instruction>, from: nat)
    requires from <= |code| && NoJumps(more)
    requires JumpsForward(code, from)
    ensures JumpsForward(code + more, from)
  {
  }

  /** Every jump a statement emits goes forward and stays within the code, and the function table
      only grows. */
  lemma {:induction false} StmtWellFormed(s: Stmt, st: CompilerState)
    ensures CompileStmt(s, st).Success? ==>
              JumpsForward(CompileStmt(s, st).value.code, |st.code|) && Grows(st, CompileStmt(s, st).value)
    decreases s, 2
  {
    if CompileStmt(s, st).Success? {
      var r := CompileStmt(s, st).value;
      match s
      case Block(stmts) =>
        BlockWellFormed(stmts, st);
      case IfStmt(_, _, alternate) =>
        if alternate.None? {
          IfWellFormed(s, st);
        } else {
          IfElseWellFormed(s, st);
        }
      case VarStmt(vd) =>
        VarDeclCodeHasNoJumps(vd);
        EmitNoJumps(st.code, VarDeclCode(vd).value, |st.code|);
      case FunctionStmt(fd) =>
        FunctionWellFormed(fd, st);
      case ReturnStmt(e) =>
        ExprCodeHasNoJumps(e);
        EmitNoJumps(st.code, ExprCode(e).value + [ReturnInstruction], |st.code|);
      case ExprStmt(e) =>
        ExprCodeHasNoJumps(e);
        EmitNoJumps(st.code, ExprCode(e).value + [PopInstruction], |st.code|);
      case AssignStmt(name, right) =>
        if right.Some? {
          ExprCodeHasNoJumps(right.value);
          EmitNoJumps(st.code, ExprCode(right.value).value + [StoreVariableInstruction(name)], |st.code|);
        }
    }
  }

  /** The jumps of an `if` without `else`: the JumpOnFalse goes to the end of the consequent. */
  lemma {:induction false} IfWellFormed(s: Stmt, st: CompilerState)
    requires s.IfStmt? && s.alternate.None?
    ensures CompileStmt(s, st).Success? ==>
              JumpsForward(CompileStmt(s, st).value.code, |st.code|) && Grows(st, CompileStmt(s, st).value)
    decreases s, 1
  {
    if CompileStmt(s, st).Success? {
      var r := CompileStmt(s, st).value;
      var cond := ExprCode(s.condition).value;
      ExprCodeHasNoJumps(s.condition);
      var jumpOnFalse := |st.code| + |cond|;
      var entered := Emit(st, cond + [JumpOnFalseInstruction(0)]);
      var afterThen := CompileStmt(s.consequent, entered).value;
      StmtWellFormed(s.consequent, entered);
      assert r.code == afterThen.code[jumpOnFalse := JumpOnFalseInstruction(|afterThen.code|)];
      forall k | |st.code| <= k < |r.code| && IsJump(r.code[k])
        ensures k < r.code[k].jumpLocation <= |r.code|
      {
      }
    }
  }

  /** The jumps of an `if` with `else`: the JumpOnFalse goes just past the Jump that ends the
      consequent, and that Jump goes to the end of the alternate. */
  lemma {:induction false} IfElseWellFormed(s: Stmt, st: CompilerState)
    requires s.IfStmt? && s.alternate.Some?
    ensures CompileStmt(s, st).Success? ==>
              JumpsForward(CompileStmt(s, st).value.code, |st.code|) && Grows(st, CompileStmt(s, st).value)
    decreases s, 1
  {
    if CompileStmt(s, st).Success? {
      var r := CompileStmt(s, st).value;
      var cond := ExprCode(s.condition).value;
      ExprCodeHasNoJumps(s.condition);
      var jumpOnFalse := |st.code| + |cond|;
      var entered := Emit(st, cond + [JumpOnFalseInstruction(0)]);
      var afterThen := CompileStmt(s.consequent, entered).value;
      StmtWellFormed(s.consequent, entered);
      var jump := |afterThen.code|;
      var beforeElse := Emit(afterThen, [JumpInstruction(0)]);
      var patched := beforeElse.(code := beforeElse.code[jumpOnFalse := JumpOnFalseInstruction(jump + 1)]);
      var afterElse := CompileStmt(s.alternate.value, patched).value;
      StmtWellFormed(s.alternate.value, patched);
      assert r.code == afterElse.code[jump := JumpInstruction(|afterElse.code|)];
      forall k | |st.code| <= k < |r.code| && IsJump(r.code[k])
        ensures k < r.code[k].jumpLocation <= |r.code|
      {
        if k < jump {
          assert afterElse.code[..|patched.code|][k] == patched.code[k];
        }
        if jumpOnFalse < k < jump {
          assert patched.code[k] == afterThen.code[k];
        }
      }
    }
  }

  lemma {:induction false} BlockWellFormed(stmts: seq<Stmt>, st: CompilerState)
    ensures CompileBlock(stmts, st).Success? ==>
              JumpsForward(CompileBlock(stmts, st).value.code, |st.code|) && Grows(st, CompileBlock(stmts, st).value)
    decreases stmts, 1
  {
    if stmts != [] && CompileBlock(stmts, st).Success? {
      var next := CompileStmt(stmts[0], st).value;
      StmtWellFormed(stmts[0], st);
      BlockWellFormed(stmts[1..], next);
      var r := CompileBlock(stmts, st).value;
      assert r.code[..|next.code|] == next.code;
    }
  }

  lemma {:induction false} FunctionWellFormed(fd: FunctionDecl, st: CompilerState)
    ensures CompileFunction(fd, st).Success? ==>
              JumpsForward(CompileFunction(fd, st).value.code, |st.code|) && Grows(st, CompileFunction(fd, st).value)
    decreases fd, 0
  {
    if CompileFunction(fd, st).Success? {
      var entered := CompilerState(st.code + Prologue(fd.params.value), st.locations[fd.name := |st.code|], st.start);
      var body := CompileBlock(fd.body, entered).value;
      BlockWellFormed(fd.body, entered);
      PrologueHasNoJumps(fd.params.value);
      assert body.code[..|entered.code|] == entered.code;
      EmitNoJumps(body.code, [LoadNumberInstruction(ZeroValue), ReturnInstruction], |entered.code|);
      var r := CompileFunction(fd, st).value;
    }
  }

  // ---------------------------------------------------------------------------------------------
  // Properties: layout of statements, functions and programs

  /** The code an `if` has emitted when its consequent is done: the prefix, the condition, the
      JumpOnFalse still aimed at 0, then the consequent. */
  /** The visit of an `if`, one exit at a time: the condition fails, the consequent fails, the
      `if` without `else` ends, the alternate fails, the `if` with `else` ends. */
  lemma IfConditionFails(s: Stmt, st: CompilerState)
    requires s.IfStmt? && ExprCode(s.condition).Failure?
    ensures CompileStmt(s, st) == Failure(ExprCode(s.condition).error)
  {
  }

  lemma IfConsequentFails(s: Stmt, st: CompilerState)
    requires s.IfStmt? && ExprCode(s.condition).Success?
    requires CompileStmt(s.consequent, Emit(st, ExprCode(s.condition).value + [JumpOnFalseInstruction(0)])).Failure?
    ensures CompileStmt(s, st) ==
            Failure(CompileStmt(s.consequent, Emit(st, ExprCode(s.condition).value + [JumpOnFalseInstruction(0)])).error)
  {
  }

  lemma IfWithoutElseEnds(condition: Expr, consequent: Stmt, st: CompilerState, afterThen: CompilerState)
    requires ExprCode(condition).Success?
    requires CompileStmt(consequent, Emit(st, ExprCode(condition).value + [JumpOnFalseInstruction(0)])) == Success(afterThen)
    requires |st.code| + |ExprCode(condition).value| < |afterThen.code|
    ensures CompileStmt(IfStmt(condition, consequent, None), st) ==
            Success(afterThen.(code := afterThen.code[|st.code| + |ExprCode(condition).value| := JumpOnFalseInstruction(|afterThen.code|)]))
  {
  }

  /** The state the alternate is visited from: a Jump placeholder appended and the JumpOnFalse
      patched to the instruction after it. */
  function BeforeElse(afterThen: CompilerState, jumpOnFalse: nat): CompilerState
    requires jumpOnFalse < |afterThen.code|
  {
    var beforeElse := Emit(afterThen, [JumpInstruction(0)]);
    beforeElse.(code := beforeElse.code[jumpOnFalse := JumpOnFalseInstruction(|afterThen.code| + 1)])
  }

  lemma IfAlternateFails(s: Stmt, st: CompilerState, afterThen: CompilerState)
    requires s.IfStmt? && s.alternate.Some? && ExprCode(s.condition).Success?
    requires CompileStmt(s.consequent, Emit(st, ExprCode(s.condition).value + [JumpOnFalseInstruction(0)])) == Success(afterThen)
    requires |st.code| + |ExprCode(s.condition).value| < |afterThen.code|
    requires CompileStmt(s.alternate.value, BeforeElse(afterThen, |st.code| + |ExprCode(s.condition).value|)).Failure?
    ensures CompileStmt(s, st) ==
            Failure(CompileStmt(s.alternate.value, BeforeElse(afterThen, |st.code| + |ExprCode(s.condition).value|)).error)
  {
  }

  lemma IfWithElseEnds(s: Stmt, st: CompilerState, afterThen: CompilerState, afterElse: CompilerState)
    requires s.IfStmt? && s.alternate.Some? && ExprCode(s.condition).Success?
    requires CompileStmt(s.consequent, Emit(st, ExprCode(s.condition).value + [JumpOnFalseInstruction(0)])) == Success(afterThen)
    requires |st.code| + |ExprCode(s.condition).value| < |afterThen.code|
    requires CompileStmt(s.alternate.value, BeforeElse(afterThen, |st.code| + |ExprCode(s.condition).value|)) == Success(afterElse)
    ensures |afterThen.code| < |afterElse.code|
    ensures CompileStmt(s, st) == Success(afterElse.(code := afterElse.code[|afterThen.code| := JumpInstruction(|afterElse.code|)]))
  {
  }

  lemma IfEntered(condition: Expr, consequent: Stmt, alternate: Option<Stmt>, st: CompilerState)
    requires CompileStmt(IfStmt(condition, consequent, alternate), st).Success?
    ensures ExprCode(condition).Success?
    ensures var cond := ExprCode(condition).value;
            var entered := Emit(st, cond + [JumpOnFalseInstruction(0)]);
            CompileStmt(consequent, entered).Success? &&
            CompileStmt(consequent, entered).value.code[..|entered.code|] == st.code + cond + [JumpOnFalseInstruction(0)]
  {
    var cond := ExprCode(condition).value;
    var entered := Emit(st, cond + [JumpOnFalseInstruction(0)]);
    var afterThen := CompileStmt(consequent, entered).value;
    assert afterThen.code[..|entered.code|] == entered.code;
  }

  /** Where an `if` without `else` puts its parts: the prefix is kept, the condition follows, then
      the JumpOnFalse, which goes to the end of the consequent, the end of the code. */
  lemma IfLayout(condition: Expr, consequent: Stmt, st: CompilerState) returns (jumpOnFalse: nat)
    requires CompileStmt(IfStmt(condition, consequent, None), st).Success?
    ensures var r := CompileStmt(IfStmt(condition, consequent, None), st).value;
            ExprCode(condition).Success? && jumpOnFalse == |st.code| + |ExprCode(condition).value| &&
            jumpOnFalse < |r.code| &&
            r.code[..|st.code|] == st.code &&
            r.code[|st.code|..jumpOnFalse] == ExprCode(condition).value &&
            r.code[jumpOnFalse] == JumpOnFalseInstruction(|r.code|)
  {
    IfEntered(condition, consequent, None, st);
    var r := CompileStmt(IfStmt(condition, consequent, None), st).value;
    var cond := ExprCode(condition).value;
    jumpOnFalse := |st.code| + |cond|;
    var entered := Emit(st, cond + [JumpOnFalseInstruction(0)]);
    var afterThen := CompileStmt(consequent, entered).value;
    assert r.code == afterThen.code[jumpOnFalse := JumpOnFalseInstruction(|afterThen.code|)];
    assert r.code[..jumpOnFalse + 1] == st.code + cond + [JumpOnFalseInstruction(|r.code|)];
  }

  /** The states an `if` with `else` passes through: after the consequent, then after the
      alternate, which is visited with the JumpOnFalse pointed just past the Jump. */
  lemma IfElseSteps(condition: Expr, consequent: Stmt, alternate: Stmt, st: CompilerState)
      returns (afterThen: CompilerState, afterElse: CompilerState)
    requires CompileStmt(IfStmt(condition, consequent, Some(alternate)), st).Success?
    ensures ExprCode(condition).Success?
    ensures var cond := ExprCode(condition).value;
            CompileStmt(consequent, Emit(st, cond + [JumpOnFalseInstruction(0)])) == Success(afterThen) &&
            var beforeElse := Emit(afterThen, [JumpInstruction(0)]);
            CompileStmt(alternate, beforeElse.(code := beforeElse.code[|st.code| + |cond| := JumpOnFalseInstruction(|afterThen.code| + 1)]))
              == Success(afterElse)
    ensures CompileStmt(IfStmt(condition, consequent, Some(alternate)), st).value.code
              == afterElse.code[|afterThen.code| := JumpInstruction(|afterElse.code|)]
  {
    var cond := ExprCode(condition).value;
    afterThen := CompileStmt(consequent, Emit(st, cond + [JumpOnFalseInstruction(0)])).value;
    var beforeElse := Emit(afterThen, [JumpInstruction(0)]);
    afterElse := CompileStmt(alternate, beforeElse.(code := beforeElse.code[|st.code| + |cond| := JumpOnFalseInstruction(|afterThen.code| + 1)])).value;
    assert CompileStmt(IfStmt(condition, consequent, Some(alternate)), st)
             == Success(afterElse.(code := afterElse.code[|afterThen.code| := JumpInstruction(|afterElse.code|)]));
  }

  /** The two patches of an `if` with `else`, on the code alone: `t` is the code after the
      consequent, which starts with the prefix `pre`, the condition `cond` and a JumpOnFalse, and
      `a` the code after the alternate. */
  lemma ElsePatches(pre: seq<Instruction>, cond: seq<Instruction>, t: seq<Instruction>, a: seq<Instruction>)
    requires |pre| + |cond| < |t| && t[..|pre| + |cond| + 1] == pre + cond + [JumpOnFalseInstruction(0)]
    requires (t + [JumpInstruction(0)])[|pre| + |cond| := JumpOnFalseInstruction(|t| + 1)] <= a
    ensures var r := a[|t| := JumpInstruction(|a|)];
            |t| < |r| && r[..|pre|] == pre && r[|pre|..|pre| + |cond|] == cond &&
            r[|pre| + |cond|] == JumpOnFalseInstruction(|t| + 1) && r[|t|] == JumpInstruction(|r|)
  {
    var r := a[|t| := JumpInstruction(|a|)];
    var jumpOnFalse := |pre| + |cond|;
    assert r[..jumpOnFalse] == t[..jumpOnFalse] == pre + cond by {
      assert t[..jumpOnFalse] == t[..jumpOnFalse + 1][..jumpOnFalse];
    }
  }

  /** Where an `if` with `else` puts its parts: the prefix and the condition as without `else`;
      the JumpOnFalse goes just past the Jump that ends the consequent, and that Jump goes to the
      end of the alternate. */
  lemma IfElseLayout(condition: Expr, consequent: Stmt, alternate: Stmt, st: CompilerState)
      returns (jumpOnFalse: nat, jump: nat)
    requires CompileStmt(IfStmt(condition, consequent, Some(alternate)), st).Success?
    ensures var r := CompileStmt(IfStmt(condition, consequent, Some(alternate)), st).value;
            ExprCode(condition).Success? && jumpOnFalse == |st.code| + |ExprCode(condition).value| &&
            jumpOnFalse < jump < |r.code| &&
            r.code[..|st.code|] == st.code &&
            r.code[|st.code|..jumpOnFalse] == ExprCode(condition).value &&
            r.code[jumpOnFalse] == JumpOnFalseInstruction(jump + 1) &&
            r.code[jump] == JumpInstruction(|r.code|)
  {
    IfEntered(condition, consequent, Some(alternate), st);
    var afterThen, afterElse := IfElseSteps(condition, consequent, alternate, st);
    var cond := ExprCode(condition).value;
    jumpOnFalse := |st.code| + |cond|;
    jump := |afterThen.code|;
    ElsePatches(st.code, cond, afterThen.code, afterElse.code);
  }

  /** A function declaration: a name already in the table fails first, a null parameter list
      next; otherwise the function's address is the count on entry, the prologue comes there, the
      code ends with the epilogue, and StartAddress is the count after it. */
  lemma FunctionLayout(fd: FunctionDecl, st: CompilerState)
    ensures fd.name in st.locations ==> CompileFunction(fd, st) == Failure(DuplicateKey(fd.name))
    ensures fd.name !in st.locations && fd.params.None? ==> CompileFunction(fd, st) == Failure(NullReference)
    ensures CompileFunction(fd, st).Success? ==>
              var r := CompileFunction(fd, st).value;
              var n := |Prologue(fd.params.value)|;
              fd.name !in st.locations && fd.params.Some? && n == 2 * |fd.params.value| &&
              fd.name in r.locations && r.locations[fd.name] == |st.code| &&
              |st.code| + n + 2 <= |r.code| &&
              r.code[..|st.code|] == st.code &&
              r.code[|st.code|..|st.code| + n] == Prologue(fd.params.value) &&
              r.code[|r.code| - 2..] == [LoadNumberInstruction(ZeroValue), ReturnInstruction] &&
              r.start == |r.code|
  {
    if CompileFunction(fd, st).Success? {
      var entered := CompilerState(st.code + Prologue(fd.params.value), st.locations[fd.name := |st.code|], st.start);
      var body := CompileBlock(fd.body, entered).value;
      PrologueOrder(fd.params.value);
      BlockWellFormed(fd.body, entered);
      assert body.code[..|entered.code|] == entered.code;
      var r := CompileFunction(fd, st).value;
      assert r.code == body.code + [LoadNumberInstruction(ZeroValue), ReturnInstruction];
      assert r.code[..|entered.code|] == entered.code;
    }
  }

  /** The functions of a program in order; StartAddress ends as the count after the last one, and
      stays as it was when there is none. */
  lemma {:induction false} FunctionsWellFormed(fns: seq<FunctionDecl>, st: CompilerState)
    ensures CompileFunctions(fns, st).Success? ==>
              var r := CompileFunctions(fns, st).value;
              st.code <= r.code && JumpsForward(r.code, |st.code|) && Grows(st, r) &&
              r.start == (if fns == [] then st.start else |r.code|)
  {
    if fns != [] && CompileFunctions(fns, st).Success? {
      var next := CompileFunction(fns[0], st).value;
      FunctionWellFormed(fns[0], st);
      FunctionsWellFormed(fns[1..], next);
      var r := CompileFunctions(fns, st).value;
      assert r.code[..|next.code|] == next.code;
      assert r.code[..|st.code|] == next.code[..|st.code|];
    }
  }

  /** The code of the top-level `var` declarations, one after the other. */
  function VariablesCode(vars: seq<VarDecl>): Result<seq<Instruction>, CompileError> {
    if vars == [] then Success([])
    else
      var c :- VarDeclCode(vars[0]);
      Prepend(c, VariablesCode(vars[1..]))
  }

  /** The `var` declarations of a program only append their code, whatever precedes them. */
  lemma {:induction false} VariablesAppend(vars: seq<VarDecl>, st: CompilerState)
    ensures VariablesCode(vars).Success? <==> CompileVariables(vars, st).Success?
    ensures VariablesCode(vars).Success? ==> CompileVariables(vars, st) == Success(Emit(st, VariablesCode(vars).value))
    ensures VariablesCode(vars).Failure? ==> CompileVariables(vars, st) == Failure(VariablesCode(vars).error)
    ensures VariablesCode(vars).Success? ==> NoJumps(VariablesCode(vars).value)
  {
    if vars != [] && VarDeclCode(vars[0]).Success? {
      var c := VarDeclCode(vars[0]).value;
      VarDeclCodeHasNoJumps(vars[0]);
      VariablesAppend(vars[1..], Emit(st, c));
      if VariablesCode(vars[1..]).Success? {
        assert st.code + c + VariablesCode(vars[1..]).value == st.code + (c + VariablesCode(vars[1..]).value);
      } else {
        assert VariablesCode(vars) == Failure(VariablesCode(vars[1..]).error);
      }
    } else if vars == [] {
      assert st.code + [] == st.code;
    }
  }

  /** A program's code is the code of all its functions followed by that of all its top-level
      `var` declarations; the function table and StartAddress are those after the functions. */
  lemma ProgramLayout(p: ProgramNode, st: CompilerState)
    requires CompileProgramNode(p, st).Success?
    ensures CompileFunctions(p.functions, st).Success? && VariablesCode(p.variables).Success?
    ensures var f := CompileFunctions(p.functions, st).value;
            var r := CompileProgramNode(p, st).value;
            r.code == f.code + VariablesCode(p.variables).value && r.locations == f.locations && r.start == f.start
  {
    VariablesAppend(p.variables, CompileFunctions(p.functions, st).value);
  }

  // ---------------------------------------------------------------------------------------------
  // Properties: the call fix-up

  /** The fix-up succeeds exactly when every call names a function in the table. It then changes
      only the call instructions, each getting its function's address minus one; otherwise it
      fails with the first call whose name is missing. */
  lemma {:induction false} ResolveMeaning(code: seq<Instruction>, locations: map<string, int>)
    ensures Resolve(code, locations).Success? <==>
              forall k | 0 <= k < |code| && code[k].CallInstruction? :: code[k].name in locations
    ensures Resolve(code, locations).Success? ==>
              var r := Resolve(code, locations).value;
              |r| == |code| &&
              forall k | 0 <= k < |code| ::
                r[k] == if code[k].CallInstruction? then CallInstruction(code[k].name, locations[code[k].name] - 1) else code[k]
    ensures Resolve(code, locations).Failure? ==>
              exists k | 0 <= k < |code| ::
                code[k].CallInstruction? && code[k].name !in locations &&
                Resolve(code, locations).error == KeyNotFound(code[k].name) &&
                forall j | 0 <= j < k && code[j].CallInstruction? :: code[j].name in locations
    decreases |code|
  {
    if code != [] {
      ResolveMeaning(code[1..], locations);
      if ResolveCall(code[0], locations).Failure? {
        assert code[0].CallInstruction? && code[0].name !in locations;
      } else if Resolve(code[1..], locations).Failure? {
        var k :| 0 <= k < |code[1..]| && code[1..][k].CallInstruction? && code[1..][k].name !in locations &&
                 Resolve(code[1..], locations).error == KeyNotFound(code[1..][k].name) &&
                 forall j | 0 <= j < k && code[1..][j].CallInstruction? :: code[1..][j].name in locations;
        assert code[k + 1] == code[1..][k];
        forall j | 0 <= j < k + 1 && code[j].CallInstruction? ensures code[j].name in locations {
          if j > 0 {
            assert code[j] == code[1..][j - 1];
          }
        }
      } else {
        forall k | 0 <= k < |code| && code[k].CallInstruction? ensures code[k].name in locations {
          if k > 0 {
            assert code[k] == code[1..][k - 1];
          }
        }
      }
    }
  }

  /** What Compile leaves for a program given to a new compiler: every jump goes forward within
      the code, every recorded address is an instruction of it, every call instruction targets the
      address just before its function, and StartAddress is the count after the last function
      (0 without functions), with the top-level `var` code after it. */
  lemma CompiledProgram(p: ProgramNode)
    requires CompileProgram(p, Initial).Success?
    ensures var r := CompileProgram(p, Initial).value;
            VariablesCode(p.variables).Success? &&
            JumpsForward(r.code, 0) &&
            (forall n | n in r.locations :: 0 <= r.locations[n] < |r.code|) &&
            (forall k | 0 <= k < |r.code| && r.code[k].CallInstruction? ::
               r.code[k].name in r.locations && r.code[k].location == r.locations[r.code[k].name] - 1) &&
            r.start == (if p.functions == [] then 0 else |r.code| - |VariablesCode(p.variables).value|)
  {
    var visited := CompileProgramNode(p, Initial).value;
    ProgramLayout(p, Initial);
    var f := CompileFunctions(p.functions, Initial).value;
    FunctionsWellFormed(p.functions, Initial);
    VariablesAppend(p.variables, f);
    EmitNoJumps(f.code, VariablesCode(p.variables).value, 0);
    ResolveMeaning(visited.code, visited.locations);
    var r := CompileProgram(p, Initial).value;
    forall k | 0 <= k < |r.code| && IsJump(r.code[k]) ensures k < r.code[k].jumpLocation <= |r.code| {
      assert r.code[k] == visited.code[k];
    }
  }

  // ---------------------------------------------------------------------------------------------
  // The imperative compiler

  class Compiler {
    var functionLocations: map<string, int>
    var instructions: seq<Instruction>
    var startAddress: int

    function State(): CompilerState
      reads this
    {
      CompilerState(instructions, functionLocations, startAddress)
    }

    constructor ()
      ensures State() == Initial
    {
      instructions, functionLocations, startAddress := [], map[], 0;
    }

    method Compile(program: ProgramNode) returns (thrown: Option<CompileError>)
      modifies this
      ensures thrown.None? ==> CompileProgram(program, old(State())) == Success(State())
      ensures thrown.Some? ==> CompileProgram(program, old(State())) == Failure(thrown.value)
    {
      thrown := VisitProgram(program);
      if thrown.Some? {
        return;
      }
      ghost var visited := State();
      var k := 0;
      assert instructions[k..] == instructions;
      PrependNothing(Resolve(instructions, functionLocations));
      while k < |instructions|
        invariant k <= |instructions| == |visited.code|
        invariant functionLocations == visited.locations && startAddress == visited.start
        invariant Resolve(visited.code, functionLocations) ==
                    Prepend(instructions[..k], Resolve(instructions[k..], functionLocations))
      {
        var ins := instructions[k];
        ghost var before := instructions;
        assert before[k..][1..] == before[k + 1..];
        if ins.CallInstruction? {
          if ins.name !in functionLocations {
            return Some(KeyNotFound(ins.name));
          }
          instructions := instructions[k := CallInstruction(ins.name, functionLocations[ins.name] - 1)];
        }
        assert instructions[..k + 1] == before[..k] + [instructions[k]];
        assert instructions[k + 1..] == before[k + 1..];
        assert Resolve(before[k..], functionLocations) == Prepend([instructions[k]], Resolve(before[k + 1..], functionLocations));
        PrependTwice(before[..k], [instructions[k]], Resolve(before[k + 1..], functionLocations));
        k := k + 1;
      }
      assert instructions[k..] == [];
      assert instructions[..k] + [] == instructions;
    }

    method VisitProgram(program: ProgramNode) returns (thrown: Option<CompileError>)
      modifies this
      ensures thrown.None? ==> CompileProgramNode(program, old(State())) == Success(State())
      ensures thrown.Some? ==> CompileProgramNode(program, old(State())) == Failure(thrown.value)
    {
      var fns := program.functions;
      var i := 0;
      while i < |fns|
        invariant i <= |fns|
        invariant CompileFunctions(fns, old(State())) == CompileFunctions(fns[i..], State())
      {
        assert fns[i..][1..] == fns[i + 1..];
        thrown := VisitFunction(fns[i]);
        if thrown.Some? {
          return;
        }
        i := i + 1;
      }
      var vars := program.variables;
      ghost var afterFunctions := State();
      var j := 0;
      while j < |vars|
        invariant j <= |vars|
        invariant CompileVariables(vars, afterFunctions) == CompileVariables(vars[j..], State())
      {
        assert vars[j..][1..] == vars[j + 1..];
        thrown := VisitVarDecl(vars[j]);
        if thrown.Some? {
          return;
        }
        j := j + 1;
      }
      thrown := None;
    }

    method VisitVarDecl(vd: VarDecl) returns (thrown: Option<CompileError>)
      modifies this
      ensures functionLocations == old(functionLocations) && startAddress == old(startAddress)
      ensures thrown.None? ==> VarDeclCode(vd).Success? && instructions == old(instructions) + VarDeclCode(vd).value
      ensures thrown.Some? ==> VarDeclCode(vd) == Failure(thrown.value)
    {
      instructions := instructions + [NewVariableInstruction(vd.name)];
      thrown := None;
      if vd.initialValue.Some? {
        ghost var before := instructions;
        thrown := VisitExpr(vd.initialValue.value);
        if thrown.Some? {
          return;
        }
        instructions := instructions + [StoreVariableInstruction(vd.name)];
        assert instructions == old(instructions) +
               ([NewVariableInstruction(vd.name)] + ExprCode(vd.initialValue.value).value + [StoreVariableInstruction(vd.name)]);
      }
    }

    method VisitFunction(fd: FunctionDecl) returns (thrown: Option<CompileError>)
      modifies this
      ensures thrown.None? ==> CompileFunction(fd, old(State())) == Success(State())
      ensures thrown.Some? ==> CompileFunction(fd, old(State())) == Failure(thrown.value)
      decreases fd, 0
    {
      if fd.name in functionLocations {
        return Some(DuplicateKey(fd.name));
      }
      functionLocations := functionLocations[fd.name := |instructions|];
      if fd.params.None? {
        return Some(NullReference);
      }
      ghost var base := instructions;
      EmitPrologue(fd.params.value);
      ghost var entered := CompilerState(base + Prologue(fd.params.value), old(functionLocations)[fd.name := |base|], old(startAddress));
      assert State() == entered;
      thrown := VisitBlock(fd.body);
      if thrown.Some? {
        return;
      }
      ghost var body := State();
      instructions := instructions + [LoadNumberInstruction(ZeroValue), ReturnInstruction];
      startAddress := |instructions|;
      assert State() == Emit(body, [LoadNumberInstruction(ZeroValue), ReturnInstruction]).(start := |instructions|);
    }

    /** The parameter loop of Visit(FunctionDeclarationStatement): from the last parameter to the
        first, NewVariable and Store. */
    method EmitPrologue(params: seq<VarDecl>)
      modifies this
      ensures instructions == old(instructions) + Prologue(params)
      ensures functionLocations == old(functionLocations) && startAddress == old(startAddress)
    {
      var i := |params| - 1;
      while i >= 0
        invariant -1 <= i < |params|
        invariant instructions == old(instructions) + Prologue(params[i + 1..])
        invariant functionLocations == old(functionLocations) && startAddress == old(startAddress)
      {
        var pair := [NewVariableInstruction(params[i].name), StoreVariableInstruction(params[i].name)];
        assert params[i..][1..] == params[i + 1..];
        assert Prologue(params[i..]) == Prologue(params[i + 1..]) + pair;
        instructions := instructions + pair;
        i := i - 1;
      }
      assert params[0..] == params;
    }

    method VisitBlock(stmts: seq<Stmt>) returns (thrown: Option<CompileError>)
      modifies this
      ensures thrown.None? ==> CompileBlock(stmts, old(State())) == Success(State())
      ensures thrown.Some? ==> CompileBlock(stmts, old(State())) == Failure(thrown.value)
      decreases stmts, 1
    {
      var i := 0;
      while i < |stmts|
        invariant i <= |stmts|
        invariant CompileBlock(stmts, old(State())) == CompileBlock(stmts[i..], State())
      {
        assert stmts[i..][1..] == stmts[i + 1..];
        thrown := VisitStmt(stmts[i]);
        if thrown.Some? {
          return;
        }
        i := i + 1;
      }
      thrown := None;
    }

    method VisitStmt(s: Stmt) returns (thrown: Option<CompileError>)
      modifies this
      ensures thrown.None? ==> CompileStmt(s, old(State())) == Success(State())
      ensures thrown.Some? ==> CompileStmt(s, old(State())) == Failure(thrown.value)
      decreases s, 2
    {
      match s
      case Block(stmts) =>
        thrown := VisitBlock(stmts);
      case IfStmt(_, _, _) =>
        thrown := VisitIf(s);
      case WhileStmt(_, _) =>
        thrown := Some(NotImplemented);
      case VarStmt(vd) =>
        thrown := VisitVarDecl(vd);
      case RefStmt(_, _) =>
        thrown := Some(NoVisit("RefDeclarationStatement"));
      case FunctionStmt(fd) =>
        thrown := VisitFunction(fd);
      case ReturnStmt(e) =>
        thrown := VisitExpr(e);
        if thrown.None? {
          instructions := instructions + [ReturnInstruction];
          assert instructions == old(instructions) + (ExprCode(e).value + [ReturnInstruction]);
        }
      case ExprStmt(e) =>
        thrown := VisitExpr(e);
        if thrown.None? {
          instructions := instructions + [PopInstruction];
          assert instructions == old(instructions) + (ExprCode(e).value + [PopInstruction]);
        }
      case AssignStmt(name, right) =>
        thrown := None;
        if right.Some? {
          thrown := VisitExpr(right.value);
          if thrown.None? {
            instructions := instructions + [StoreVariableInstruction(name)];
            assert instructions == old(instructions) + (ExprCode(right.value).value + [StoreVariableInstruction(name)]);
          }
        }
    }

    /** Visit(IfStatement): the condition, a JumpOnFalse patched once the consequent is done, and
        with an `else` a Jump over the alternate, patched after it. */
    method VisitIf(s: Stmt) returns (thrown: Option<CompileError>)
      requires s.IfStmt?
      modifies this
      ensures thrown.None? ==> CompileStmt(s, old(State())) == Success(State())
      ensures thrown.Some? ==> CompileStmt(s, old(State())) == Failure(thrown.value)
      decreases s, 1
    {
      ghost var start := State();
      thrown := VisitExpr(s.condition);
      if thrown.Some? {
        IfConditionFails(s, start);
        return;
      }
      var jumpOnFalse := |instructions|;
      instructions := instructions + [JumpOnFalseInstruction(0)];
      assert State() == Emit(start, ExprCode(s.condition).value + [JumpOnFalseInstruction(0)]);
      thrown := VisitStmt(s.consequent);
      if thrown.Some? {
        IfConsequentFails(s, start);
        return;
      }
      ghost var afterThen := State();
      assert jumpOnFalse == |start.code| + |ExprCode(s.condition).value| < |afterThen.code|;
      var jump := |instructions|;
      if s.alternate.Some? {
        instructions := instructions + [JumpInstruction(0)];
      }
      instructions := instructions[jumpOnFalse := JumpOnFalseInstruction(|instructions|)];
      if s.alternate.Some? {
        assert State() == BeforeElse(afterThen, jumpOnFalse);
        thrown := VisitStmt(s.alternate.value);
        if thrown.Some? {
          IfAlternateFails(s, start, afterThen);
          return;
        }
        IfWithElseEnds(s, start, afterThen, State());
        instructions := instructions[jump := JumpInstruction(|instructions|)];
      } else {
        assert s == IfStmt(s.condition, s.consequent, None);
        IfWithoutElseEnds(s.condition, s.consequent, start, afterThen);
      }
    }

    method VisitExpr(e: Expr) returns (thrown: Option<CompileError>)
      modifies this
      ensures functionLocations == old(functionLocations) && startAddress == old(startAddress)
      ensures thrown.None? ==> ExprCode(e).Success? && instructions == old(instructions) + ExprCode(e).value
      ensures thrown.Some? ==> ExprCode(e) == Failure(thrown.value)
      decreases e, 1
    {
      thrown := None;
      match e
      case Ident(name) =>
        instructions := instructions + [LoadVariableInstruction(name)];
      case NumberLit(text) =>
        instructions := instructions + [LoadNumberInstruction(Literal(text))];
      case Binary(_, _, _) =>
        thrown := VisitBinary(e);
      case Call(_, _) =>
        thrown := VisitCall(e);
      case Unary(_, _) =>
        thrown := Some(NotImplemented);
      case Index(_, _) =>
        thrown := Some(NoVisit("ArrayIndexExpression"));
      case BoolLit(_) =>
        thrown := Some(NoVisit("BoolLiteralExpression"));
      case StringLit(_) =>
        thrown := Some(NoVisit("StringLiteralExpression"));
      case Assign(_, _) =>
        thrown := Some(NoVisit("AssignmentExpression"));
    }

    /** Visit(BinaryExpression): both operands, then the operator's instruction. */
    method VisitBinary(e: Expr) returns (thrown: Option<CompileError>)
      requires e.Binary?
      modifies this
      ensures functionLocations == old(functionLocations) && startAddress == old(startAddress)
      ensures thrown.None? ==> ExprCode(e).Success? && instructions == old(instructions) + ExprCode(e).value
      ensures thrown.Some? ==> ExprCode(e) == Failure(thrown.value)
      decreases e, 0
    {
      thrown := VisitExpr(e.left);
      if thrown.Some? {
        return;
      }
      thrown := VisitExpr(e.right);
      if thrown.Some? {
        return;
      }
      instructions := instructions + ArithmeticInstruction(e.op);
      assert instructions == old(instructions) + (ExprCode(e.left).value + ExprCode(e.right).value + ArithmeticInstruction(e.op));
    }

    /** Visit(FunctionCallExpression): every argument left to right, then the call, whose
        address is filled in by the fix-up. */
    method VisitCall(e: Expr) returns (thrown: Option<CompileError>)
      requires e.Call?
      modifies this
      ensures functionLocations == old(functionLocations) && startAddress == old(startAddress)
      ensures thrown.None? ==> ExprCode(e).Success? && instructions == old(instructions) + ExprCode(e).value
      ensures thrown.Some? ==> ExprCode(e) == Failure(thrown.value)
      decreases e, 0
    {
      var args := e.args;
      thrown := None;
      ghost var emitted: seq<Instruction> := [];
      var i := 0;
      assert args[i..] == args;
      PrependNothing(ArgumentsCode(args));
      while i < |args|
        invariant i <= |args| && instructions == old(instructions) + emitted && thrown.None?
        invariant functionLocations == old(functionLocations) && startAddress == old(startAddress)
        invariant ArgumentsCode(args) == Prepend(emitted, ArgumentsCode(args[i..]))
      {
        assert args[i..][1..] == args[i + 1..];
        thrown := VisitExpr(args[i]);
        if thrown.Some? {
          assert ArgumentsCode(args[i..]) == Failure(thrown.value);
          assert ArgumentsCode(args) == Failure(thrown.value);
          return;
        }
        PrependTwice(emitted, ExprCode(args[i]).value, ArgumentsCode(args[i + 1..]));
        emitted := emitted + ExprCode(args[i]).value;
        i := i + 1;
      }
      instructions := instructions + [CallInstruction(e.callee, 0)];
    }
  }
}
