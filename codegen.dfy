/** The code generator of the calculated-field language (CalculatedField/CodeGenerator.cs): a
    post-order walk over the syntax tree that appends to one flat list of words, each an opcode or
    the inline operand of the opcode before it. The operands are the `Location` slots an earlier
    binding pass stored in the nodes; the generator copies them without checking them.

    The pure function `Gen` states what each node emits; the class `CodeGenerator` appends to its
    list as the C# methods do and is proved to append exactly `Gen` of the node it visits. */
module CalcCodeGen {
  import opened Wrappers

  /** The opcodes the generator emits (the Instruction enum; its numeric values are not part of
      this model). */
  datatype Instruction =
    | PushConstant | PushVariable | PushField | Store | Pop | Negate | Not
    | Add | Subtract | Multiply | Divide
    | Less | LessOrEqual | Greater | GreaterOrEqual | Equal | NotEqual | And | Or
    | Call

  /** One entry of the instruction list: an opcode, or a slot cast to Instruction. */
  datatype Word = Code(opcode: Instruction) | Slot(location: int)

  datatype UnaryOperator = Plus | Minus | Not

  datatype BinaryOperator =
    | Add | Subtract | Multiply | Divide
    | Less | LessOrEqual | Greater | GreaterOrEqual | CompareEqual | CompareNotEqual
    | And | Or

  /** The syntax node kinds the generator dispatches on, with the fields it reads; `OtherSyntax`
      stands for any other node kind, which the dispatch's switch ignores. */
  datatype Syntax =
    | LiteralExpression(location: int)
    | ScriptExpression(expressions: seq<Syntax>)
    | BinaryExpression(op: BinaryOperator, left: Syntax, right: Syntax)
    | UnaryExpression(uop: UnaryOperator, operand: Syntax)
    | AssignmentStatement(location: int, right: Syntax)
    | FunctionExpression(location: int, arguments: seq<Syntax>)
    | IdentifierExpression(location: int)
    | FieldExpression(location: int)
    | OtherSyntax

  // ---------------------------------------------------------------------------------------------
  // What each node emits

  /** The opcode of a binary operator. */
  function BinaryOpcode(op: BinaryOperator): Instruction {
    match op
    case Add => Instruction.Add
    case Subtract => Instruction.Subtract
    case Multiply => Instruction.Multiply
    case Divide => Instruction.Divide
    case Less => Instruction.Less
    case LessOrEqual => Instruction.LessOrEqual
    case Greater => Instruction.Greater
    case GreaterOrEqual => Instruction.GreaterOrEqual
    case CompareEqual => Instruction.Equal
    case CompareNotEqual => Instruction.NotEqual
    case And => Instruction.And
    case Or => Instruction.Or
  }

  /** What a unary operator adds after its operand: nothing for `+`. */
  function UnaryCode(uop: UnaryOperator): seq<Word> {
    match uop
    case Plus => []
    case Minus => [Code(Negate)]
    case Not => [Code(Instruction.Not)]
  }

  /** Generate(expression): the words appended for one node. */
  function Gen(s: Syntax): seq<Word>
    decreases s, 2
  {
    match s
    case LiteralExpression(location) => [Code(PushConstant), Slot(location)]
    case ScriptExpression(expressions) => Block(expressions)
    case BinaryExpression(op, left, right) => Gen(left) + Gen(right) + [Code(BinaryOpcode(op))]
    case UnaryExpression(uop, operand) => Gen(operand) + UnaryCode(uop)
    case AssignmentStatement(location, right) =>
      Gen(right) + [Code(Store), Slot(location), Code(PushVariable), Slot(location)]
    case FunctionExpression(location, arguments) => Arguments(arguments) + [Code(Call), Slot(location)]
    case IdentifierExpression(location) => [Code(PushVariable), Slot(location)]
    case FieldExpression(location) => [Code(PushField), Slot(location)]
    case OtherSyntax => []
  }

  /** GenerateBlockExpression: an empty block pushes constant 0 (the null constant); otherwise every
      expression but the last is followed by a Pop, and the last one's value is left. */
  function Block(expressions: seq<Syntax>): seq<Word>
    decreases expressions, 1
  {
    if |expressions| == 0 then [Code(PushConstant), Slot(0)]
    else Popped(expressions[..|expressions| - 1]) + Gen(expressions[|expressions| - 1])
  }

  /** Each expression of `expressions` followed by a Pop, in order. */
  function Popped(expressions: seq<Syntax>): seq<Word>
    decreases expressions, 0
  {
    if expressions == [] then []
    else Popped(expressions[..|expressions| - 1]) + Gen(expressions[|expressions| - 1]) + [Code(Pop)]
  }

  /** The words of the arguments of a call, left to right. */
  function Arguments(arguments: seq<Syntax>): seq<Word>
    decreases arguments, 0
  {
    if arguments == [] then []
    else Arguments(arguments[..|arguments| - 1]) + Gen(arguments[|arguments| - 1])
  }

  // ---------------------------------------------------------------------------------------------
  // Reading the words back: every operand sits right after an opcode that takes one

  /** The opcodes followed by an inline operand. */
  predicate HasOperand(c: Instruction) {
    c == PushConstant || c == PushVariable || c == PushField || c == Store || c == Call
  }

  /** An opcode together with its operand, if it takes one. */
  datatype Operation = Operation(code: Instruction, operand: Option<int>)

  /** How a machine reads the list from the start: an opcode, then its operand when it takes one.
      A slot where an opcode is due, or a missing operand, makes the list unreadable. */
  function Decode(words: seq<Word>): (r: Option<seq<Operation>>)
    ensures r.Some? ==> |r.value| <= |words|
    decreases |words|
  {
    if words == [] then Some([])
    else
      match words[0]
      case Slot(_) => None
      case Code(c) =>
        if !HasOperand(c) then
          match Decode(words[1..])
          case None => None
          case Some(rest) => Some([Operation(c, None)] + rest)
        else if |words| >= 2 && words[1].Slot? then
          match Decode(words[2..])
          case None => None
          case Some(rest) => Some([Operation(c, Some(words[1].location))] + rest)
        else None
  }

  /** `head` is the words of the one operation `op`: an opcode without an operand, or an opcode
      that takes one with its slot. */
  predicate Reads(head: seq<Word>, op: Operation) {
    (|head| == 1 && head[0].Code? && !HasOperand(head[0].opcode) && op == Operation(head[0].opcode, None)) ||
    (|head| == 2 && head[0].Code? && HasOperand(head[0].opcode) && head[1].Slot? &&
     op == Operation(head[0].opcode, Some(head[1].location)))
  }

  /** Reading one operation off the front of a list. */
  lemma DecodeFront(head: seq<Word>, op: Operation, tail: seq<Word>)
    requires Reads(head, op)
    ensures Decode(head + tail) == if Decode(tail).Some? then Some([op] + Decode(tail).value) else None
  {
    assert (head + tail)[0] == head[0];
    if |head| == 1 {
      assert (head + tail)[1..] == tail;
    } else {
      assert (head + tail)[1] == head[1];
      assert (head + tail)[2..] == tail;
    }
  }

  /** A readable, non-empty list starts with the words of one operation. */
  lemma DecodeSplit(a: seq<Word>) returns (k: nat, op: Operation)
    requires a != [] && Decode(a).Some?
    ensures 0 < k <= |a| && Reads(a[..k], op) && a == a[..k] + a[k..]
  {
    if HasOperand(a[0].opcode) {
      k, op := 2, Operation(a[0].opcode, Some(a[1].location));
    } else {
      k, op := 1, Operation(a[0].opcode, None);
    }
  }

  lemma AppendAssociates<T>(p: seq<T>, x: seq<T>, y: seq<T>)
    ensures p + (x + y) == (p + x) + y
  {
  }

  /** Two readable lists read as one, one after the other. */
  lemma {:induction false} DecodeAppend(a: seq<Word>, b: seq<Word>)
    requires Decode(a).Some? && Decode(b).Some?
    ensures Decode(a + b) == Some(Decode(a).value + Decode(b).value)
    decreases |a|
  {
    if a != [] {
      var k, op := DecodeSplit(a);
      var head, rest := a[..k], a[k..];
      DecodeFront(head, op, rest);
      DecodeAppend(rest, b);
      AppendAssociates(head, rest, b);
      DecodeFront(head, op, rest + b);
      AppendAssociates([op], Decode(rest).value, Decode(b).value);
    } else {
      assert a + b == b;
      assert Decode(a).value + Decode(b).value == Decode(b).value;
    }
  }

  lemma BinaryDecodes(op: BinaryOperator, left: Syntax, right: Syntax)
    requires Decode(Gen(left)).Some? && Decode(Gen(right)).Some?
    ensures Decode(Gen(BinaryExpression(op, left, right))).Some?
  {
    var code := [Code(BinaryOpcode(op))];
    assert Decode(code).Some?;
    DecodeAppend(Gen(left), Gen(right));
    DecodeAppend(Gen(left) + Gen(right), code);
    assert Gen(BinaryExpression(op, left, right)) == Gen(left) + Gen(right) + code;
  }

  lemma UnaryDecodes(uop: UnaryOperator, operand: Syntax)
    requires Decode(Gen(operand)).Some?
    ensures Decode(Gen(UnaryExpression(uop, operand))).Some?
  {
    DecodeAppend(Gen(operand), UnaryCode(uop));
  }

  lemma AssignmentDecodes(location: int, right: Syntax)
    requires Decode(Gen(right)).Some?
    ensures Decode(Gen(AssignmentStatement(location, right))).Some?
  {
    var tail := [Code(Store), Slot(location), Code(PushVariable), Slot(location)];
    assert Decode(tail[2..]).Some?;
    DecodeAppend(Gen(right), tail);
  }

  lemma CallDecodes(location: int, arguments: seq<Syntax>)
    requires Decode(Arguments(arguments)).Some?
    ensures Decode(Gen(FunctionExpression(location, arguments))).Some?
  {
    DecodeAppend(Arguments(arguments), [Code(Call), Slot(location)]);
  }

  /** Whatever a node emits can be read back as whole operations. */
  lemma {:induction false} GenDecodes(s: Syntax)
    ensures Decode(Gen(s)).Some?
    decreases s, 2
  {
    match s
    case ScriptExpression(expressions) =>
      BlockDecodes(expressions);
    case BinaryExpression(op, left, right) =>
      GenDecodes(left);
      GenDecodes(right);
      BinaryDecodes(op, left, right);
    case UnaryExpression(uop, operand) =>
      GenDecodes(operand);
      UnaryDecodes(uop, operand);
    case AssignmentStatement(location, right) =>
      GenDecodes(right);
      AssignmentDecodes(location, right);
    case FunctionExpression(location, arguments) =>
      ArgumentsDecode(arguments);
      CallDecodes(location, arguments);
    case _ =>
  }

  lemma {:induction false} BlockDecodes(expressions: seq<Syntax>)
    ensures Decode(Block(expressions)).Some?
    decreases expressions, 1
  {
    if |expressions| > 0 {
      PoppedDecodes(expressions[..|expressions| - 1]);
      GenDecodes(expressions[|expressions| - 1]);
      DecodeAppend(Popped(expressions[..|expressions| - 1]), Gen(expressions[|expressions| - 1]));
    }
  }

  lemma {:induction false} PoppedDecodes(expressions: seq<Syntax>)
    ensures Decode(Popped(expressions)).Some?
    decreases expressions, 0
  {
    if expressions != [] {
      var init, last := expressions[..|expressions| - 1], expressions[|expressions| - 1];
      PoppedDecodes(init);
      GenDecodes(last);
      DecodeAppend(Popped(init), Gen(last));
      DecodeAppend(Popped(init) + Gen(last), [Code(Pop)]);
    }
  }

  lemma {:induction false} ArgumentsDecode(arguments: seq<Syntax>)
    ensures Decode(Arguments(arguments)).Some?
    decreases arguments, 0
  {
    if arguments != [] {
      var init, last := arguments[..|arguments| - 1], arguments[|arguments| - 1];
      ArgumentsDecode(init);
      GenDecodes(last);
      DecodeAppend(Arguments(init), Gen(last));
    }
  }

  // ---------------------------------------------------------------------------------------------
  // The operands are the tree's slots, copied unchanged

  /** The operand values in a list of words. */
  function Slots(words: seq<Word>): set<int> {
    set k | 0 <= k < |words| && words[k].Slot? :: words[k].location
  }

  /** The `Location` slots a tree carries, with the null constant 0 of each empty block. */
  function Locations(s: Syntax): set<int>
    decreases s, 1
  {
    match s
    case LiteralExpression(location) => {location}
    case ScriptExpression(expressions) => if |expressions| == 0 then {0} else AllLocations(expressions)
    case BinaryExpression(_, left, right) => Locations(left) + Locations(right)
    case UnaryExpression(_, operand) => Locations(operand)
    case AssignmentStatement(location, right) => Locations(right) + {location}
    case FunctionExpression(location, arguments) => AllLocations(arguments) + {location}
    case IdentifierExpression(location) => {location}
    case FieldExpression(location) => {location}
    case OtherSyntax => {}
  }

  function AllLocations(nodes: seq<Syntax>): set<int>
    decreases nodes, 0
  {
    if nodes == [] then {} else AllLocations(nodes[..|nodes| - 1]) + Locations(nodes[|nodes| - 1])
  }

  lemma SlotsAppend(a: seq<Word>, b: seq<Word>)
    ensures Slots(a + b) == Slots(a) + Slots(b)
  {
    forall x | x in Slots(a + b) ensures x in Slots(a) + Slots(b) {
      var k :| 0 <= k < |a + b| && (a + b)[k].Slot? && (a + b)[k].location == x;
      if k >= |a| {
        assert b[k - |a|] == (a + b)[k];
      }
    }
    forall x | x in Slots(a) + Slots(b) ensures x in Slots(a + b) {
      if x in Slots(a) {
        var k :| 0 <= k < |a| && a[k].Slot? && a[k].location == x;
        assert (a + b)[k] == a[k];
      } else {
        var k :| 0 <= k < |b| && b[k].Slot? && b[k].location == x;
        assert (a + b)[|a| + k] == b[k];
      }
    }
  }

  lemma SlotsOfCodes(c: Instruction)
    ensures Slots([Code(c)]) == {}
  {
  }

  /** Every operand emitted for a tree is one of its slots, and every slot of the tree is emitted:
      the generator neither invents nor drops a location. */
  lemma {:induction false} GenSlots(s: Syntax)
    ensures Slots(Gen(s)) == Locations(s)
    decreases s, 2
  {
    match s
    case LiteralExpression(location) =>
      assert Gen(s)[1].location == location;
    case IdentifierExpression(location) =>
      assert Gen(s)[1].location == location;
    case FieldExpression(location) =>
      assert Gen(s)[1].location == location;
    case ScriptExpression(expressions) =>
      BlockSlots(expressions);
    case BinaryExpression(op, left, right) =>
      GenSlots(left);
      GenSlots(right);
      SlotsAppend(Gen(left), Gen(right));
      SlotsAppend(Gen(left) + Gen(right), [Code(BinaryOpcode(op))]);
      SlotsOfCodes(BinaryOpcode(op));
    case UnaryExpression(uop, operand) =>
      GenSlots(operand);
      SlotsAppend(Gen(operand), UnaryCode(uop));
      assert Slots(UnaryCode(uop)) == {};
    case AssignmentStatement(location, right) =>
      var tail := [Code(Store), Slot(location), Code(PushVariable), Slot(location)];
      GenSlots(right);
      SlotsAppend(Gen(right), tail);
      assert tail[1].location == location;
    case FunctionExpression(location, arguments) =>
      var tail := [Code(Call), Slot(location)];
      ArgumentsSlots(arguments);
      SlotsAppend(Arguments(arguments), tail);
      assert tail[1].location == location;
    case OtherSyntax =>
  }

  lemma {:induction false} BlockSlots(expressions: seq<Syntax>)
    ensures Slots(Block(expressions)) == if |expressions| == 0 then {0} else AllLocations(expressions)
    decreases expressions, 1
  {
    if |expressions| == 0 {
      assert Block(expressions)[1].location == 0;
    } else {
      var init, last := expressions[..|expressions| - 1], expressions[|expressions| - 1];
      PoppedSlots(init);
      GenSlots(last);
      SlotsAppend(Popped(init), Gen(last));
    }
  }

  lemma {:induction false} PoppedSlots(expressions: seq<Syntax>)
    ensures Slots(Popped(expressions)) == AllLocations(expressions)
    decreases expressions, 0
  {
    if expressions != [] {
      var init, last := expressions[..|expressions| - 1], expressions[|expressions| - 1];
      PoppedSlots(init);
      GenSlots(last);
      SlotsAppend(Popped(init), Gen(last));
      SlotsAppend(Popped(init) + Gen(last), [Code(Pop)]);
      SlotsOfCodes(Pop);
    }
  }

  lemma {:induction false} ArgumentsSlots(arguments: seq<Syntax>)
    ensures Slots(Arguments(arguments)) == AllLocations(arguments)
    decreases arguments, 0
  {
    if arguments != [] {
      var init, last := arguments[..|arguments| - 1], arguments[|arguments| - 1];
      ArgumentsSlots(init);
      GenSlots(last);
      SlotsAppend(Arguments(init), Gen(last));
    }
  }

  // ---------------------------------------------------------------------------------------------
  // Operators and block shape

  /** The twelve binary operators get twelve different opcodes, none of which pushes, stores,
      pops, negates or calls. */
  lemma BinaryOpcodeOneToOne(a: BinaryOperator, b: BinaryOperator)
    ensures BinaryOpcode(a) == BinaryOpcode(b) <==> a == b
    ensures !HasOperand(BinaryOpcode(a)) && BinaryOpcode(a) !in {Pop, Negate, Instruction.Not}
  {
  }

  /** A unary operator changes nothing for `+`, and adds one Negate or Not word otherwise. */
  lemma UnaryLayout(uop: UnaryOperator, operand: Syntax)
    ensures Gen(operand) <= Gen(UnaryExpression(uop, operand))
    ensures |Gen(UnaryExpression(uop, operand))| == |Gen(operand)| + (if uop == Plus then 0 else 1)
    ensures uop == Minus ==> Gen(UnaryExpression(uop, operand))[|Gen(operand)|] == Code(Negate)
    ensures uop == UnaryOperator.Not ==> Gen(UnaryExpression(uop, operand))[|Gen(operand)|] == Code(Instruction.Not)
  {
  }

  /** One more expression at the end of a run of popped expressions. */
  lemma PoppedStep(expressions: seq<Syntax>, i: nat)
    requires i < |expressions|
    ensures Popped(expressions[..i + 1]) == Popped(expressions[..i]) + (Gen(expressions[i]) + [Code(Pop)])
  {
    assert expressions[..i + 1][..i] == expressions[..i];
  }

  /** A block of one or more expressions, read from the front: the first expression, a Pop, and
      the rest of the block; a single expression without any Pop. */
  lemma {:induction false} BlockFromFront(expressions: seq<Syntax>)
    requires |expressions| > 0
    ensures |expressions| == 1 ==> Block(expressions) == Gen(expressions[0])
    ensures |expressions| > 1 ==>
              Block(expressions) == Gen(expressions[0]) + [Code(Pop)] + Block(expressions[1..])
  {
    if |expressions| > 1 {
      PoppedFromFront(expressions[..|expressions| - 1]);
      assert expressions[..|expressions| - 1][1..] == expressions[1..][..|expressions[1..]| - 1];
      assert expressions[1..][|expressions[1..]| - 1] == expressions[|expressions| - 1];
    } else {
      assert Popped([]) == [];
    }
  }

  lemma {:induction false} PoppedFromFront(expressions: seq<Syntax>)
    requires |expressions| > 0
    ensures Popped(expressions) == Gen(expressions[0]) + [Code(Pop)] + Popped(expressions[1..])
    decreases |expressions|
  {
    var init, last := expressions[..|expressions| - 1], expressions[|expressions| - 1];
    if |expressions| == 1 {
      assert Popped(init) == [];
      assert Popped(expressions[1..]) == [];
    } else {
      PoppedFromFront(init);
      var first, rest := Gen(expressions[0]) + [Code(Pop)], expressions[1..];
      assert init[0] == expressions[0];
      assert rest[..|rest| - 1] == init[1..] && rest[|rest| - 1] == last;
      calc {
        Popped(expressions);
        Popped(init) + (Gen(last) + [Code(Pop)]);
        (first + Popped(init[1..])) + (Gen(last) + [Code(Pop)]);
        { AppendAssociates(first, Popped(init[1..]), Gen(last) + [Code(Pop)]); }
        first + (Popped(init[1..]) + (Gen(last) + [Code(Pop)]));
        first + Popped(rest);
      }
    }
  }

  // ---------------------------------------------------------------------------------------------
  // The generator

  /** CodeGenerator: the `Instructions` list, only ever appended to. */
  class CodeGenerator {
    var instructions: seq<Word>

    constructor ()
      ensures instructions == []
    {
      instructions := [];
    }

    /** GenerateProgram: generates the script and returns the list. */
    method GenerateProgram(program: Syntax) returns (r: seq<Word>)
      requires program.ScriptExpression?
      modifies this
      ensures instructions == old(instructions) + Gen(program)
      ensures r == instructions
    {
      Generate(program);
      r := instructions;
    }

    /** Generate: the dispatch on the node's kind; a kind it does not list emits nothing. */
    method Generate(expression: Syntax)
      modifies this
      ensures instructions == old(instructions) + Gen(expression)
      decreases expression, 1
    {
      match expression
      case LiteralExpression(_) => GenerateLiteralExpression(expression);
      case ScriptExpression(_) => GenerateBlockExpression(expression);
      case BinaryExpression(_, _, _) => GenerateBinaryExpression(expression);
      case UnaryExpression(_, _) => GenerateUnaryExpression(expression);
      case AssignmentStatement(_, _) => GenerateAssignmentExpression(expression);
      case FunctionExpression(_, _) => GenerateFunctionCallExpression(expression);
      case IdentifierExpression(_) => GenerateIdentifierExpression(expression);
      case FieldExpression(_) => GenerateFieldExpression(expression);
      case OtherSyntax =>
        assert instructions == old(instructions) + [];
    }

    method GenerateBlockExpression(block: Syntax)
      requires block.ScriptExpression?
      modifies this
      ensures instructions == old(instructions) + Gen(block)
      decreases block, 0
    {
      var expressions := block.expressions;
      if |expressions| == 0 {
        instructions := instructions + [Code(PushConstant), Slot(0)];
        return;
      }
      var i := 0;
      while i < |expressions| - 1
        invariant 0 <= i <= |expressions| - 1
        invariant instructions == old(instructions) + Popped(expressions[..i])
      {
        Generate(expressions[i]);
        instructions := instructions + [Code(Pop)];
        PoppedStep(expressions, i);
        AppendAssociates(old(instructions), Popped(expressions[..i]), Gen(expressions[i]) + [Code(Pop)]);
        i := i + 1;
      }
      Generate(expressions[|expressions| - 1]);
      AppendAssociates(old(instructions), Popped(expressions[..i]), Gen(expressions[i]));
    }

    method GenerateUnaryExpression(expression: Syntax)
      requires expression.UnaryExpression?
      modifies this
      ensures instructions == old(instructions) + Gen(expression)
      decreases expression, 0
    {
      Generate(expression.operand);
      match expression.uop
      case Plus =>
        assert instructions == old(instructions) + Gen(expression);
      case Minus =>
        instructions := instructions + [Code(Negate)];
      case Not =>
        instructions := instructions + [Code(Instruction.Not)];
    }

    method GenerateBinaryExpression(expression: Syntax)
      requires expression.BinaryExpression?
      modifies this
      ensures instructions == old(instructions) + Gen(expression)
      decreases expression, 0
    {
      Generate(expression.left);
      Generate(expression.right);
      var opcode;
      match expression.op {
      case Add => opcode := Instruction.Add;
      case Subtract => opcode := Instruction.Subtract;
      case Multiply => opcode := Instruction.Multiply;
      case Divide => opcode := Instruction.Divide;
      case Less => opcode := Instruction.Less;
      case LessOrEqual => opcode := Instruction.LessOrEqual;
      case Greater => opcode := Instruction.Greater;
      case GreaterOrEqual => opcode := Instruction.GreaterOrEqual;
      case CompareEqual => opcode := Equal;
      case CompareNotEqual => opcode := NotEqual;
      case And => opcode := Instruction.And;
      case Or => opcode := Instruction.Or;
      }
      instructions := instructions + [Code(opcode)];
    }

    method GenerateLiteralExpression(expression: Syntax)
      requires expression.LiteralExpression?
      modifies this
      ensures instructions == old(instructions) + Gen(expression)
    {
      instructions := instructions + [Code(PushConstant)];
      instructions := instructions + [Slot(expression.location)];
    }

    method GenerateIdentifierExpression(identifier: Syntax)
      requires identifier.IdentifierExpression?
      modifies this
      ensures instructions == old(instructions) + Gen(identifier)
    {
      instructions := instructions + [Code(PushVariable)];
      instructions := instructions + [Slot(identifier.location)];
    }

    method GenerateFieldExpression(expression: Syntax)
      requires expression.FieldExpression?
      modifies this
      ensures instructions == old(instructions) + Gen(expression)
    {
      instructions := instructions + [Code(PushField)];
      instructions := instructions + [Slot(expression.location)];
    }

    method GenerateAssignmentExpression(assignment: Syntax)
      requires assignment.AssignmentStatement?
      modifies this
      ensures instructions == old(instructions) + Gen(assignment)
      decreases assignment, 0
    {
      Generate(assignment.right);
      ghost var afterRight := instructions;
      instructions := instructions + [Code(Store)];
      instructions := instructions + [Slot(assignment.location)];
      instructions := instructions + [Code(PushVariable)];
      instructions := instructions + [Slot(assignment.location)];
      assert instructions == afterRight + [Code(Store), Slot(assignment.location), Code(PushVariable), Slot(assignment.location)];
    }

    method GenerateFunctionCallExpression(call: Syntax)
      requires call.FunctionExpression?
      modifies this
      ensures instructions == old(instructions) + Gen(call)
      decreases call, 0
    {
      var arguments := call.arguments;
      for i := 0 to |arguments|
        invariant instructions == old(instructions) + Arguments(arguments[..i])
      {
        Generate(arguments[i]);
        assert arguments[..i + 1][..i] == arguments[..i];
      }
      assert arguments[..|arguments|] == arguments;
      instructions := instructions + [Code(Call)];
      instructions := instructions + [Slot(call.location)];
    }
  }
}
