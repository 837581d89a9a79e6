/** Bytecode modules: instructions, constants, functions and their flattened code. */
module Bytecode {
  import opened Int64

  datatype Option<+T> = None | Some(value: T)

  type U32 = x: int | 0 <= x < 0x1_0000_0000

  type U16 = x: int | 0 <= x < 0x1_0000

  type U8 = x: int | 0 <= x < 0x100

  const INVALID_TRY_TARGET: U32 := 0xFFFF_FFFF

  // static_cast<int32_t> of an operand.
  function SignedU32(x: U32): (r: I64)
    ensures -0x8000_0000 <= r < 0x8000_0000
    ensures UnsignedI32(r) == x
  {
    if x < 0x8000_0000 then x else x - 0x1_0000_0000
  }

  // static_cast<uint32_t> of a jump distance.
  function UnsignedI32(d: int): U32
    requires -0x8000_0000 <= d < 0x8000_0000
  {
    if d < 0 then d + 0x1_0000_0000 else d
  }

  lemma SignedUnsigned(d: int)
    requires -0x8000_0000 <= d < 0x8000_0000
    ensures SignedU32(UnsignedI32(d)) == d
  {
  }

  // uint32_t addition, used for register windows.
  function AddU32(x: U32, y: int): U32
    requires 0 <= y
  {
    (x + y) % 0x1_0000_0000
  }

  datatype Opcode =
    | Nop | Mov | LoadK | Add | Sub | Mul | Div | CmpEq
    | Jmp | JmpIf | Call | FfiCall | Ret | Throw | Halt | NewObject | Invoke
    | AddImm | SubImm | JmpIfZero | JmpIfNotZero | DecJnz | AddDecJnz | Inc | Dec
    | SubImmJnz | AddImmJnz | Closure | GetUpval | SetUpval | CallClosure
    | TailCall | TailCallClosure | VarArg | StrLen | StrConcat
    | BitAnd | BitOr | BitXor | BitNot | BitShl | BitShr
    | TryBegin | TryEnd | EndCatch | EndFinally
    | Unknown(code: nat)

  datatype Instruction = Instruction(op: Opcode, flags: U8, reserved: U16, a: U32, b: U32, c: U32)

  function Make(op: Opcode, a: U32, b: U32, c: U32): Instruction {
    Instruction(op, 0, 0, a, b, c)
  }

  const NOP: Instruction := Make(Nop, 0, 0, 0)

  datatype Constant = IntConst(v: I64) | FloatConst(bits: I64) | Utf8Const(s: string)

  datatype Tag = TNull | TInt64 | TFloat64 | TBool | TObject | TPointer | TString | TClosure

  // A value is a tag and 64 bits; the bits are kept in their signed reading.
  datatype Value = Value(tag: Tag, bits: I64)

  const NULL: Value := Value(TNull, 0)

  function IntValue(v: I64): Value { Value(TInt64, v) }

  function BoolValue(b: bool): Value { Value(TBool, if b then 1 else 0) }

  // The bit pattern of -0.0 is that of INT64_MIN.
  predicate Truthy(v: Value) {
    match v.tag
    case TNull => false
    case TBool => v.bits != 0
    case TInt64 => v.bits != 0
    case TFloat64 => v.bits != 0 && v.bits != -TWO_TO_THE_63
    case _ => true
  }

  datatype ValueType = AnyType | Exactly(tag: Tag) | InvalidType(code: nat)

  predicate Matches(v: Value, t: ValueType) {
    match t
    case AnyType => true
    case Exactly(tag) => v.tag == tag
    case InvalidType(_) => false
  }

  datatype BasicBlock = BasicBlock(name: string, instructions: seq<Instruction>)

  function Flatten(blocks: seq<BasicBlock>): seq<Instruction> {
    if blocks == [] then [] else blocks[0].instructions + Flatten(blocks[1..])
  }

  datatype FfiHeader = FfiHeader(enabled: bool, convention: nat, signature: nat, binding: nat)

  datatype Function = Function(
    name: string, regCount: U16, paramCount: U16, upvalueCount: U16, isVararg: bool,
    isExported: bool, paramTypes: seq<ValueType>, returnType: ValueType,
    blocks: seq<BasicBlock>, ffi: FfiHeader)
  {
    function Code(): seq<Instruction> { Flatten(blocks) }
  }

  // Replaces a function's code by one block holding `code`.
  function Rebuild(f: Function, code: seq<Instruction>): (g: Function)
    ensures g.Code() == if code == [] then [NOP] else code
    ensures g == f.(blocks := g.blocks)
  {
    var name := if f.blocks == [] then "entry" else f.blocks[0].name;
    var body := if code == [] then [NOP] else code;
    assert Flatten([BasicBlock(name, body)]) == body + Flatten([]) == body;
    f.(blocks := [BasicBlock(name, body)])
  }

  datatype FfiBinding = FfiBinding(vmSymbol: string, nativeSymbol: string, library: nat, signature: nat)

  datatype MethodDecl = MethodDecl(name: string, function_: nat, access: nat, isVirtual: bool)

  datatype ClassDecl = ClassDecl(name: string, bases: seq<string>, methods: seq<MethodDecl>)

  datatype Module = Module(
    functions: seq<Function>, constants: seq<Constant>, entry: nat,
    ffiBindings: seq<FfiBinding>, ffiSignatureCount: nat, ffiLibraryCount: nat,
    classes: seq<ClassDecl>)

  // ---- Classification shared by the passes ------------------------------------------

  predicate IsTryOpcode(op: Opcode) {
    op == TryBegin || op == TryEnd || op == EndCatch || op == EndFinally
  }

  predicate TryFree(code: seq<Instruction>) {
    forall i :: 0 <= i < |code| ==> !IsTryOpcode(code[i].op)
  }

  predicate IsRelativeJump(op: Opcode) {
    match op
    case Jmp | JmpIf | JmpIfZero | JmpIfNotZero | DecJnz | AddDecJnz | SubImmJnz | AddImmJnz => true
    case _ => false
  }

  predicate IsTerminator(op: Opcode) {
    op == Ret || op == Throw || op == Halt || op == TailCall || op == TailCallClosure
  }

  function JumpOperand(i: Instruction): U32 {
    match i.op
    case Jmp => i.a
    case JmpIf | JmpIfZero | JmpIfNotZero | DecJnz => i.b
    case AddDecJnz | SubImmJnz | AddImmJnz => i.c
    case _ => 0
  }

  function JumpDelta(i: Instruction): int { SignedU32(JumpOperand(i)) }

  function WithJumpDelta(i: Instruction, delta: int): (r: Instruction)
    requires -0x8000_0000 <= delta < 0x8000_0000
    ensures r.op == i.op
    ensures IsRelativeJump(i.op) ==> JumpDelta(r) == delta
    ensures !IsRelativeJump(i.op) ==> r == i
  {
    SignedUnsigned(delta);
    var d := UnsignedI32(delta);
    match i.op
    case Jmp => i.(a := d)
    case JmpIf | JmpIfZero | JmpIfNotZero | DecJnz => i.(b := d)
    case AddDecJnz | SubImmJnz | AddImmJnz => i.(c := d)
    case _ => i
  }

  // The pcs control may pass to, apart from exception handlers.
  predicate Flows(code: seq<Instruction>, from: int, to: int)
    requires 0 <= from < |code|
  {
    var i := code[from];
    || (IsRelativeJump(i.op) && to == from + JumpDelta(i))
    || (i.op != Jmp && !IsTerminator(i.op) && to == from + 1)
  }
}
