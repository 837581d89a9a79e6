/** The records of a .tbc file: how each is written, and that reading takes it back. */
module Tbc {
  import opened Int64
  import opened Bytecode
  import opened Wire

  // ---- Codes of enumerations -------------------------------------------------------------------------

  function OpcodeByte(op: Opcode): nat {
    match op
    case Nop => 0 case Mov => 1 case LoadK => 2 case Add => 3 case Sub => 4 case Mul => 5 case Div => 6
    case CmpEq => 7 case Jmp => 8 case JmpIf => 9 case Call => 10 case FfiCall => 11 case Ret => 12
    case Throw => 13 case Halt => 14 case NewObject => 15 case Invoke => 16 case AddImm => 17 case SubImm => 18
    case JmpIfZero => 19 case JmpIfNotZero => 20 case DecJnz => 21 case AddDecJnz => 22 case Inc => 23
    case Dec => 24 case SubImmJnz => 25 case AddImmJnz => 26 case Closure => 27 case GetUpval => 28
    case SetUpval => 29 case CallClosure => 30 case TailCall => 31 case TailCallClosure => 32 case VarArg => 33
    case StrLen => 34 case StrConcat => 35 case BitAnd => 36 case BitOr => 37 case BitXor => 38 case BitNot => 39
    case BitShl => 40 case BitShr => 41 case TryBegin => 42 case TryEnd => 43 case EndCatch => 44
    case EndFinally => 45
    case Unknown(code) => code
  }

  const OPCODE_COUNT := 46

  function OpcodeOf(b: nat): Opcode { if b < 23 then LowOpcode(b) else HighOpcode(b) }

  function LowOpcode(b: nat): Opcode {
    match b
    case 0 => Opcode.Nop case 1 => Opcode.Mov case 2 => Opcode.LoadK case 3 => Opcode.Add case 4 => Opcode.Sub
    case 5 => Opcode.Mul case 6 => Opcode.Div case 7 => Opcode.CmpEq case 8 => Opcode.Jmp case 9 => Opcode.JmpIf
    case 10 => Opcode.Call case 11 => Opcode.FfiCall case 12 => Opcode.Ret case 13 => Opcode.Throw
    case 14 => Opcode.Halt case 15 => Opcode.NewObject case 16 => Opcode.Invoke case 17 => Opcode.AddImm
    case 18 => Opcode.SubImm case 19 => Opcode.JmpIfZero case 20 => Opcode.JmpIfNotZero case 21 => Opcode.DecJnz
    case 22 => Opcode.AddDecJnz
    case _ => Unknown(b)
  }

  function HighOpcode(b: nat): Opcode {
    match b
    case 23 => Opcode.Inc case 24 => Opcode.Dec case 25 => Opcode.SubImmJnz case 26 => Opcode.AddImmJnz
    case 27 => Opcode.Closure case 28 => Opcode.GetUpval case 29 => Opcode.SetUpval
    case 30 => Opcode.CallClosure case 31 => Opcode.TailCall case 32 => Opcode.TailCallClosure
    case 33 => Opcode.VarArg case 34 => Opcode.StrLen case 35 => Opcode.StrConcat case 36 => Opcode.BitAnd
    case 37 => Opcode.BitOr case 38 => Opcode.BitXor case 39 => Opcode.BitNot case 40 => Opcode.BitShl
    case 41 => Opcode.BitShr case 42 => Opcode.TryBegin case 43 => Opcode.TryEnd case 44 => Opcode.EndCatch
    case 45 => Opcode.EndFinally
    case _ => Unknown(b)
  }

  // Opcodes that fit their byte; an unknown one must not be the code of a known one.
  predicate OpcodeFits(op: Opcode) { op.Unknown? ==> OPCODE_COUNT <= op.code < 0x100 }

  lemma LowBack(op: Opcode)
    requires OpcodeFits(op) && OpcodeByte(op) < 23
    ensures LowOpcode(OpcodeByte(op)) == op
  {
  }

  lemma HighBack(op: Opcode)
    requires OpcodeFits(op) && OpcodeByte(op) >= 23
    ensures OpcodeByte(op) < 0x100 && HighOpcode(OpcodeByte(op)) == op
  {
  }

  lemma OpcodeBack(op: Opcode)
    requires OpcodeFits(op)
    ensures OpcodeByte(op) < 0x100 && OpcodeOf(OpcodeByte(op)) == op
  {
    hide LowOpcode, HighOpcode, OpcodeByte, OpcodeFits;
    if OpcodeByte(op) < 23 { LowBack(op); } else { HighBack(op); }
  }

  const TAGS: seq<Tag> := [TNull, TInt64, TFloat64, TBool, TObject, TPointer, TString, TClosure]

  function ValueTypeByte(t: ValueType): nat {
    match t
    case AnyType => 0
    case Exactly(tag) =>
      (match tag
       case TNull => 1 case TInt64 => 2 case TFloat64 => 3 case TBool => 4 case TObject => 5 case TPointer => 6
       case TString => 7 case TClosure => 8)
    case InvalidType(code) => code
  }

  // None is a type out of range.
  function ValueTypeOf(b: nat): Option<ValueType> {
    if b == 0 then Some(AnyType) else if b <= |TAGS| then Some(Exactly(TAGS[b - 1])) else None
  }

  lemma ValueTypeBack(t: ValueType)
    requires !t.InvalidType?
    ensures ValueTypeByte(t) < 0x100 && ValueTypeOf(ValueTypeByte(t)) == Some(t)
  {
  }

  // ---- Counted lists ----------------------------------------------------------------------------------

  function WriteList<T>(w: T -> seq<Byte>, xs: seq<T>): seq<Byte> { Write32(|xs|) + WriteMany(w, xs) }

  function ReadList<T>(r: (seq<Byte>, nat) -> Parsed<T>, bytes: seq<Byte>, off: nat): Parsed<seq<T>> {
    var (n, o) :- Read32(bytes, off);
    ReadMany(r, bytes, o, n)
  }

  lemma ListRead<T(!new)>(
      w: T -> seq<Byte>, r: (seq<Byte>, nat) -> Parsed<T>, norm: T -> T, good: T -> bool,
      bytes: seq<Byte>, off: nat, xs: seq<T>)
    requires TakesBack(w, r, norm, good, bytes) && |xs| < 0x1_0000_0000 && forall k :: 0 <= k < |xs| ==> good(xs[k])
    requires At(bytes, off, WriteList(w, xs))
    ensures ReadList(r, bytes, off) == Got(Normal(norm, xs), off + |WriteList(w, xs)|)
  {
    SplitAt(bytes, off, Write32(|xs|), WriteMany(w, xs));
    Field32(bytes, off, |xs|);
    ManyRead(w, r, norm, good, bytes, off + 4, xs);
  }

  function Same<T>(x: T): T { x }

  lemma SameNormal<T>(xs: seq<T>)
    ensures Normal<T>(Same, xs) == xs
  {
    var same: T -> T := Same;
    forall k | 0 <= k < |xs| ensures Normal(same, xs)[k] == xs[k] {
      assert same(xs[k]) == xs[k];
    }
  }

  // ---- Constants ------------------------------------------------------------------------------------------

  function WriteConstant(c: Constant): seq<Byte> {
    match c
    case IntConst(v) => Write8(0) + Write64(Unsigned(v))
    case FloatConst(bits) => Write8(1) + Write64(Unsigned(bits))
    case Utf8Const(s) => Write8(2) + WriteString(s)
  }

  function ReadConstant(bytes: seq<Byte>, off: nat): Parsed<Constant> {
    var (kind, o) :- Read8(bytes, off);
    if kind == 0 then
      var (v, o') :- Read64(bytes, o);
      Got(IntConst(Wrap(v)), o')
    else if kind == 1 then
      var (v, o') :- Read64(bytes, o);
      Got(FloatConst(Wrap(v)), o')
    else if kind == 2 then
      var (s, o') :- ReadString(bytes, o);
      Got(Utf8Const(s), o')
    else Bad
  }

  predicate ConstantFits(c: Constant) { c.Utf8Const? ==> Narrow(c.s) }

  lemma WrapsBack(v: I64)
    ensures Unsigned(v) < 0x1_0000_0000_0000_0000 && Wrap(Unsigned(v)) == v
  {
  }

  lemma ConstantRead(bytes: seq<Byte>, off: nat, c: Constant)
    requires ConstantFits(c) && At(bytes, off, WriteConstant(c))
    ensures ReadConstant(bytes, off) == Got(c, off + |WriteConstant(c)|)
  {
    hide Unsigned, Wrap, Write64, Read64, WriteString, ReadString;
    match c
    case IntConst(v) =>
      SplitAt(bytes, off, Write8(0), Write64(Unsigned(v)));
      Field8(bytes, off, 0);
      WrapsBack(v);
      Field64(bytes, off + 1, Unsigned(v));
    case FloatConst(v) =>
      SplitAt(bytes, off, Write8(1), Write64(Unsigned(v)));
      Field8(bytes, off, 1);
      WrapsBack(v);
      Field64(bytes, off + 1, Unsigned(v));
    case Utf8Const(s) =>
      SplitAt(bytes, off, Write8(2), WriteString(s));
      Field8(bytes, off, 2);
      StringRead(bytes, off + 1, s);
  }

  // ---- Instructions -----------------------------------------------------------------------------------------

  function WriteInstruction(i: Instruction): seq<Byte> {
    Write8(OpcodeByte(i.op)) + (Write8(i.flags) + (Write16(i.reserved) +
      (Write32(i.a) + (Write32(i.b) + Write32(i.c)))))
  }

  function ReadInstruction(bytes: seq<Byte>, off: nat): Parsed<Instruction> {
    var (op, o1) :- Read8(bytes, off);
    var (flags, o2) :- Read8(bytes, o1);
    var (reserved, o3) :- Read16(bytes, o2);
    var (a, o4) :- Read32(bytes, o3);
    var (b, o5) :- Read32(bytes, o4);
    var (c, o6) :- Read32(bytes, o5);
    Got(Instruction(OpcodeOf(op), flags, reserved, a, b, c), o6)
  }

  predicate InstructionFits(i: Instruction) { OpcodeFits(i.op) }

  lemma InstructionRead(bytes: seq<Byte>, off: nat, i: Instruction)
    requires InstructionFits(i) && At(bytes, off, WriteInstruction(i))
    ensures ReadInstruction(bytes, off) == Got(i, off + |WriteInstruction(i)|)
  {
    hide Write8, Write16, Write32, Read8, Read16, Read32, At;
    var w1, w2, w3, w4, w5, w6 := Write8(OpcodeByte(i.op)), Write8(i.flags), Write16(i.reserved), Write32(i.a),
                                  Write32(i.b), Write32(i.c);
    SplitAt(bytes, off, w1, w2 + (w3 + (w4 + (w5 + w6))));
    SplitAt(bytes, off + 1, w2, w3 + (w4 + (w5 + w6)));
    SplitAt(bytes, off + 2, w3, w4 + (w5 + w6));
    SplitAt(bytes, off + 4, w4, w5 + w6);
    SplitAt(bytes, off + 8, w5, w6);
    OpcodeBack(i.op);
    Field8(bytes, off, OpcodeByte(i.op));
    Field8(bytes, off + 1, i.flags);
    Field16(bytes, off + 2, i.reserved);
    Field32(bytes, off + 4, i.a);
    Field32(bytes, off + 8, i.b);
    Field32(bytes, off + 12, i.c);
  }

  // ---- Functions --------------------------------------------------------------------------------------------

  predicate TypeFits(t: ValueType) { !t.InvalidType? }

  function WriteType(t: ValueType): seq<Byte> { Write8(ValueTypeByte(t)) }

  function ReadType(bytes: seq<Byte>, off: nat): Parsed<ValueType> {
    var (b, o) :- Read8(bytes, off);
    match ValueTypeOf(b)
    case None => Bad
    case Some(t) => Got(t, o)
  }

  lemma TypeRead(bytes: seq<Byte>, off: nat, t: ValueType)
    requires !t.InvalidType? && At(bytes, off, WriteType(t))
    ensures ReadType(bytes, off) == Got(t, off + 1)
  {
    ValueTypeBack(t);
    Field8(bytes, off, ValueTypeByte(t));
  }

  // Registers, parameters and types.
  datatype Shape = Shape(regCount: U16, paramCount: U16, paramTypes: seq<ValueType>, returnType: ValueType)

  function WriteShape(s: Shape): seq<Byte> {
    Write16(s.regCount) + (Write16(s.paramCount) + (Write16(|s.paramTypes|) +
      (WriteMany(WriteType, s.paramTypes) + WriteType(s.returnType))))
  }

  function ReadShape(bytes: seq<Byte>, off: nat): Parsed<Shape> {
    var (regs, o1) :- Read16(bytes, off);
    var (params, o2) :- Read16(bytes, o1);
    var (types, o3) :- Read16(bytes, o2);
    if types != params then Bad
    else
      var (ts, o4) :- ReadMany(ReadType, bytes, o3, types);
      var (t, o5) :- ReadType(bytes, o4);
      Got(Shape(regs, params, ts, t), o5)
  }

  predicate ShapeFits(s: Shape) {
    |s.paramTypes| == s.paramCount && !s.returnType.InvalidType?
    && forall k :: 0 <= k < |s.paramTypes| ==> !s.paramTypes[k].InvalidType?
  }

  lemma ShapeRead(bytes: seq<Byte>, off: nat, s: Shape)
    requires ShapeFits(s) && At(bytes, off, WriteShape(s))
    ensures ReadShape(bytes, off) == Got(s, off + |WriteShape(s)|)
  {
    hide Write16, Read16, At, ReadType, WriteType, WriteMany, ReadMany, Same;
    var w1, w2, w3 := Write16(s.regCount), Write16(s.paramCount), Write16(|s.paramTypes|);
    var w4, w5 := WriteMany(WriteType, s.paramTypes), WriteType(s.returnType);
    SplitAt(bytes, off, w1, w2 + (w3 + (w4 + w5)));
    SplitAt(bytes, off + 2, w2, w3 + (w4 + w5));
    SplitAt(bytes, off + 4, w3, w4 + w5);
    SplitAt(bytes, off + 6, w4, w5);
    Field16(bytes, off, s.regCount);
    Field16(bytes, off + 2, s.paramCount);
    Field16(bytes, off + 4, |s.paramTypes|);
    TypesBack(bytes);
    ManyRead(WriteType, ReadType, Same, TypeFits,
             bytes, off + 6, s.paramTypes);
    SameNormal(s.paramTypes);
    TypeRead(bytes, off + 6 + |w4|, s.returnType);
    TypeWidth(s.returnType);
  }

  lemma TypeWidth(t: ValueType)
    ensures |WriteType(t)| == 1
  {
  }

  lemma TypesBack(bytes: seq<Byte>)
    ensures TakesBack(WriteType, ReadType, Same, TypeFits, bytes)
  {
    hide At;
    forall t: ValueType, o: nat | !t.InvalidType? && At(bytes, o, WriteType(t))
      ensures ReadType(bytes, o) == Got(t, o + |WriteType(t)|)
    {
      TypeRead(bytes, o, t);
    }
  }

  function Bit(b: bool): nat { if b then 1 else 0 }

  function WriteFfiHeader(h: FfiHeader): seq<Byte> {
    Write8(Bit(h.enabled)) + (Write8(h.convention) + (Write16(0) + (Write32(h.signature) + Write32(h.binding))))
  }

  function ReadFfiHeader(bytes: seq<Byte>, off: nat): Parsed<FfiHeader> {
    var (enabled, o1) :- Read8(bytes, off);
    var (convention, o2) :- Read8(bytes, o1);
    var (_, o3) :- Read16(bytes, o2);
    var (signature, o4) :- Read32(bytes, o3);
    var (binding, o5) :- Read32(bytes, o4);
    Got(FfiHeader(enabled != 0, convention, signature, binding), o5)
  }

  predicate FfiHeaderFits(h: FfiHeader) {
    h.convention < 0x100 && h.signature < 0x1_0000_0000 && h.binding < 0x1_0000_0000
  }

  lemma FfiHeaderRead(bytes: seq<Byte>, off: nat, h: FfiHeader)
    requires FfiHeaderFits(h) && At(bytes, off, WriteFfiHeader(h))
    ensures ReadFfiHeader(bytes, off) == Got(h, off + |WriteFfiHeader(h)|)
  {
    hide Write8, Write16, Write32, Read8, Read16, Read32, At;
    var w1, w2, w3, w4, w5 := Write8(Bit(h.enabled)), Write8(h.convention), Write16(0), Write32(h.signature),
                              Write32(h.binding);
    SplitAt(bytes, off, w1, w2 + (w3 + (w4 + w5)));
    SplitAt(bytes, off + 1, w2, w3 + (w4 + w5));
    SplitAt(bytes, off + 2, w3, w4 + w5);
    SplitAt(bytes, off + 4, w4, w5);
    Field8(bytes, off, Bit(h.enabled));
    Field8(bytes, off + 1, h.convention);
    Field16(bytes, off + 2, 0);
    Field32(bytes, off + 4, h.signature);
    Field32(bytes, off + 8, h.binding);
  }

  // Upvalues, variadicity and export.
  datatype Traits = Traits(upvalueCount: U16, isVararg: bool, isExported: bool)

  function WriteTraits(t: Traits): seq<Byte> {
    Write16(t.upvalueCount) + (Write8(Bit(t.isVararg)) + Write8(Bit(t.isExported)))
  }

  function ReadTraits(bytes: seq<Byte>, off: nat): Parsed<Traits> {
    var (upvalues, o1) :- Read16(bytes, off);
    var (vararg, o2) :- Read8(bytes, o1);
    var (exported, o3) :- Read8(bytes, o2);
    Got(Traits(upvalues, vararg != 0, exported != 0), o3)
  }

  lemma TraitsRead(bytes: seq<Byte>, off: nat, t: Traits)
    requires At(bytes, off, WriteTraits(t))
    ensures ReadTraits(bytes, off) == Got(t, off + |WriteTraits(t)|)
  {
    hide Write8, Write16, Read8, Read16, At;
    var w1, w2, w3 := Write16(t.upvalueCount), Write8(Bit(t.isVararg)), Write8(Bit(t.isExported));
    SplitAt(bytes, off, w1, w2 + w3);
    SplitAt(bytes, off + 2, w2, w3);
    Field16(bytes, off, t.upvalueCount);
    Field8(bytes, off + 2, Bit(t.isVararg));
    Field8(bytes, off + 3, Bit(t.isExported));
  }

  function ShapeOf(f: Function): Shape { Shape(f.regCount, f.paramCount, f.paramTypes, f.returnType) }

  function TraitsOf(f: Function): Traits { Traits(f.upvalueCount, f.isVararg, f.isExported) }

  function Assembled(name: string, s: Shape, h: FfiHeader, t: Traits, code: seq<Instruction>): Function {
    Function(name, s.regCount, s.paramCount, t.upvalueCount, t.isVararg, t.isExported, s.paramTypes, s.returnType,
             [BasicBlock("entry", code)], h)
  }

  // The function with its blocks run together.
  function Flattened(f: Function): Function { f.(blocks := [BasicBlock("entry", f.Code())]) }

  function WriteFunction(f: Function): seq<Byte> {
    WriteString(f.name) + (WriteShape(ShapeOf(f)) + (WriteFfiHeader(f.ffi) + (WriteTraits(TraitsOf(f)) +
      WriteList(WriteInstruction, f.Code()))))
  }

  function ReadFunction(bytes: seq<Byte>, off: nat): Parsed<Function> {
    var (name, o1) :- ReadString(bytes, off);
    var (shape, o2) :- ReadShape(bytes, o1);
    var (ffi, o3) :- ReadFfiHeader(bytes, o2);
    var (traits, o4) :- ReadTraits(bytes, o3);
    var (code, o5) :- ReadList(ReadInstruction, bytes, o4);
    Got(Assembled(name, shape, ffi, traits, code), o5)
  }

  predicate FunctionFits(f: Function) {
    && Narrow(f.name) && ShapeFits(ShapeOf(f)) && FfiHeaderFits(f.ffi) && |f.Code()| < 0x1_0000_0000
    && forall k :: 0 <= k < |f.Code()| ==> InstructionFits(f.Code()[k])
  }

  lemma InstructionsBack(bytes: seq<Byte>)
    ensures TakesBack(WriteInstruction, ReadInstruction, Same,
                      InstructionFits, bytes)
  {
    hide At, WriteInstruction, ReadInstruction, InstructionFits;
    forall i: Instruction, o: nat | InstructionFits(i) && At(bytes, o, WriteInstruction(i))
      ensures ReadInstruction(bytes, o) == Got(i, o + |WriteInstruction(i)|)
    {
      InstructionRead(bytes, o, i);
    }
  }

  lemma FunctionRead(bytes: seq<Byte>, off: nat, f: Function)
    requires FunctionFits(f) && At(bytes, off, WriteFunction(f))
    ensures ReadFunction(bytes, off) == Got(Flattened(f), off + |WriteFunction(f)|)
  {
    hide At, WriteString, ReadString, WriteShape, ReadShape, WriteFfiHeader, ReadFfiHeader, WriteTraits, ReadTraits,
         WriteList, ReadList, WriteInstruction, ReadInstruction, Narrow, ShapeFits, FfiHeaderFits;
    var w1, w2, w3, w4 := WriteString(f.name), WriteShape(ShapeOf(f)), WriteFfiHeader(f.ffi), WriteTraits(TraitsOf(f));
    var w5 := WriteList(WriteInstruction, f.Code());
    var o1 := off + |w1|;
    var o2 := o1 + |w2|;
    var o3 := o2 + |w3|;
    SplitAt(bytes, off, w1, w2 + (w3 + (w4 + w5)));
    SplitAt(bytes, o1, w2, w3 + (w4 + w5));
    SplitAt(bytes, o2, w3, w4 + w5);
    SplitAt(bytes, o3, w4, w5);
    StringRead(bytes, off, f.name);
    ShapeRead(bytes, o1, ShapeOf(f));
    FfiHeaderRead(bytes, o2, f.ffi);
    TraitsRead(bytes, o3, TraitsOf(f));
    InstructionsBack(bytes);
    ListRead(WriteInstruction, ReadInstruction, Same,
             InstructionFits, bytes, o3 + |w4|, f.Code());
    SameNormal(f.Code());
  }

  // ---- Debug lines --------------------------------------------------------------------------------------------

  datatype DebugLine = DebugLine(functionIndex: U32, instructionIndex: U32, line: U32, column: U32)

  function WriteLine(d: DebugLine): seq<Byte> {
    Write32(d.functionIndex) + (Write32(d.instructionIndex) + (Write32(d.line) + Write32(d.column)))
  }

  function ReadLine(bytes: seq<Byte>, off: nat): Parsed<DebugLine> {
    var (f, o1) :- Read32(bytes, off);
    var (i, o2) :- Read32(bytes, o1);
    var (l, o3) :- Read32(bytes, o2);
    var (c, o4) :- Read32(bytes, o3);
    Got(DebugLine(f, i, l, c), o4)
  }

  predicate Anything<T>(x: T) { true }

  lemma LinesBack(bytes: seq<Byte>)
    ensures TakesBack(WriteLine, ReadLine, Same, Anything, bytes)
  {
    hide Write32, Read32, At;
    forall d: DebugLine, off: nat | At(bytes, off, WriteLine(d)) ensures ReadLine(bytes, off) == Got(d, off + 16) {
      var w1, w2, w3, w4 := Write32(d.functionIndex), Write32(d.instructionIndex), Write32(d.line), Write32(d.column);
      SplitAt(bytes, off, w1, w2 + (w3 + w4));
      SplitAt(bytes, off + 4, w2, w3 + w4);
      SplitAt(bytes, off + 8, w3, w4);
      Field32(bytes, off, d.functionIndex);
      Field32(bytes, off + 4, d.instructionIndex);
      Field32(bytes, off + 8, d.line);
      Field32(bytes, off + 12, d.column);
    }
  }

  // ---- Foreign functions ----------------------------------------------------------------------------------------

  datatype AbiType = AbiType(kind: U8, ownership: U8, passing: U8, structIndex: U32, size: U32)

  datatype StructField = StructField(offset: U32, type_: AbiType)

  datatype StructLayout = StructLayout(name: string, size: U32, alignment: U32, fields: seq<StructField>)

  datatype Signature = Signature(name: string, convention: U8, returnType: AbiType, params: seq<AbiType>)

  function WriteAbiType(t: AbiType): (w: seq<Byte>)
    ensures |w| == 12
  {
    Write8(t.kind) + (Write8(t.ownership) + (Write8(t.passing) +
      (Write8(0) + (Write32(t.structIndex) + Write32(t.size)))))
  }

  function ReadAbiType(bytes: seq<Byte>, off: nat): Parsed<AbiType> {
    var (kind, o1) :- Read8(bytes, off);
    var (ownership, o2) :- Read8(bytes, o1);
    var (passing, o3) :- Read8(bytes, o2);
    var (_, o4) :- Read8(bytes, o3);
    var (index, o5) :- Read32(bytes, o4);
    var (size, o6) :- Read32(bytes, o5);
    Got(AbiType(kind, ownership, passing, index, size), o6)
  }

  lemma AbiTypeRead(bytes: seq<Byte>, off: nat, t: AbiType)
    requires At(bytes, off, WriteAbiType(t))
    ensures ReadAbiType(bytes, off) == Got(t, off + 12)
  {
    hide Write8, Write32, Read8, Read32, At;
    var w1, w2, w3, w4, w5, w6 := Write8(t.kind), Write8(t.ownership), Write8(t.passing), Write8(0),
                                  Write32(t.structIndex), Write32(t.size);
    SplitAt(bytes, off, w1, w2 + (w3 + (w4 + (w5 + w6))));
    SplitAt(bytes, off + 1, w2, w3 + (w4 + (w5 + w6)));
    SplitAt(bytes, off + 2, w3, w4 + (w5 + w6));
    SplitAt(bytes, off + 3, w4, w5 + w6);
    SplitAt(bytes, off + 4, w5, w6);
    Field8(bytes, off, t.kind);
    Field8(bytes, off + 1, t.ownership);
    Field8(bytes, off + 2, t.passing);
    Field8(bytes, off + 3, 0);
    Field32(bytes, off + 4, t.structIndex);
    Field32(bytes, off + 8, t.size);
  }

  lemma AbiTypesBack(bytes: seq<Byte>)
    ensures TakesBack(WriteAbiType, ReadAbiType, Same, Anything, bytes)
  {
    hide At, WriteAbiType, ReadAbiType;
    forall t: AbiType, o: nat | At(bytes, o, WriteAbiType(t)) ensures ReadAbiType(bytes, o) == Got(t, o + 12) {
      AbiTypeRead(bytes, o, t);
    }
  }

  function WriteField(f: StructField): seq<Byte> { Write32(f.offset) + WriteAbiType(f.type_) }

  function ReadField(bytes: seq<Byte>, off: nat): Parsed<StructField> {
    var (offset, o1) :- Read32(bytes, off);
    var (t, o2) :- ReadAbiType(bytes, o1);
    Got(StructField(offset, t), o2)
  }

  lemma FieldsBack(bytes: seq<Byte>)
    ensures TakesBack(WriteField, ReadField, Same, Anything, bytes)
  {
    hide At, WriteAbiType, ReadAbiType, Write32, Read32;
    forall f: StructField, o: nat | At(bytes, o, WriteField(f)) ensures ReadField(bytes, o) == Got(f, o + 16) {
      SplitAt(bytes, o, Write32(f.offset), WriteAbiType(f.type_));
      Field32(bytes, o, f.offset);
      AbiTypeRead(bytes, o + 4, f.type_);
    }
  }

  function WriteStruct(l: StructLayout): seq<Byte> {
    WriteString(l.name) + (Write32(l.size) + (Write32(l.alignment) + WriteList(WriteField, l.fields)))
  }

  function ReadStruct(bytes: seq<Byte>, off: nat): Parsed<StructLayout> {
    var (name, o1) :- ReadString(bytes, off);
    var (size, o2) :- Read32(bytes, o1);
    var (alignment, o3) :- Read32(bytes, o2);
    var (fields, o4) :- ReadList(ReadField, bytes, o3);
    Got(StructLayout(name, size, alignment, fields), o4)
  }

  predicate StructFits(l: StructLayout) { Narrow(l.name) && |l.fields| < 0x1_0000_0000 }

  lemma StructRead(bytes: seq<Byte>, off: nat, l: StructLayout)
    requires StructFits(l) && At(bytes, off, WriteStruct(l))
    ensures ReadStruct(bytes, off) == Got(l, off + |WriteStruct(l)|)
  {
    hide At, WriteString, ReadString, Write32, Read32, WriteList, ReadList, WriteField, ReadField, Narrow;
    var w1, w2, w3, w4 := WriteString(l.name), Write32(l.size), Write32(l.alignment), WriteList(WriteField, l.fields);
    var o1 := off + |w1|;
    SplitAt(bytes, off, w1, w2 + (w3 + w4));
    SplitAt(bytes, o1, w2, w3 + w4);
    SplitAt(bytes, o1 + 4, w3, w4);
    StringRead(bytes, off, l.name);
    Field32(bytes, o1, l.size);
    Field32(bytes, o1 + 4, l.alignment);
    FieldsBack(bytes);
    ListRead(WriteField, ReadField, Same, Anything, bytes, o1 + 8, l.fields);
    SameNormal(l.fields);
  }

  lemma StructsBack(bytes: seq<Byte>)
    ensures TakesBack(WriteStruct, ReadStruct, Same, StructFits, bytes)
  {
    hide At, WriteStruct, ReadStruct, StructFits;
    forall l: StructLayout, o: nat | StructFits(l) && At(bytes, o, WriteStruct(l))
      ensures ReadStruct(bytes, o) == Got(l, o + |WriteStruct(l)|)
    {
      StructRead(bytes, o, l);
    }
  }

  function WriteSignature(s: Signature): seq<Byte> {
    WriteString(s.name) + (Write8(s.convention) + (Write8(0) + (Write16(0) +
      (WriteAbiType(s.returnType) + WriteList(WriteAbiType, s.params)))))
  }

  function ReadSignature(bytes: seq<Byte>, off: nat): Parsed<Signature> {
    var (name, o1) :- ReadString(bytes, off);
    var (convention, o2) :- Read8(bytes, o1);
    var (_, o3) :- Read8(bytes, o2);
    var (_, o4) :- Read16(bytes, o3);
    var (t, o5) :- ReadAbiType(bytes, o4);
    var (params, o6) :- ReadList(ReadAbiType, bytes, o5);
    Got(Signature(name, convention, t, params), o6)
  }

  predicate SignatureFits(s: Signature) { Narrow(s.name) && |s.params| < 0x1_0000_0000 }

  lemma SignatureRead(bytes: seq<Byte>, off: nat, s: Signature)
    requires SignatureFits(s) && At(bytes, off, WriteSignature(s))
    ensures ReadSignature(bytes, off) == Got(s, off + |WriteSignature(s)|)
  {
    hide At, WriteString, ReadString, Write8, Read8, Write16, Read16, WriteList, ReadList, WriteAbiType, ReadAbiType,
         Narrow;
    var w1, w2, w3, w4, w5, w6 := WriteString(s.name), Write8(s.convention), Write8(0), Write16(0),
                                  WriteAbiType(s.returnType), WriteList(WriteAbiType, s.params);
    var o1 := off + |w1|;
    SplitAt(bytes, off, w1, w2 + (w3 + (w4 + (w5 + w6))));
    SplitAt(bytes, o1, w2, w3 + (w4 + (w5 + w6)));
    SplitAt(bytes, o1 + 1, w3, w4 + (w5 + w6));
    SplitAt(bytes, o1 + 2, w4, w5 + w6);
    SplitAt(bytes, o1 + 4, w5, w6);
    StringRead(bytes, off, s.name);
    Field8(bytes, o1, s.convention);
    Field8(bytes, o1 + 1, 0);
    Field16(bytes, o1 + 2, 0);
    AbiTypeRead(bytes, o1 + 4, s.returnType);
    AbiTypesBack(bytes);
    ListRead(WriteAbiType, ReadAbiType, Same, Anything, bytes, o1 + 16, s.params);
    SameNormal(s.params);
  }

  lemma SignaturesBack(bytes: seq<Byte>)
    ensures TakesBack(WriteSignature, ReadSignature, Same, SignatureFits, bytes)
  {
    hide At, WriteSignature, ReadSignature, SignatureFits;
    forall s: Signature, o: nat | SignatureFits(s) && At(bytes, o, WriteSignature(s))
      ensures ReadSignature(bytes, o) == Got(s, o + |WriteSignature(s)|)
    {
      SignatureRead(bytes, o, s);
    }
  }

  function WriteBinding(b: FfiBinding): seq<Byte> {
    WriteString(b.vmSymbol) + (WriteString(b.nativeSymbol) + (Write32(b.library) + Write32(b.signature)))
  }

  function ReadBinding(bytes: seq<Byte>, off: nat): Parsed<FfiBinding> {
    var (vm, o1) :- ReadString(bytes, off);
    var (native, o2) :- ReadString(bytes, o1);
    var (library, o3) :- Read32(bytes, o2);
    var (signature, o4) :- Read32(bytes, o3);
    Got(FfiBinding(vm, native, library, signature), o4)
  }

  predicate BindingFits(b: FfiBinding) {
    Narrow(b.vmSymbol) && Narrow(b.nativeSymbol) && b.library < 0x1_0000_0000 && b.signature < 0x1_0000_0000
  }

  lemma BindingsBack(bytes: seq<Byte>)
    ensures TakesBack(WriteBinding, ReadBinding, Same, BindingFits, bytes)
  {
    hide At, WriteString, ReadString, Write32, Read32, Narrow;
    forall b: FfiBinding, off: nat | BindingFits(b) && At(bytes, off, WriteBinding(b))
      ensures ReadBinding(bytes, off) == Got(b, off + |WriteBinding(b)|)
    {
      var w1, w2, w3, w4 := WriteString(b.vmSymbol), WriteString(b.nativeSymbol), Write32(b.library),
          Write32(b.signature);
      var o1 := off + |w1|;
      var o2 := o1 + |w2|;
      SplitAt(bytes, off, w1, w2 + (w3 + w4));
      SplitAt(bytes, o1, w2, w3 + w4);
      SplitAt(bytes, o2, w3, w4);
      StringRead(bytes, off, b.vmSymbol);
      StringRead(bytes, o1, b.nativeSymbol);
      Field32(bytes, o2, b.library);
      Field32(bytes, o2 + 4, b.signature);
    }
  }

  // ---- Classes ------------------------------------------------------------------------------------------------

  function WriteMethod(d: MethodDecl): seq<Byte> {
    WriteString(d.name) + (Write32(d.function_) + (Write8(d.access) + (Write8(Bit(d.isVirtual)) + Write16(0))))
  }

  function ReadMethod(bytes: seq<Byte>, off: nat): Parsed<MethodDecl> {
    var (name, o1) :- ReadString(bytes, off);
    var (index, o2) :- Read32(bytes, o1);
    var (access, o3) :- Read8(bytes, o2);
    var (isVirtual, o4) :- Read8(bytes, o3);
    var (_, o5) :- Read16(bytes, o4);
    if access > 2 then Bad else Got(MethodDecl(name, index, access, isVirtual != 0), o5)
  }

  predicate MethodFits(d: MethodDecl) { Narrow(d.name) && d.function_ < 0x1_0000_0000 && d.access <= 2 }

  lemma MethodsBack(bytes: seq<Byte>)
    ensures TakesBack(WriteMethod, ReadMethod, Same, MethodFits, bytes)
  {
    hide At, WriteString, ReadString, Write32, Read32, Write8, Read8, Write16, Read16, Narrow;
    forall d: MethodDecl, off: nat | MethodFits(d) && At(bytes, off, WriteMethod(d))
      ensures ReadMethod(bytes, off) == Got(d, off + |WriteMethod(d)|)
    {
      var w1, w2, w3, w4, w5 := WriteString(d.name), Write32(d.function_), Write8(d.access), Write8(Bit(d.isVirtual)),
                                Write16(0);
      var o1 := off + |w1|;
      SplitAt(bytes, off, w1, w2 + (w3 + (w4 + w5)));
      SplitAt(bytes, o1, w2, w3 + (w4 + w5));
      SplitAt(bytes, o1 + 4, w3, w4 + w5);
      SplitAt(bytes, o1 + 5, w4, w5);
      StringRead(bytes, off, d.name);
      Field32(bytes, o1, d.function_);
      Field8(bytes, o1 + 4, d.access);
      Field8(bytes, o1 + 5, Bit(d.isVirtual));
      Field16(bytes, o1 + 6, 0);
    }
  }

  lemma StringsBack(bytes: seq<Byte>)
    ensures TakesBack(WriteString, ReadString, Same, Narrow, bytes)
  {
    hide At, WriteString, ReadString, Narrow;
    forall s: string, o: nat | Narrow(s) && At(bytes, o, WriteString(s))
      ensures ReadString(bytes, o) == Got(s, o + |WriteString(s)|)
    {
      StringRead(bytes, o, s);
    }
  }

  function WriteClass(c: ClassDecl): seq<Byte> {
    WriteString(c.name) + (WriteList(WriteString, c.bases) + WriteList(WriteMethod, c.methods))
  }

  function ReadClass(bytes: seq<Byte>, off: nat): Parsed<ClassDecl> {
    var (name, o1) :- ReadString(bytes, off);
    var (bases, o2) :- ReadList(ReadString, bytes, o1);
    var (methods, o3) :- ReadList(ReadMethod, bytes, o2);
    Got(ClassDecl(name, bases, methods), o3)
  }

  predicate ClassFits(c: ClassDecl) {
    && Narrow(c.name) && |c.bases| < 0x1_0000_0000 && |c.methods| < 0x1_0000_0000
    && (forall k :: 0 <= k < |c.bases| ==> Narrow(c.bases[k]))
    && (forall k :: 0 <= k < |c.methods| ==> MethodFits(c.methods[k]))
  }

  lemma ClassRead(bytes: seq<Byte>, off: nat, c: ClassDecl)
    requires ClassFits(c) && At(bytes, off, WriteClass(c))
    ensures ReadClass(bytes, off) == Got(c, off + |WriteClass(c)|)
  {
    hide At, WriteString, ReadString, WriteList, ReadList, WriteMethod, ReadMethod, Narrow, MethodFits;
    var w1, w2, w3 := WriteString(c.name), WriteList(WriteString, c.bases), WriteList(WriteMethod, c.methods);
    var o1 := off + |w1|;
    SplitAt(bytes, off, w1, w2 + w3);
    SplitAt(bytes, o1, w2, w3);
    StringRead(bytes, off, c.name);
    StringsBack(bytes);
    ListRead(WriteString, ReadString, Same, Narrow, bytes, o1, c.bases);
    MethodsBack(bytes);
    ListRead(WriteMethod, ReadMethod, Same, MethodFits, bytes, o1 + |w2|, c.methods);
    SameNormal(c.bases);
    SameNormal(c.methods);
  }

  lemma ClassesBack(bytes: seq<Byte>)
    ensures TakesBack(WriteClass, ReadClass, Same, ClassFits, bytes)
  {
    hide At, WriteClass, ReadClass, ClassFits;
    forall c: ClassDecl, o: nat | ClassFits(c) && At(bytes, o, WriteClass(c))
      ensures ReadClass(bytes, o) == Got(c, o + |WriteClass(c)|)
    {
      ClassRead(bytes, o, c);
    }
  }

  lemma ConstantsBack(bytes: seq<Byte>)
    ensures TakesBack(WriteConstant, ReadConstant, Same, ConstantFits, bytes)
  {
    hide At, WriteConstant, ReadConstant, ConstantFits;
    forall c: Constant, o: nat | ConstantFits(c) && At(bytes, o, WriteConstant(c))
      ensures ReadConstant(bytes, o) == Got(c, o + |WriteConstant(c)|)
    {
      ConstantRead(bytes, o, c);
    }
  }

  lemma FunctionsBack(bytes: seq<Byte>)
    ensures TakesBack(WriteFunction, ReadFunction, Flattened, FunctionFits, bytes)
  {
    hide At, WriteFunction, ReadFunction, FunctionFits, Flattened;
    forall f: Function, o: nat | FunctionFits(f) && At(bytes, o, WriteFunction(f))
      ensures ReadFunction(bytes, o) == Got(Flattened(f), o + |WriteFunction(f)|)
    {
      FunctionRead(bytes, o, f);
    }
  }
}
