/** What the folding passes may know about a register, and rewriting one instruction from
    that knowledge. */
module KnownValues {
  import opened Int64
  import opened Bytecode
  import opened Machines
  import opened Interpreter
  import opened Steps
  import opened Verifier
  import opened TrustedMode

  datatype Known = Anything | KnownInt(v: I64) | KnownBool(b: bool)

  predicate Fits(k: Known, v: Value) {
    match k
    case Anything => true
    case KnownInt(n) => v == IntValue(n)
    case KnownBool(b) => v == BoolValue(b)
  }

  predicate KnownTruthy(k: Known) {
    match k
    case Anything => false
    case KnownInt(n) => n != 0
    case KnownBool(b) => b
  }

  // The knowledge about the result of a computing instruction.
  function AbsCompute(i: Instruction, x: Known, y: Known): Known
    requires IsCompute(i.op)
  {
    if i.op == Mov then x
    else if i.op == BitNot then Anything
    else if IsIntUnary(i.op) then if x.KnownInt? then KnownInt(IntUnary(i, x.v)) else Anything
    else if !(x.KnownInt? && y.KnownInt?) then Anything
    else if i.op == CmpEq then KnownBool(x.v == y.v)
    else
      match IntBinary(i.op, x.v, y.v)
      case None => Anything
      case Some(v) => KnownInt(v)
  }

  function AbsLoadK(constants: seq<Constant>, k: U32): Known {
    if k < |constants| && constants[k].IntConst? then KnownInt(constants[k].v) else Anything
  }

  // How a folding pass rewrites an instruction.
  datatype Rewrite = Keep | LoadInt(v: I64) | AlwaysJump | NeverJump

  // `x` and `y` are what is known about the two operands; for a conditional jump `x` is
  // what is known about its condition.
  function Fold(i: Instruction, x: Known, y: Known): Rewrite {
    if IsCompute(i.op) then
      if i.op == CmpEq then Keep
      else
        match AbsCompute(i, x, y)
        case KnownInt(v) => LoadInt(v)
        case _ => Keep
    else if i.op == JmpIf then
      if x.Anything? then Keep else if KnownTruthy(x) then AlwaysJump else NeverJump
    else if i.op == JmpIfZero || i.op == JmpIfNotZero then
      if x.KnownInt? then if (x.v == 0) == (i.op == JmpIfZero) then AlwaysJump else NeverJump
      else Keep
    else Keep
  }

  // Constant indices are 32 bits wide; beyond that they would wrap around.
  predicate Indexable(constants: seq<Constant>) { |constants| <= 0x1_0000_0000 }

  // `i'` is instruction `i` rewritten as `r` says, over constants `constants`.
  predicate Realizes(r: Rewrite, i: Instruction, i': Instruction, constants: seq<Constant>) {
    match r
    case Keep => i' == i
    case LoadInt(v) =>
      && i' == Make(LoadK, i.a, i'.b, 0) && i'.b < |constants|
      && (Indexable(constants) ==> constants[i'.b] == IntConst(v))
    case AlwaysJump => i' == Make(Jmp, i.b, 0, 0)
    case NeverJump => i' == NOP
  }

  lemma AbsComputeSound(i: Instruction, x: Known, y: Known, vx: Value, vy: Value)
    requires IsCompute(i.op) && Fits(x, vx) && Fits(y, vy)
    ensures Compute(i, vx, vy).Some? ==> Fits(AbsCompute(i, x, y), Compute(i, vx, vy).value)
    ensures AbsCompute(i, x, y).KnownInt? ==> Compute(i, vx, vy).Some?
  {
  }

  // Whatever is known is used: an integer operation on known operands is replaced by the load of
  // what it computes, unless that divides by zero, and a test of a known integer is decided.
  lemma FoldsTheKnown(i: Instruction, x: I64, y: I64)
    requires IsIntBinary(i.op) || IsIntUnary(i.op)
    ensures Fold(i, KnownInt(x), KnownInt(y)) ==
              match Compute(i, IntValue(x), IntValue(y))
              case Some(v) => LoadInt(v.bits)
              case None => Keep
  {
  }

  lemma DecidesTheKnown(i: Instruction, x: I64, regs: seq<Value>)
    requires i.op == JmpIf || i.op == JmpIfZero || i.op == JmpIfNotZero
    requires i.a < |regs| && regs[i.a] == IntValue(x)
    ensures Fold(i, KnownInt(x), Anything) == if Branch(i, regs).taken then AlwaysJump else NeverJump
  {
  }

  // ---- One step of rewritten code -----------------------------------------------------------

  // The second frame runs other code of the same length over an extended constant pool.
  ghost predicate Recodes(f: Frame, f': Frame) {
    && |f'.code| == |f.code| && f.constants <= f'.constants
    && f' == f.(code := f'.code, constants := f'.constants)
  }

  lemma {:induction false} SameVarArg(trusted: bool, f: Frame, f': Frame, i: Instruction, k: nat, s: State)
    requires k <= i.c && f.varargs == f'.varargs
    ensures ExecVarArg(trusted, f, i, k, s) == ExecVarArg(trusted, f', i, k, s)
    decreases i.c - k
  {
    if k < i.c && AddU32(i.a, k) < |s.regs| {
      var source := AddU32(i.b, k);
      var v := if source < |f.varargs| then f.varargs[source] else NULL;
      SameVarArg(trusted, f, f', i, k + 1, s.(regs := s.regs[AddU32(i.a, k) := v]));
    }
  }

  lemma KeptGroups(trusted: bool, m: Module, fn: Function, f: Frame, f': Frame, i: Instruction, p: int, s: State)
    requires Carries(m, fn, f) && Recodes(f, f') && InstructionOk(m, fn, i, p, |f.code|)
    ensures IsCall(i.op) ==> ExecCall(trusted, f, i, s) == ExecCall(trusted, f', i, s)
    ensures IsForeign(i.op) ==> ExecForeign(trusted, f, i, s) == ExecForeign(trusted, f', i, s)
    ensures i.op == LoadK ==> ExecLoadK(trusted, f, i, s) == ExecLoadK(trusted, f', i, s)
    ensures ExecEnd(trusted, f, i, s) == ExecEnd(trusted, f', i, s)
  {
    hide Receive, Forward, WindowOk, Window, AddU32, Intern, RegistersFit;
    if IsForeign(i.op) {
      assert Symbol(f, i.b) == Symbol(f', i.b) || !(i.op == FfiCall || i.op == NewObject || i.op == Invoke);
      hide Symbol, IsSymbol;
    }
  }

  // An instruction that was kept does what it did.
  lemma KeptStep(trusted: bool, m: Module, fn: Function, f: Frame, f': Frame, s: State)
    requires Carries(m, fn, f) && Recodes(f, f') && InCode(f, s) && f'.code[s.pc] == f.code[s.pc]
    ensures StepOf(trusted, f, s) == StepOf(trusted, f', s)
  {
    var i := f.code[s.pc];
    assert InstructionOk(m, fn, i, s.pc, |f.code|);
    SameVarArg(trusted, f, f', i, 0, s);
    KeptGroups(trusted, m, fn, f, f', i, s.pc, s);
    ExecGroups(trusted, f, s);
    ExecGroups(trusted, f', s);
    hide *;
    SameEffect(trusted, f, f', s);
  }

  // Rewriting from true knowledge changes no step.
  lemma FoldedStep(
      trusted: bool, m: Module, fn: Function, f: Frame, f': Frame, s: State, x: Known, y: Known)
    requires Carries(m, fn, f) && Recodes(f, f') && InCode(f, s) && |s.regs| == fn.regCount
    requires Indexable(f'.constants)
    requires Realizes(Fold(f.code[s.pc], x, y), f.code[s.pc], f'.code[s.pc], f'.constants)
    requires var i := f.code[s.pc];
             if IsCompute(i.op) then Fits(x, s.regs[Operand1(i)]) && Fits(y, s.regs[Operand2(i)])
             else IsRelativeJump(i.op) && i.op != Jmp ==> Fits(x, s.regs[i.a])
    ensures StepOf(trusted, f, s) == StepOf(trusted, f', s)
  {
    var i := f.code[s.pc];
    assert InstructionOk(m, fn, i, s.pc, |f.code|);
    hide StepOf, AbsCompute;
    if Fold(i, x, y).Keep? {
      KeptStep(trusted, m, fn, f, f', s);
    } else if IsCompute(i.op) {
      LoadedStep(trusted, f, f', s, x, y);
    } else {
      DecidedStep(trusted, f, f', s, x);
    }
  }

  // A known result is loaded.
  lemma LoadedStep(trusted: bool, f: Frame, f': Frame, s: State, x: Known, y: Known)
    requires InCode(f, s) && InCode(f', s) && Indexable(f'.constants) && IsCompute(f.code[s.pc].op)
    requires RegistersFit(f.code[s.pc], |s.regs|)
    requires var i := f.code[s.pc];
             && AbsCompute(i, x, y).KnownInt?
             && Realizes(LoadInt(AbsCompute(i, x, y).v), i, f'.code[s.pc], f'.constants)
             && Fits(x, s.regs[Operand1(i)]) && Fits(y, s.regs[Operand2(i)])
    ensures StepOf(trusted, f, s) == StepOf(trusted, f', s)
  {
    hide StepOf, AbsCompute, Compute, Operand1, Operand2;
    var i := f.code[s.pc];
    AbsComputeSound(i, x, y, s.regs[Operand1(i)], s.regs[Operand2(i)]);
    ComputeStep(trusted, f, s);
    LoadIntStep(trusted, f', s, i.a, AbsCompute(i, x, y).v);
  }

  // A known decision is taken.
  lemma DecidedStep(trusted: bool, f: Frame, f': Frame, s: State, x: Known)
    requires InCode(f, s) && InCode(f', s) && |f.code| == |f'.code| && BranchRegsOk(f.code[s.pc], |s.regs|)
    requires f.code[s.pc].op == JmpIf || f.code[s.pc].op == JmpIfZero || f.code[s.pc].op == JmpIfNotZero
    requires 0 <= s.pc + JumpDelta(f.code[s.pc]) < |f.code| && Fits(x, s.regs[f.code[s.pc].a])
    requires !Fold(f.code[s.pc], x, x).Keep?
    requires Realizes(Fold(f.code[s.pc], x, x), f.code[s.pc], f'.code[s.pc], f'.constants)
    ensures StepOf(trusted, f, s) == StepOf(trusted, f', s)
  {
    hide StepOf, Fold, Realizes, Branch, JumpDelta, Fits;
    DecidedBranch(f.code[s.pc], f'.code[s.pc], s.regs, x, f'.constants);
    BranchStep(trusted, f, s);
    if f'.code[s.pc] == NOP { NopStep(trusted, f', s); } else { BranchStep(trusted, f', s); }
  }

  lemma DecidedBranch(i: Instruction, i': Instruction, regs: seq<Value>, x: Known, constants: seq<Constant>)
    requires (i.op == JmpIf || i.op == JmpIfZero || i.op == JmpIfNotZero) && i.a < |regs| && Fits(x, regs[i.a])
    requires !Fold(i, x, x).Keep? && Realizes(Fold(i, x, x), i, i', constants)
    ensures Branch(i, regs).regs == regs
    ensures if Branch(i, regs).taken
            then i'.op == Jmp && JumpDelta(i') == JumpDelta(i) && Branch(i', regs) == Branched(regs, true)
            else i' == NOP
  {
  }

  // Rewritten instructions stay acceptable, whatever was known.
  lemma RealizedOk(
      m: Module, fn: Function, m': Module, r: Rewrite, i: Instruction, i': Instruction, pc: int, size: nat)
    requires InstructionOk(m, fn, i, pc, size) && Realizes(r, i, i', m'.constants)
    requires r == Keep ==> InstructionOk(m', fn, i, pc, size)
    requires r.LoadInt? ==> IsCompute(i.op)
    requires r.AlwaysJump? ==> i.op == JmpIf || i.op == JmpIfZero || i.op == JmpIfNotZero
    ensures InstructionOk(m', fn, i', pc, size)
  {
  }
}
