/** Constant execution: a function without inputs is run at optimization time and replaced by
    its result. */
module ConstExec {
  import opened Int64
  import opened Bytecode
  import opened Machines
  import opened Interpreter
  import opened Steps
  import opened Runs
  import opened Verifier
  import opened TrustedMode
  import opened KnownValues
  import opened SccpAnalysis
  import opened Sccp
  import Relocation
  import opened Passes

  const MAX_STEPS: nat := 200000

  predicate Eligible(f: Function) {
    && f.paramCount == 0 && !f.isVararg && f.upvalueCount == 0 && f.regCount != 0
    && (f.returnType == AnyType || f.returnType == Exactly(TInt64))
    && f.Code() != [] && TryFree(f.Code())
  }

  // One step of the compile-time interpreter.
  datatype Tried = GivesUp | StepsTo(pc: int, regs: RegState) | Yields(v: I64)

  function TryStep(code: seq<Instruction>, constants: seq<Constant>, pc: int, regs: RegState): Tried
    requires 0 <= pc < |code|
  {
    var i := code[pc];
    var after := Transfer(constants, i, regs);
    if !RegistersFit(i, |regs|) then GivesUp
    else if IsCompute(i.op) then
      if i.op != Mov && AbsCompute(i, ReadReg(regs, Operand1(i)), ReadReg(regs, Operand2(i))).Anything? then GivesUp
      else StepsTo(pc + 1, after)
    else if IsRelativeJump(i.op) then
      var t := pc + JumpDelta(i);
      if i.op != Jmp && Decision(i, regs).None? then GivesUp
      else if i.op == Jmp || Decision(i, regs).value then
        if 0 <= t < |code| then StepsTo(t, after) else GivesUp
      else StepsTo(pc + 1, after)
    else
      match i.op
      case Nop => StepsTo(pc + 1, regs)
      case LoadK => if AbsLoadK(constants, i.b).Anything? then GivesUp else StepsTo(pc + 1, after)
      case Ret => if regs[i.a].KnownInt? then Yields(regs[i.a].v) else GivesUp
      case _ => GivesUp
  }

  function TryRun(code: seq<Instruction>, constants: seq<Constant>, pc: int, regs: RegState, fuel: nat): Option<I64>
    decreases fuel
  {
    if fuel == 0 || !(0 <= pc < |code|) then None
    else
      match TryStep(code, constants, pc, regs)
      case GivesUp => None
      case Yields(v) => Some(v)
      case StepsTo(pc', regs') => TryRun(code, constants, pc', regs', fuel - 1)
  }

  method TryExecute(code: seq<Instruction>, constants: seq<Constant>, regCount: nat) returns (v: Option<I64>)
    ensures v == TryRun(code, constants, 0, AllUnknown(regCount), MAX_STEPS)
  {
    hide TryStep;
    var regs, pc, steps := AllUnknown(regCount), 0, 0;
    while 0 <= pc < |code|
      invariant 0 <= steps <= MAX_STEPS
      invariant TryRun(code, constants, 0, AllUnknown(regCount), MAX_STEPS)
             == TryRun(code, constants, pc, regs, MAX_STEPS - steps)
      decreases MAX_STEPS - steps
    {
      if steps == MAX_STEPS { return None; }
      steps := steps + 1;
      match TryStep(code, constants, pc, regs) {
        case GivesUp => return None;
        case Yields(r) => return Some(r);
        case StepsTo(pc', regs') => pc, regs := pc', regs';
      }
    }
    v := None;
  }

  // ---- The compile-time interpreter is the interpreter --------------------------------------------

  lemma ComputeGoesOn(trusted: bool, f: Frame, s: State, st: RegState)
    requires InCode(f, s) && IsCompute(f.code[s.pc].op) && RegistersFit(f.code[s.pc], |s.regs|)
    requires Describes(st, s.regs)
    requires var i := f.code[s.pc];
             i.op == Mov || !AbsCompute(i, ReadReg(st, Operand1(i)), ReadReg(st, Operand2(i))).Anything?
    ensures StepOf(trusted, f, s).Next? && StepOf(trusted, f, s).s.world == s.world
  {
    var i := f.code[s.pc];
    AbsComputeSound(i, st[Operand1(i)], st[Operand2(i)], s.regs[Operand1(i)], s.regs[Operand2(i)]);
    hide ExecBranch, ExecTry, ExecCall, ExecForeign, ExecString, ExecLoadK, ExecVarArg, ExecEnd, IntBinary;
  }

  lemma JumpGoesOn(trusted: bool, m: Module, fn: Function, f: Frame, s: State)
    requires Carries(m, fn, f) && InCode(f, s) && |s.regs| == fn.regCount && IsRelativeJump(f.code[s.pc].op)
    ensures StepOf(trusted, f, s).Next? && StepOf(trusted, f, s).s.world == s.world
  {
    hide ExecCompute, ExecTry, ExecCall, ExecForeign, ExecString, ExecLoadK, ExecVarArg, ExecEnd;
    assert InstructionOk(m, fn, f.code[s.pc], s.pc, |f.code|);
  }

  lemma PlainGoesOn(trusted: bool, f: Frame, s: State)
    requires InCode(f, s)
    requires f.code[s.pc].op == Nop ||
             (f.code[s.pc].op == LoadK && f.code[s.pc].a < |s.regs|
                 && AbsLoadK(f.constants, f.code[s.pc].b) != Anything)
    ensures StepOf(trusted, f, s).Next? && StepOf(trusted, f, s).s.world == s.world
  {
    hide ExecBranch, ExecTry, ExecCall, ExecForeign, ExecString, ExecCompute, ExecVarArg, ExecEnd;
  }

  lemma TriedStep(trusted: bool, m: Module, fn: Function, f: Frame, s: State, st: RegState)
    requires Carries(m, fn, f) && TryFree(f.code) && InCode(f, s) && |s.regs| == fn.regCount
    requires Describes(st, s.regs) && s.tries == []
    requires TryStep(f.code, f.constants, s.pc, st).StepsTo?
    ensures var r := TryStep(f.code, f.constants, s.pc, st);
            && StepOf(trusted, f, s).Next?
            && var t := StepOf(trusted, f, s).s;
               t.pc == r.pc && Describes(r.regs, t.regs) && t.world == s.world && t.tries == []
  {
    hide StepOf, Transfer, AbsCompute, RegistersFit, Describes, JumpDelta, Carries;
    var i := f.code[s.pc];
    assert |st| == |s.regs| by { DescribesSize(st, s.regs); }
    StepAccounted(trusted, m, fn, f, s, st);
    if IsCompute(i.op) {
      ComputeGoesOn(trusted, f, s, st);
    } else if IsRelativeJump(i.op) {
      JumpGoesOn(trusted, m, fn, f, s);
    } else {
      RegisterOfLoad(i, |s.regs|);
      PlainGoesOn(trusted, f, s);
      NopTransfer(f.constants, i, st);
    }
    TriedFlow(trusted, m, fn, f, s, st);
  }

  lemma RegisterOfLoad(i: Instruction, n: nat)
    requires RegistersFit(i, n)
    ensures i.op == LoadK || i.op == Ret ==> i.a < n
  {
  }

  lemma DescribesSize(st: RegState, regs: seq<Value>)
    requires Describes(st, regs)
    ensures |st| == |regs|
  {
  }

  lemma NopTransfer(constants: seq<Constant>, i: Instruction, st: RegState)
    ensures i.op == Nop ==> Transfer(constants, i, st) == st
  {
  }

  // The pc the two interpreters go to is the same.
  lemma TriedFlow(trusted: bool, m: Module, fn: Function, f: Frame, s: State, st: RegState)
    requires Carries(m, fn, f) && InCode(f, s) && |s.regs| == fn.regCount && s.tries == []
    requires Describes(st, s.regs) && TryFree(f.code)
    requires TryStep(f.code, f.constants, s.pc, st).StepsTo?
    requires StepOf(trusted, f, s).Next?
    ensures StepOf(trusted, f, s).s.pc == TryStep(f.code, f.constants, s.pc, st).pc
  {
    hide StepOf, Transfer, AbsCompute, Describes, Branch;
    var i := f.code[s.pc];
    assert InstructionOk(m, fn, i, s.pc, |f.code|);
    if IsRelativeJump(i.op) {
      DecisionTrue(i, st, s.regs);
      Relocation.JumpStep(trusted, m, fn, f, s);
    } else {
      assert s.(pc := s.pc) == s;
      Relocation.StepRelocated(trusted, f, f, s, s.pc);
    }
  }

  lemma DecisionTrue(i: Instruction, st: RegState, regs: seq<Value>)
    requires IsRelativeJump(i.op) && BranchRegsOk(i, |regs|) && Describes(st, regs)
    ensures i.op == Jmp ==> Branch(i, regs).taken
    ensures Decision(i, st).Some? ==> Branch(i, regs).taken == Decision(i, st).value
  {
  }

  lemma ReturnYields(trusted: bool, f: Frame, s: State, st: RegState)
    requires InCode(f, s) && f.code[s.pc].op == Ret && Describes(st, s.regs)
    requires f.code[s.pc].a < |st| && st[f.code[s.pc].a].KnownInt?
    requires f.returnType == AnyType || f.returnType == Exactly(TInt64)
    ensures StepOf(trusted, f, s) == Done(Returned(IntValue(st[f.code[s.pc].a].v), s.world))
  {
    hide ExecBranch, ExecTry, ExecCall, ExecForeign, ExecString, ExecCompute, ExecVarArg, ExecLoadK;
  }

  // If the compile-time run yields a value, the interpreter returns it within as many steps.
  lemma {:induction false} TriedRun(trusted: bool, m: Module, fn: Function, f: Frame, s: State, st: RegState, fuel: nat)
    requires Carries(m, fn, f) && TryFree(f.code) && |s.regs| == fn.regCount && s.tries == []
    requires f.returnType == AnyType || f.returnType == Exactly(TInt64)
    requires Describes(st, s.regs) && TryRun(f.code, f.constants, s.pc, st, fuel).Some?
    ensures Run(Activation(trusted, f), s, fuel)
         == Finished(Returned(IntValue(TryRun(f.code, f.constants, s.pc, st, fuel).value), s.world))
    decreases fuel
  {
    hide StepOf, TryStep, Describes, Carries, RegistersFit;
    match TryStep(f.code, f.constants, s.pc, st) {
      case Yields(v) =>
        YieldsAtReturn(f.code, f.constants, s.pc, st);
        DescribesSize(st, s.regs);
        ReturnYields(trusted, f, s, st);
      case StepsTo(pc, regs) =>
        TriedStep(trusted, m, fn, f, s, st);
        var t := StepOf(trusted, f, s).s;
        DescribesSize(regs, t.regs);
        DescribesSize(st, s.regs);
        StepWidth(f.code, f.constants, s.pc, st);
        TriedRun(trusted, m, fn, f, t, regs, fuel - 1);
    }
  }

  lemma StepWidth(code: seq<Instruction>, constants: seq<Constant>, pc: int, st: RegState)
    requires 0 <= pc < |code| && TryStep(code, constants, pc, st).StepsTo?
    ensures |TryStep(code, constants, pc, st).regs| == |st|
  {
  }

  lemma YieldsAtReturn(code: seq<Instruction>, constants: seq<Constant>, pc: int, st: RegState)
    requires 0 <= pc < |code| && TryStep(code, constants, pc, st).Yields?
    ensures code[pc].op == Ret && code[pc].a < |st|
    ensures st[code[pc].a] == KnownInt(TryStep(code, constants, pc, st).v)
  {
  }

  // ---- The replacement ------------------------------------------------------------------------------

  function ReturnConstant(k: U32): seq<Instruction> { [Make(LoadK, 0, k, 0), Make(Ret, 0, 0, 0)] }

  lemma ReplacementReturns(trusted: bool, f: Frame, k: U32, v: I64, s: State)
    requires f.code == ReturnConstant(k) && k < |f.constants| && f.constants[k] == IntConst(v)
    requires f.returnType == AnyType || f.returnType == Exactly(TInt64)
    requires s.pc == 0 && s.regs != [] && s.tries == []
    ensures Result(Activation(trusted, f), s) == Returned(IntValue(v), s.world)
  {
    hide StepOf;
    var t := s.(pc := 1, regs := s.regs[0 := IntValue(v)]);
    LoadIntStep(trusted, f, s, 0, v);
    ResultOfStep(Activation(trusted, f), s);
    ReturnStep(trusted, f, t);
    ResultOfStep(Activation(trusted, f), t);
  }

  lemma ReplacedFunction(trusted: bool, m: Module, m': Module, fi: nat, v: I64, k: U32)
    requires Accepted(m) && Recoded(m, m', fi) && Eligible(m.functions[fi])
    requires m'.functions[fi].regCount == m.functions[fi].regCount
    requires TryRun(m.functions[fi].Code(), m.constants, 0, AllUnknown(m.functions[fi].regCount), MAX_STEPS) == Some(v)
    requires m'.functions[fi].Code() == ReturnConstant(k) && k < |m'.constants| && m'.constants[k] == IntConst(v)
    ensures SameFunction(trusted, m, m', fi)
  {
    hide TryRun;
    var fn := m.functions[fi];
    AcceptedFunction(m, fi);
    forall closure, varargs, env, args, w
      ensures Result(Activation(trusted, FrameOf(m, fi, closure, varargs, env)), EntryState(fn.regCount, args, w))
           == Result(Activation(trusted, FrameOf(m', fi, closure, varargs, env)), EntryState(fn.regCount, args, w))
    {
      var f, f', s := FrameOf(m, fi, closure, varargs, env), FrameOf(m', fi, closure, varargs, env),
                      EntryState(fn.regCount, args, w);
      TriedRun(trusted, m, fn, f, s, AllUnknown(fn.regCount), MAX_STEPS);
      ResultIs(Activation(trusted, f), s, MAX_STEPS);
      ReplacementReturns(trusted, f', k, v, s);
    }
  }

  lemma ReplacementOk(m: Module, fn: Function, k: U32)
    requires fn.regCount > 0 && k < |m.constants|
    ensures CodeOk(m, fn, ReturnConstant(k))
  {
  }

  // The function is as it was, or was found to return `v` and now does nothing else.
  ghost predicate Replaced(m: Module, m': Module, fi: nat)
    requires fi < |m.functions| && fi < |m'.functions|
  {
    || m'.functions == m.functions
    || exists v: I64, k: U32 :: ReplacedBy(m, m', fi, v, k)
  }

  predicate ReplacedBy(m: Module, m': Module, fi: nat, v: I64, k: U32)
    requires fi < |m.functions| && fi < |m'.functions|
  {
    var fn := m.functions[fi];
    && Eligible(fn) && TryRun(fn.Code(), m.constants, 0, AllUnknown(fn.regCount), MAX_STEPS) == Some(v)
    && m'.functions[fi].Code() == ReturnConstant(k) && k < |m'.constants|
    && (Indexable(m'.constants) ==> m'.constants[k] == IntConst(v))
  }

  // If the function is folded, its runs return the constant, as they always did.
  method RunO3ConstExecPass(ws: Workspace, fi: nat) returns (changed: bool)
    requires ws.Valid() && Accepted(ws.View()) && fi < |ws.functions|
    modifies ws
    ensures ws.Valid() && Accepted(ws.View()) && Recoded(old(ws.View()), ws.View(), fi)
    ensures |ws.constants| <= |old(ws.constants)| + 1
    ensures ws.functions[fi].regCount == old(ws.functions)[fi].regCount
    ensures Replaced(old(ws.View()), ws.View(), fi)
    ensures Indexable(ws.constants) ==> forall trusted :: SameFunction(trusted, old(ws.View()), ws.View(), fi)
  {
    hide Accepted, TryRun, CodeOk;
    ghost var m := ws.View();
    AcceptedFunction(m, fi);
    changed := false;
    var f := ws.functions[fi];
    if Eligible(f) {
      var code := f.Code();
      var v := TryExecute(code, ws.constants, f.regCount);
      if v.Some? {
        var k := ws.GetOrAddInt64Constant(v.value);
        if code == ReturnConstant(k) {
          assert ws.functions == old(ws.functions);
        } else {
          ws.Install(fi, ReturnConstant(k));
          changed := true;
        }
        assert ReplacedBy(m, ws.View(), fi, v.value, k);
        ReplacementOk(ws.View(), ws.View().functions[fi], k);
        RecodedAccepted(m, ws.View(), fi);
        if Indexable(ws.constants) {
          forall trusted ensures SameFunction(trusted, m, ws.View(), fi) {
            ReplacedFunction(trusted, m, ws.View(), fi, v.value, k);
          }
        }
      }
    }
  }
}
