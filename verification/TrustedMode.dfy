/** Accepted code needs no run-time bounds checks: the interpreter that makes them and the
    one that trusts its input run every accepted module alike. */
module TrustedMode {
  import opened Int64
  import opened Bytecode
  import opened Machines
  import opened Interpreter
  import opened Steps
  import opened Runs
  import opened Verifier

  lemma WindowsFit(base: U32, count: nat, n: nat)
    requires WindowFits(base, count, n)
    ensures WindowOk(AddU32(base, 1), count, n)
  {
  }

  lemma CapturesFit(base: U32, count: nat, n: nat)
    requires count > 0 ==> WindowFits(base, count - 1, n)
    ensures WindowOk(base, count, n)
  {
  }

  // The frame runs accepted code of function `fn` of module `m`.
  ghost predicate Carries(m: Module, fn: Function, f: Frame) {
    f.constants == m.constants && f.functionCount == |m.functions| && CodeOk(m, fn, f.code)
  }

  lemma {:induction false} VarArgInBounds(f: Frame, i: Instruction, k: nat, s: State)
    requires k <= i.c && (i.c > 0 ==> WindowFits(i.a, i.c - 1, |s.regs|))
    ensures ExecVarArg(true, f, i, k, s) == ExecVarArg(false, f, i, k, s)
    ensures ExecVarArg(true, f, i, k, s).Go? && |ExecVarArg(true, f, i, k, s).s.regs| == |s.regs|
    ensures ExecVarArg(true, f, i, k, s).s.pc == s.pc + 1
    decreases i.c - k
  {
    if k < i.c {
      var source := AddU32(i.b, k);
      var v := if source < |f.varargs| then f.varargs[source] else NULL;
      assert AddU32(i.a, k) < |s.regs|;
      VarArgInBounds(f, i, k + 1, s.(regs := s.regs[AddU32(i.a, k) := v]));
    }
  }

  // One instruction of accepted code: the checks never fire, nothing is out of bounds, and
  // the number of registers stays.
  ghost predicate InBounds(e: Effect, e': Effect, n: nat) {
    && e == e'
    && (e.Go? ==> |e.s.regs| == n)
    && (e.Raise? ==> |e.s.regs| == n)
  }

  lemma CallInBounds(f: Frame, i: Instruction, s: State)
    requires IsCall(i.op) && RegistersFit(i, |s.regs|)
    ensures InBounds(ExecCall(true, f, i, s), ExecCall(false, f, i, s), |s.regs|)
  {
    WindowsFit(i.a, i.c, |s.regs|);
  }

  lemma ForeignInBounds(f: Frame, i: Instruction, s: State)
    requires IsForeign(i.op) && RegistersFit(i, |s.regs|)
    ensures InBounds(ExecForeign(true, f, i, s), ExecForeign(false, f, i, s), |s.regs|)
  {
    if i.op == Closure {
      CapturesFit(i.c, i.flags, |s.regs|);
    } else if i.op == FfiCall || i.op == Invoke {
      WindowsFit(i.a, i.c, |s.regs|);
    }
  }

  lemma CarriedInside(m: Module, fn: Function, f: Frame, s: State)
    requires Carries(m, fn, f) && InCode(f, s)
    ensures 0 <= s.pc < |f.code| && RegistersFit(f.code[s.pc], fn.regCount)
    ensures TargetsFit(f.code[s.pc], s.pc, |f.code|) && ReferencesFit(m, fn, f.code[s.pc])
    ensures f.code[s.pc].op == LoadK ==> f.code[s.pc].b < |f.constants|
    ensures f.constants == m.constants && f.functionCount == |m.functions|
  {
    hide RegistersFit, TargetsFit;
    assert InstructionOk(m, fn, f.code[s.pc], s.pc, |f.code|);
  }

  lemma GroupsInBounds(f: Frame, i: Instruction, s: State)
    requires RegistersFit(i, |s.regs|) && TargetsFit(i, s.pc, |f.code|) && (i.op == LoadK ==> i.b < |f.constants|)
    ensures IsCompute(i.op) ==> InBounds(ExecCompute(true, i, s), ExecCompute(false, i, s), |s.regs|)
    ensures IsRelativeJump(i.op) ==>
              InBounds(ExecBranch(true, |f.code|, i, s), ExecBranch(false, |f.code|, i, s), |s.regs|)
    ensures IsTryOpcode(i.op) ==> InBounds(ExecTry(|f.code|, i, s), ExecTry(|f.code|, i, s), |s.regs|)
    ensures IsCall(i.op) ==> InBounds(ExecCall(true, f, i, s), ExecCall(false, f, i, s), |s.regs|)
    ensures IsForeign(i.op) ==> InBounds(ExecForeign(true, f, i, s), ExecForeign(false, f, i, s), |s.regs|)
    ensures i.op == LoadK ==> InBounds(ExecLoadK(true, f, i, s), ExecLoadK(false, f, i, s), |s.regs|)
    ensures i.op == StrLen || i.op == StrConcat ==> InBounds(ExecString(true, i, s), ExecString(false, i, s), |s.regs|)
    ensures InBounds(Go(s.(pc := s.pc + 1)), Go(s.(pc := s.pc + 1)), |s.regs|)
    ensures InBounds(Raise(UnknownOpcode, s), Raise(UnknownOpcode, s), |s.regs|)
    ensures i.op == VarArg ==> InBounds(ExecVarArg(true, f, i, 0, s), ExecVarArg(false, f, i, 0, s), |s.regs|)
    ensures i.op == Ret || i.op == Throw || i.op == Halt ==>
              InBounds(ExecEnd(true, f, i, s), ExecEnd(false, f, i, s), |s.regs|)
  {
    hide ExecCall, ExecForeign, ExecVarArg, Compute, Operand1, Operand2, Branch, Intern, Resolve, Matches, JumpDelta;
    if IsCall(i.op) { CallInBounds(f, i, s); }
    if IsForeign(i.op) { ForeignInBounds(f, i, s); }
    if i.op == VarArg { VarArgInBounds(f, i, 0, s); }
  }

  lemma InstructionInBounds(m: Module, fn: Function, f: Frame, s: State)
    requires Carries(m, fn, f) && InCode(f, s) && |s.regs| == fn.regCount
    ensures InBounds(Exec(true, f, s), Exec(false, f, s), |s.regs|)
  {
    hide *;
    CarriedInside(m, fn, f, s);
    var i := f.code[s.pc];
    ExecGroups(true, f, s);
    ExecGroups(false, f, s);
    GroupsInBounds(f, i, s);
  }

  lemma {:induction false} UnwindKeeps(fault: Fault, s: State)
    requires Unwind(fault, s).Some?
    ensures Unwind(fault, s).value.regs == s.regs && Unwind(fault, s).value.world == s.world
    decreases |s.tries|
  {
    var k := |s.tries| - 1;
    if s.tries[k].inFinally || (Unwind(fault, s) == Unwind(fault, s.(tries := s.tries[..k]))) {
      UnwindKeeps(fault, s.(tries := s.tries[..k]));
    }
  }

  lemma StepInBounds(m: Module, fn: Function, f: Frame, s: State)
    requires Carries(m, fn, f) && InCode(f, s) && |s.regs| == fn.regCount
    ensures StepOf(true, f, s) == StepOf(false, f, s)
    ensures StepOf(true, f, s).Next? ==> |StepOf(true, f, s).s.regs| == |s.regs|
  {
    InstructionInBounds(m, fn, f, s);
    var e := Exec(true, f, s);
    if e.Raise? && Unwind(e.fault, e.s).Some? { UnwindKeeps(e.fault, e.s); }
  }

  lemma StepKeepsSize(trusted: bool, m: Module, fn: Function, f: Frame, s: State)
    requires Carries(m, fn, f) && InCode(f, s) && |s.regs| == fn.regCount
    ensures StepOf(trusted, f, s).Next? ==> |StepOf(trusted, f, s).s.regs| == |s.regs|
  {
    hide StepOf;
    StepInBounds(m, fn, f, s);
  }

  lemma TrustedRun(m: Module, fn: Function, f: Frame, s: State)
    requires Carries(m, fn, f) && |s.regs| == fn.regCount
    ensures Result(Activation(true, f), s) == Result(Activation(false, f), s)
  {
    var inv := (t: State) => |t.regs| == fn.regCount;
    forall t | inv(t) && InCode(f, t)
      ensures StepOf(true, f, t) == StepOf(false, f, t)
      ensures StepOf(true, f, t).Next? ==> inv(StepOf(true, f, t).s)
    {
      StepInBounds(m, fn, f, t);
    }
    AgreeingResults(Activation(true, f), Activation(false, f), inv, s);
  }

  lemma TrustedActivations(m: Module)
    requires Accepted(m)
    ensures SameActivations(true, m, false, m)
  {
    forall env, fi: nat, args, closure, w
      ensures Activate(true, m, env, fi, args, closure, w) == Activate(false, m, env, fi, args, closure, w)
    {
      if Admit(m, fi, args).None? {
        var fn := m.functions[fi];
        var varargs := if fn.isVararg then args[fn.paramCount..] else [];
        assert FunctionOk(m, fn);
        TrustedRun(m, fn, FrameOf(m, fi, closure, varargs, env), EntryState(fn.regCount, args, w));
      }
    }
  }

  // The main result: whatever the entry, arguments, world and foreign environment, turning
  // run-time validation off changes nothing.
  lemma {:induction false} TrustedModule(
      m: Module, base: Env, depth: nat, fi: nat, args: seq<Value>, closure: Option<I64>, w: World)
    requires Accepted(m)
    ensures Execute(true, m, base, depth, fi, args, closure, w)
         == Execute(false, m, base, depth, fi, args, closure, w)
  {
    TrustedActivations(m);
    SameExecutions(true, m, false, m, base, depth, fi, args, closure, w);
  }
}
