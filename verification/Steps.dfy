/** What one step of the simplest instructions does. */
module Steps {
  import opened Int64
  import opened Bytecode
  import opened Machines
  import opened Interpreter

  lemma InsideMeans(f: Frame, s: State)
    ensures InCode(f, s) <==> 0 <= s.pc < |f.code|
  {
  }

  // Which group carries out an instruction.
  lemma ExecGroups(trusted: bool, f: Frame, s: State)
    requires InCode(f, s)
    ensures var i, e := f.code[s.pc], Exec(trusted, f, s);
            if IsCompute(i.op) then e == ExecCompute(trusted, i, s)
            else if IsRelativeJump(i.op) then e == ExecBranch(trusted, |f.code|, i, s)
            else if IsTryOpcode(i.op) then e == ExecTry(|f.code|, i, s)
            else if IsCall(i.op) then e == ExecCall(trusted, f, i, s)
            else if IsForeign(i.op) then e == ExecForeign(trusted, f, i, s)
            else if i.op == Nop then e == Go(s.(pc := s.pc + 1))
            else if i.op == LoadK then e == ExecLoadK(trusted, f, i, s)
            else if i.op == StrLen || i.op == StrConcat then e == ExecString(trusted, i, s)
            else if i.op == VarArg then e == ExecVarArg(trusted, f, i, 0, s)
            else if i.op == Ret || i.op == Throw || i.op == Halt then e == ExecEnd(trusted, f, i, s)
            else e == Raise(UnknownOpcode, s)
  {
    hide ExecCompute, ExecBranch, ExecTry, ExecCall, ExecForeign, ExecLoadK, ExecString, ExecVarArg, ExecEnd,
         IsCompute, IsRelativeJump, IsTryOpcode, IsCall, IsForeign;
  }

  lemma TryExec(trusted: bool, f: Frame, s: State)
    requires InCode(f, s) && IsTryOpcode(f.code[s.pc].op)
    ensures Exec(trusted, f, s) == ExecTry(|f.code|, f.code[s.pc], s)
  {
    hide ExecCompute, ExecBranch, ExecTry, ExecCall, ExecForeign, ExecLoadK, ExecString, ExecVarArg, ExecEnd;
  }

  // A step is an effect, or the handler of one that raises.
  lemma StepIs(trusted: bool, f: Frame, s: State)
    requires InCode(f, s)
    ensures StepOf(trusted, f, s) ==
              match Exec(trusted, f, s)
              case Go(t) => Next(t)
              case Stop(o) => Done(o)
              case Raise(fault, t) =>
                if Unwind(fault, t).Some? then Next(Unwind(fault, t).value) else Done(Thrown(fault, t.world))
  {
    hide Exec, Unwind;
  }

  // Equal effects make equal steps.
  lemma SameEffect(trusted: bool, f: Frame, f': Frame, s: State)
    requires InCode(f, s) && InCode(f', s) && Exec(trusted, f, s) == Exec(trusted, f', s)
    ensures StepOf(trusted, f, s) == StepOf(trusted, f', s)
  {
    hide Exec;
  }

  lemma NopStep(trusted: bool, f: Frame, s: State)
    requires InCode(f, s) && f.code[s.pc].op == Nop
    ensures StepOf(trusted, f, s) == Next(s.(pc := s.pc + 1))
  {
    hide ExecCompute, ExecBranch, ExecTry, ExecCall, ExecForeign, ExecLoadK, ExecString, ExecVarArg, ExecEnd;
  }

  lemma ComputeStep(trusted: bool, f: Frame, s: State)
    requires InCode(f, s) && IsCompute(f.code[s.pc].op) && f.code[s.pc].a < |s.regs|
    requires Operand1(f.code[s.pc]) < |s.regs| && Operand2(f.code[s.pc]) < |s.regs|
    requires Compute(f.code[s.pc], s.regs[Operand1(f.code[s.pc])], s.regs[Operand2(f.code[s.pc])]).Some?
    ensures var i := f.code[s.pc];
            StepOf(trusted, f, s) ==
              Next(s.(pc := s.pc + 1,
                      regs := s.regs[i.a := Compute(i, s.regs[Operand1(i)], s.regs[Operand2(i)]).value]))
  {
    hide ExecBranch, ExecTry, ExecCall, ExecForeign, ExecLoadK, ExecString, ExecVarArg, ExecEnd, Compute,
         Operand1, Operand2;
  }

  lemma MoveStep(trusted: bool, f: Frame, s: State, to: nat, from: nat)
    requires InCode(f, s) && to < |s.regs| <= 0x1_0000 && from < |s.regs| && f.code[s.pc] == Make(Mov, to, from, 0)
    ensures StepOf(trusted, f, s) == Next(s.(pc := s.pc + 1, regs := s.regs[to := s.regs[from]]))
  {
    hide StepOf;
    ComputeStep(trusted, f, s);
  }

  lemma IncStep(trusted: bool, f: Frame, s: State, r: nat)
    requires InCode(f, s) && r < |s.regs| <= 0x1_0000 && f.code[s.pc] == Make(Inc, r, 0, 0)
    ensures StepOf(trusted, f, s)
         == Next(s.(pc := s.pc + 1, regs := s.regs[r := IntValue(Int64.Add(s.regs[r].bits, 1))]))
  {
    hide StepOf;
    ComputeStep(trusted, f, s);
  }

  lemma LoadIntStep(trusted: bool, f: Frame, s: State, r: nat, v: I64)
    requires InCode(f, s) && f.code[s.pc].op == LoadK && f.code[s.pc].a == r < |s.regs|
    requires f.code[s.pc].b < |f.constants| && f.constants[f.code[s.pc].b] == IntConst(v)
    ensures StepOf(trusted, f, s) == Next(s.(pc := s.pc + 1, regs := s.regs[r := IntValue(v)]))
  {
    hide ExecCompute, ExecBranch, ExecTry, ExecCall, ExecForeign, ExecString, ExecVarArg, ExecEnd;
  }

  // A jump inside the code.
  lemma BranchStep(trusted: bool, f: Frame, s: State)
    requires InCode(f, s) && IsRelativeJump(f.code[s.pc].op) && BranchRegsOk(f.code[s.pc], |s.regs|)
    requires 0 <= s.pc + JumpDelta(f.code[s.pc]) < |f.code|
    ensures var i := f.code[s.pc];
            StepOf(trusted, f, s) ==
              Next(s.(pc := s.pc + if Branch(i, s.regs).taken then JumpDelta(i) else 1, regs := Branch(i, s.regs).regs))
  {
    hide ExecCompute, ExecTry, ExecCall, ExecForeign, ExecLoadK, ExecString, ExecVarArg, ExecEnd, Branch, JumpDelta;
  }

  lemma ReturnStep(trusted: bool, f: Frame, s: State)
    requires InCode(f, s) && f.code[s.pc].op == Ret && f.code[s.pc].a < |s.regs|
    ensures var v := s.regs[f.code[s.pc].a];
            StepOf(trusted, f, s) ==
              Done(if Matches(v, f.returnType) then Returned(v, s.world) else Failed(ReturnTypeMismatch, s.world))
  {
    hide ExecCompute, ExecBranch, ExecTry, ExecForeign, ExecVarArg, ExecString, ExecLoadK, ExecCall;
  }

  // A step and the result of the run it begins.
  lemma ResultNext(trusted: bool, f: Frame, s: State, t: State)
    requires InCode(f, s) && StepOf(trusted, f, s) == Next(t)
    ensures Result(Activation(trusted, f), s) == Result(Activation(trusted, f), t)
  {
    hide StepOf;
    ResultOfStep(Activation(trusted, f), s);
  }

  lemma ResultDone(trusted: bool, f: Frame, s: State, o: Outcome)
    requires InCode(f, s) && StepOf(trusted, f, s) == Done(o)
    ensures Result(Activation(trusted, f), s) == o
  {
    hide StepOf;
    ResultOfStep(Activation(trusted, f), s);
  }
}
