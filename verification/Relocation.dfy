/** Instructions do not care where they stand: moved to another pc, of the same or another
    piece of code, an instruction other than a jump does what it did and goes on behind its
    new place. */
module Relocation {
  import opened Int64
  import opened Bytecode
  import opened Machines
  import opened Interpreter
  import opened Runs
  import opened Verifier
  import opened TrustedMode

  // An effect seen from a place `here` with `next` behind it.
  function Shifted(e: Effect, next: int, here: int): Effect {
    match e
    case Go(t) => Go(t.(pc := next))
    case Stop(o) => e
    case Raise(fault, t) => Raise(fault, t.(pc := here))
  }

  lemma {:induction false} VarArgRelocated(trusted: bool, f: Frame, f': Frame, i: Instruction, k: nat, s: State, p: int)
    requires k <= i.c && f.varargs == f'.varargs
    ensures ExecVarArg(trusted, f', i, k, s.(pc := p)) == Shifted(ExecVarArg(trusted, f, i, k, s), p + 1, p)
    decreases i.c - k
  {
    if k < i.c && AddU32(i.a, k) < |s.regs| {
      var source := AddU32(i.b, k);
      var v := if source < |f.varargs| then f.varargs[source] else NULL;
      VarArgRelocated(trusted, f, f', i, k + 1, s.(regs := s.regs[AddU32(i.a, k) := v]), p);
    }
  }

  lemma CallRelocated(trusted: bool, f: Frame, f': Frame, i: Instruction, s: State, p: int)
    requires IsCall(i.op) && f' == f.(code := f'.code)
    ensures ExecCall(trusted, f', i, s.(pc := p)) == Shifted(ExecCall(trusted, f, i, s), p + 1, p)
  {
  }

  lemma ForeignRelocated(trusted: bool, f: Frame, f': Frame, i: Instruction, s: State, p: int)
    requires IsForeign(i.op) && f' == f.(code := f'.code)
    ensures ExecForeign(trusted, f', i, s.(pc := p)) == Shifted(ExecForeign(trusted, f, i, s), p + 1, p)
  {
  }

  lemma ComputeRelocated(trusted: bool, i: Instruction, s: State, p: int)
    requires IsCompute(i.op)
    ensures ExecCompute(trusted, i, s.(pc := p)) == Shifted(ExecCompute(trusted, i, s), p + 1, p)
  {
    hide Compute, Operand1, Operand2;
  }

  lemma LoadRelocated(trusted: bool, f: Frame, f': Frame, i: Instruction, s: State, p: int)
    requires f' == f.(code := f'.code)
    ensures ExecLoadK(trusted, f', i, s.(pc := p)) == Shifted(ExecLoadK(trusted, f, i, s), p + 1, p)
  {
    hide Intern;
  }

  lemma StringRelocated(trusted: bool, i: Instruction, s: State, p: int)
    ensures ExecString(trusted, i, s.(pc := p)) == Shifted(ExecString(trusted, i, s), p + 1, p)
  {
    hide Intern, Resolve;
  }

  lemma EndRelocated(trusted: bool, f: Frame, f': Frame, i: Instruction, s: State, p: int)
    requires f' == f.(code := f'.code)
    ensures ExecEnd(trusted, f', i, s.(pc := p)) == Shifted(ExecEnd(trusted, f, i, s), p + 1, p)
  {
    hide Matches;
  }

  lemma ExecRelocated(trusted: bool, f: Frame, f': Frame, s: State, p: int)
    requires InCode(f, s) && 0 <= p < |f'.code| && f'.code[p] == f.code[s.pc] && f' == f.(code := f'.code)
    requires !IsRelativeJump(f.code[s.pc].op) && !IsTryOpcode(f.code[s.pc].op)
    ensures Exec(trusted, f', s.(pc := p)) == Shifted(Exec(trusted, f, s), p + 1, p)
  {
    hide ExecCall, ExecForeign, ExecVarArg, ExecTry, ExecBranch, ExecCompute, ExecString, ExecLoadK, ExecEnd;
    var i := f.code[s.pc];
    if IsCall(i.op) {
      CallRelocated(trusted, f, f', i, s, p);
    } else if IsForeign(i.op) {
      ForeignRelocated(trusted, f, f', i, s, p);
    } else if i.op == VarArg {
      VarArgRelocated(trusted, f, f', i, 0, s, p);
    } else if IsCompute(i.op) {
      ComputeRelocated(trusted, i, s, p);
    } else {
      LoadRelocated(trusted, f, f', i, s, p);
      StringRelocated(trusted, i, s, p);
      EndRelocated(trusted, f, f', i, s, p);
    }
  }

  // A non-jumping instruction that goes on goes on behind itself.
  lemma ExecFallsThrough(trusted: bool, f: Frame, s: State)
    requires InCode(f, s) && !IsRelativeJump(f.code[s.pc].op) && !IsTryOpcode(f.code[s.pc].op)
    ensures Exec(trusted, f, s).Go? ==> Exec(trusted, f, s).s.pc == s.pc + 1
  {
    hide Exec;
    assert s.(pc := s.pc) == s;
    ExecRelocated(trusted, f, f, s, s.pc);
  }

  // A relative jump with a new distance: same registers, same decision.
  lemma BranchRetargeted(i: Instruction, i': Instruction, regs: seq<Value>)
    requires IsRelativeJump(i.op) && BranchRegsOk(i, |regs|) && -0x8000_0000 <= JumpDelta(i') < 0x8000_0000
    requires i' == WithJumpDelta(i, JumpDelta(i'))
    ensures BranchRegsOk(i', |regs|) && Branch(i', regs) == Branch(i, regs)
  {
  }

  // ---- Without handlers ----------------------------------------------------------------------

  // Where a step goes from, with what is different in the pc left out.
  ghost predicate SameButPc(x: Step<State, Outcome>, y: Step<State, Outcome>) {
    match x
    case Done(_) => y == x
    case Next(s) => y.Next? && y.s == s.(pc := y.s.pc)
  }

  lemma StepRelocated(trusted: bool, f: Frame, f': Frame, s: State, p: int)
    requires InCode(f, s) && 0 <= p < |f'.code| && f'.code[p] == f.code[s.pc] && f' == f.(code := f'.code)
    requires !IsRelativeJump(f.code[s.pc].op) && !IsTryOpcode(f.code[s.pc].op) && s.tries == []
    ensures SameButPc(StepOf(trusted, f, s), StepOf(trusted, f', s.(pc := p)))
    ensures StepOf(trusted, f, s).Next? ==>
              && StepOf(trusted, f, s).s.pc == s.pc + 1 && StepOf(trusted, f', s.(pc := p)).s.pc == p + 1
              && StepOf(trusted, f, s).s.tries == []
  {
    hide Exec;
    ExecRelocated(trusted, f, f', s, p);
    ExecFallsThrough(trusted, f, s);
    ExecKeepsTries(trusted, f, s);
  }

  // The step of an accepted jump.
  lemma JumpStep(trusted: bool, m: Module, fn: Function, f: Frame, s: State)
    requires InCode(f, s) && |s.regs| == fn.regCount && IsRelativeJump(f.code[s.pc].op)
    requires InstructionOk(m, fn, f.code[s.pc], s.pc, |f.code|)
    ensures var i := f.code[s.pc];
            BranchRegsOk(i, |s.regs|) &&
            StepOf(trusted, f, s) == Next(s.(regs := Branch(i, s.regs).regs,
                                             pc := s.pc + if Branch(i, s.regs).taken then JumpDelta(i) else 1))
  {
    hide ExecCall, ExecForeign, ExecVarArg, ExecTry, ExecCompute, ExecString, ExecLoadK, ExecEnd, Branch;
  }
}
