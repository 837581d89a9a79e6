/** Facts about activations and modules that the passes share. */
module Runs {
  import opened Int64
  import opened Bytecode
  import opened Machines
  import opened Interpreter
  import opened Steps

  // ---- Effects --------------------------------------------------------------------------

  ghost predicate KeepsTries(e: Effect, s: State) {
    (e.Go? ==> e.s.tries == s.tries) && (e.Raise? ==> e.s.tries == s.tries)
  }

  lemma {:induction false} VarArgKeepsTries(trusted: bool, f: Frame, i: Instruction, k: nat, s: State)
    requires k <= i.c
    ensures KeepsTries(ExecVarArg(trusted, f, i, k, s), s)
    decreases i.c - k
  {
    if k < i.c && AddU32(i.a, k) < |s.regs| {
      var source := AddU32(i.b, k);
      var v := if source < |f.varargs| then f.varargs[source] else NULL;
      VarArgKeepsTries(trusted, f, i, k + 1, s.(regs := s.regs[AddU32(i.a, k) := v]));
    }
  }

  lemma AnswerKeepsTries(trusted: bool, f: Frame, i: Instruction, s: State)
    ensures IsCall(i.op) ==> KeepsTries(ExecCall(trusted, f, i, s), s)
    ensures IsForeign(i.op) ==> KeepsTries(ExecForeign(trusted, f, i, s), s)
  {
    hide Window, WindowOk, AddU32;
  }

  // Only the try instructions touch the handler stack, apart from unwinding.
  lemma ExecKeepsTries(trusted: bool, f: Frame, s: State)
    requires InCode(f, s) && !IsTryOpcode(f.code[s.pc].op)
    ensures KeepsTries(Exec(trusted, f, s), s)
  {
    var i := f.code[s.pc];
    ExecGroups(trusted, f, s);
    hide *;
    VarArgKeepsTries(trusted, f, i, 0, s);
    AnswerKeepsTries(trusted, f, i, s);
    PlainKeepsTries(trusted, f, i, s);
  }

  lemma PlainKeepsTries(trusted: bool, f: Frame, i: Instruction, s: State)
    ensures IsCompute(i.op) ==> KeepsTries(ExecCompute(trusted, i, s), s)
    ensures IsRelativeJump(i.op) ==> KeepsTries(ExecBranch(trusted, |f.code|, i, s), s)
    ensures KeepsTries(ExecLoadK(trusted, f, i, s), s) && KeepsTries(ExecEnd(trusted, f, i, s), s)
    ensures KeepsTries(ExecString(trusted, i, s), s) && KeepsTries(Go(s.(pc := s.pc + 1)), s)
    ensures KeepsTries(Raise(UnknownOpcode, s), s)
  {
    hide Compute, Operand1, Operand2, Branch, BranchRegsOk, JumpDelta, Intern, Resolve, Matches;
  }

  // ---- Environments ----------------------------------------------------------------------

  // `e'` answers like `e` wherever `e` answers at all.
  ghost predicate Refines(e: Env, e': Env) {
    && (forall q: Request, w: World :: e.ask(q, w) == Diverges || e.ask(q, w) == e'.ask(q, w))
    && (forall h: I64, w: World :: e.closureTarget(h, w) == e'.closureTarget(h, w))
  }

  lemma CallRefines(trusted: bool, f: Frame, e: Env, i: Instruction, s: State)
    requires Refines(f.env, e) && IsCall(i.op)
    ensures ExecCall(trusted, f, i, s) == Stop(Diverges)
         || ExecCall(trusted, f, i, s) == ExecCall(trusted, f.(env := e), i, s)
  {
  }

  lemma ForeignRefines(trusted: bool, f: Frame, e: Env, i: Instruction, s: State)
    requires Refines(f.env, e) && IsForeign(i.op)
    ensures ExecForeign(trusted, f, i, s) == Stop(Diverges)
         || ExecForeign(trusted, f, i, s) == ExecForeign(trusted, f.(env := e), i, s)
  {
  }

  lemma {:induction false} VarArgRefines(trusted: bool, f: Frame, e: Env, i: Instruction, k: nat, s: State)
    requires k <= i.c
    ensures ExecVarArg(trusted, f, i, k, s) == ExecVarArg(trusted, f.(env := e), i, k, s)
    decreases i.c - k
  {
    if k < i.c && AddU32(i.a, k) < |s.regs| {
      var source := AddU32(i.b, k);
      var v := if source < |f.varargs| then f.varargs[source] else NULL;
      VarArgRefines(trusted, f, e, i, k + 1, s.(regs := s.regs[AddU32(i.a, k) := v]));
    }
  }

  lemma StepRefines(trusted: bool, f: Frame, e: Env, s: State)
    requires Refines(f.env, e) && InCode(f, s)
    ensures StepOf(trusted, f, s) == Done(Diverges) || StepOf(trusted, f, s) == StepOf(trusted, f.(env := e), s)
  {
    var i := f.code[s.pc];
    if IsCall(i.op) {
      CallRefines(trusted, f, e, i, s);
    } else if IsForeign(i.op) {
      ForeignRefines(trusted, f, e, i, s);
    } else if i.op == VarArg {
      VarArgRefines(trusted, f, e, i, 0, s);
    }
  }

  lemma ActivationRefines(trusted: bool, f: Frame, e: Env)
    requires Refines(f.env, e)
    ensures Extends(Activation(trusted, f), Activation(trusted, f.(env := e)))
  {
    forall s | InCode(f, s)
      ensures StepOf(trusted, f, s) == Done(Diverges) || StepOf(trusted, f, s) == StepOf(trusted, f.(env := e), s)
    {
      StepRefines(trusted, f, e, s);
    }
  }

  lemma ActivateRefines(
      trusted: bool, m: Module, e: Env, e': Env, fi: nat, args: seq<Value>, closure: Option<I64>, w: World)
    requires Refines(e, e')
    ensures Activate(trusted, m, e, fi, args, closure, w) == Diverges
         || Activate(trusted, m, e, fi, args, closure, w) == Activate(trusted, m, e', fi, args, closure, w)
  {
    if Admit(m, fi, args).None? {
      var f := m.functions[fi];
      var varargs := if f.isVararg then args[f.paramCount..] else [];
      var frame := FrameOf(m, fi, closure, varargs, e);
      assert frame.(env := e') == FrameOf(m, fi, closure, varargs, e');
      ActivationRefines(trusted, frame, e');
      ExtendedResult(Activation(trusted, frame), Activation(trusted, frame.(env := e')),
                     EntryState(f.regCount, args, w));
    }
  }

  // ---- Modules that behave alike ------------------------------------------------------------

  // Every activation of either module ends the same way in every environment.
  ghost predicate SameActivations(trusted: bool, m: Module, trusted': bool, m': Module) {
    forall env, fi: nat, args, closure, w ::
      Activate(trusted, m, env, fi, args, closure, w) == Activate(trusted', m', env, fi, args, closure, w)
  }

  // Then whole runs, nested calls included, are the same too.
  lemma {:induction false} SameExecutions(
      trusted: bool, m: Module, trusted': bool, m': Module, base: Env, depth: nat,
      fi: nat, args: seq<Value>, closure: Option<I64>, w: World)
    requires SameActivations(trusted, m, trusted', m')
    ensures Execute(trusted, m, base, depth, fi, args, closure, w)
         == Execute(trusted', m', base, depth, fi, args, closure, w)
    decreases depth
  {
    hide Activate;
    if depth > 0 {
      var e := EnvAt(trusted, m, base, depth - 1);
      var e' := EnvAt(trusted', m', base, depth - 1);
      forall q: Request, v: World ensures e.ask(q, v) == e'.ask(q, v) {
        if q.CallFunction? {
          SameExecutions(trusted, m, trusted', m', base, depth - 1, q.callee, q.args, q.closure, v);
        }
      }
      ActivateRefines(trusted, m, e, e', fi, args, closure, w);
      ActivateRefines(trusted, m, e', e, fi, args, closure, w);
    }
  }
}
