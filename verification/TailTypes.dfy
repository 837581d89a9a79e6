/** Tail calls pass on what they are answered without checking it.  Where they only call
    functions that declare the same return type, every call still returns what its callee
    declares. */
module TailTypes {
  import opened Int64
  import opened Bytecode
  import opened Machines
  import opened Interpreter
  import opened Steps
  import opened Runs

  // What a tail call at `i` is answered may be returned by `fn`.
  predicate TailFits(m: Module, fn: Function, i: Instruction) {
    || fn.returnType == AnyType
    || ((i.op == Call || i.op == TailCall) && i.b < |m.functions| && m.functions[i.b].returnType == fn.returnType)
  }

  predicate IsTailCall(op: Opcode) { op == TailCall || op == TailCallClosure }

  predicate TailsFit(m: Module, fn: Function, code: seq<Instruction>) {
    forall p :: 0 <= p < |code| && IsTailCall(code[p].op) ==> TailFits(m, fn, code[p])
  }

  predicate AllTailsFit(m: Module) {
    forall fi :: 0 <= fi < |m.functions| ==> TailsFit(m, m.functions[fi], m.functions[fi].Code())
  }

  // The environment answers calls with values of the declared types.
  ghost predicate Honest(m: Module, e: Env) {
    forall g: nat, args, closure, w :: g < |m.functions| ==>
      var o := e.ask(CallFunction(g, args, closure), w);
      o.Returned? ==> Matches(o.value, m.functions[g].returnType)
  }

  // An effect that ends the activation with a result ends it with one of the type.
  ghost predicate ReturnsOnly(e: Effect, t: ValueType) {
    e.Stop? && e.o.Returned? ==> Matches(e.o.value, t)
  }

  lemma CallReturns(trusted: bool, m: Module, fn: Function, f: Frame, i: Instruction, s: State)
    requires IsCall(i.op) && Honest(m, f.env) && (IsTailCall(i.op) ==> TailFits(m, fn, i))
    ensures ReturnsOnly(ExecCall(trusted, f, i, s), fn.returnType)
  {
    hide Window, WindowOk, AddU32;
  }

  lemma GroupsReturn(trusted: bool, f: Frame, i: Instruction, s: State)
    ensures IsCompute(i.op) ==> ReturnsOnly(ExecCompute(trusted, i, s), f.returnType)
    ensures IsRelativeJump(i.op) ==> ReturnsOnly(ExecBranch(trusted, |f.code|, i, s), f.returnType)
    ensures IsTryOpcode(i.op) ==> ReturnsOnly(ExecTry(|f.code|, i, s), f.returnType)
    ensures IsForeign(i.op) ==> ReturnsOnly(ExecForeign(trusted, f, i, s), f.returnType)
    ensures ReturnsOnly(ExecLoadK(trusted, f, i, s), f.returnType)
    ensures ReturnsOnly(ExecEnd(trusted, f, i, s), f.returnType)
    ensures ReturnsOnly(ExecString(trusted, i, s), f.returnType) && ReturnsOnly(Raise(UnknownOpcode, s), f.returnType)
    ensures ReturnsOnly(Go(s.(pc := s.pc + 1)), f.returnType)
  {
    hide Compute, Branch, BranchRegsOk, Operand1, Operand2, Window, WindowOk, AddU32, Intern, Resolve, Symbol, Matches,
         JumpDelta, TryTargetOk;
  }

  lemma {:induction false} VarArgReturns(trusted: bool, f: Frame, i: Instruction, k: nat, s: State)
    requires k <= i.c
    ensures ReturnsOnly(ExecVarArg(trusted, f, i, k, s), f.returnType)
    decreases i.c - k
  {
    if k < i.c && AddU32(i.a, k) < |s.regs| {
      var source := AddU32(i.b, k);
      var v := if source < |f.varargs| then f.varargs[source] else NULL;
      VarArgReturns(trusted, f, i, k + 1, s.(regs := s.regs[AddU32(i.a, k) := v]));
    }
  }

  lemma StepReturns(trusted: bool, m: Module, fn: Function, f: Frame, s: State)
    requires InCode(f, s) && f.returnType == fn.returnType && TailsFit(m, fn, f.code) && Honest(m, f.env)
    ensures StepOf(trusted, f, s).Done? && StepOf(trusted, f, s).o.Returned? ==>
              Matches(StepOf(trusted, f, s).o.value, fn.returnType)
  {
    ExecReturns(trusted, m, fn, f, s);
    StepIs(trusted, f, s);
    hide Exec, StepOf, Unwind, Honest, TailsFit;
  }

  lemma ExecReturns(trusted: bool, m: Module, fn: Function, f: Frame, s: State)
    requires InCode(f, s) && f.returnType == fn.returnType && TailsFit(m, fn, f.code) && Honest(m, f.env)
    ensures ReturnsOnly(Exec(trusted, f, s), fn.returnType)
  {
    hide *;
    InsideMeans(f, s);
    var i := f.code[s.pc];
    TailAt(m, fn, f.code, s.pc);
    ExecGroups(trusted, f, s);
    GroupsReturn(trusted, f, i, s);
    VarArgReturns(trusted, f, i, 0, s);
    if IsCall(i.op) { CallReturns(trusted, m, fn, f, i, s); }
  }

  lemma TailAt(m: Module, fn: Function, code: seq<Instruction>, p: int)
    requires TailsFit(m, fn, code) && 0 <= p < |code|
    ensures IsTailCall(code[p].op) ==> TailFits(m, fn, code[p])
  {
  }

  // ---- Whole calls ------------------------------------------------------------------------------

  predicate Declared(o: Outcome, t: ValueType) { o.Returned? ==> Matches(o.value, t) }

  lemma ActivateReturns(
      trusted: bool, m: Module, e: Env, fi: nat, args: seq<Value>, closure: Option<I64>, w: World)
    requires AllTailsFit(m) && Honest(m, e) && fi < |m.functions|
    ensures Declared(Activate(trusted, m, e, fi, args, closure, w), m.functions[fi].returnType)
  {
    hide StepOf, Honest, TailsFit, Matches, EntryState;
    if Admit(m, fi, args).None? {
      var fn := m.functions[fi];
      var f := FrameOf(m, fi, closure, if fn.isVararg then args[fn.paramCount..] else [], e);
      forall s | InCode(f, s) && StepOf(trusted, f, s).Done?
        ensures Declared(StepOf(trusted, f, s).o, fn.returnType)
      {
        StepReturns(trusted, m, fn, f, s);
      }
      ResultUnder(Activation(trusted, f), s => true, o => Declared(o, fn.returnType), EntryState(fn.regCount, args, w));
    }
  }

  // Every call, however deep it nests, returns what its callee declares.
  lemma {:induction false} ExecuteReturns(
      trusted: bool, m: Module, base: Env, d: nat, fi: nat, args: seq<Value>, closure: Option<I64>, w: World)
    requires AllTailsFit(m) && fi < |m.functions|
    ensures Declared(Execute(trusted, m, base, d, fi, args, closure, w), m.functions[fi].returnType)
    decreases d, 0
  {
    hide Activate, Honest, Matches, AllTailsFit;
    if d > 0 {
      NestedHonest(trusted, m, base, d - 1);
      ActivateReturns(trusted, m, EnvAt(trusted, m, base, d - 1), fi, args, closure, w);
    }
  }

  lemma {:induction false} NestedHonest(trusted: bool, m: Module, base: Env, d: nat)
    requires AllTailsFit(m)
    ensures Honest(m, EnvAt(trusted, m, base, d))
    decreases d, 1
  {
    hide Execute, Matches, AllTailsFit;
    var e := EnvAt(trusted, m, base, d);
    forall g: nat, args, closure, w | g < |m.functions|
      ensures Declared(e.ask(CallFunction(g, args, closure), w), m.functions[g].returnType)
    {
      ExecuteReturns(trusted, m, base, d, g, args, closure, w);
    }
  }
}
