/** Where the outside world keeps interned strings, nothing that a program does loses them:
    no step, no call, however deep. */
module SteadyStrings {
  import opened Int64
  import opened Bytecode
  import opened Machines
  import opened Interpreter
  import opened Steps
  import opened Runs
  import opened Effects
  import opened Meanings

  ghost predicate OutcomeGrows(o: Outcome, w: World) {
    match o
    case Returned(_, w') => w.strings <= w'.strings
    case Failed(_, w') => w.strings <= w'.strings
    case Thrown(_, w') => w.strings <= w'.strings
    case Undefined => true
    case Diverges => true
  }

  ghost predicate EffectGrows(e: Effect, w: World) {
    match e
    case Go(t) => w.strings <= t.world.strings
    case Raise(_, t) => w.strings <= t.world.strings
    case Stop(o) => OutcomeGrows(o, w)
  }

  lemma CallGrows(trusted: bool, f: Frame, i: Instruction, s: State)
    requires GrowsStrings(f.env) && IsCall(i.op)
    ensures EffectGrows(ExecCall(trusted, f, i, s), s.world)
  {
    hide Window, WindowOk, AddU32;
  }

  lemma NamedGrows(trusted: bool, f: Frame, i: Instruction, s: State)
    requires GrowsStrings(f.env) && (i.op == FfiCall || i.op == NewObject || i.op == Invoke)
    ensures EffectGrows(ExecForeign(trusted, f, i, s), s.world)
  {
    hide Window, WindowOk, AddU32, Symbol;
  }

  lemma ClosureGrows(trusted: bool, f: Frame, i: Instruction, s: State)
    requires GrowsStrings(f.env) && (i.op == Closure || i.op == GetUpval || i.op == SetUpval)
    ensures EffectGrows(ExecForeign(trusted, f, i, s), s.world)
  {
    hide Window, WindowOk, AddU32, Symbol;
  }

  // These leave the world alone.
  lemma PlainGrows(trusted: bool, f: Frame, i: Instruction, s: State)
    ensures IsCompute(i.op) ==> EffectGrows(ExecCompute(trusted, i, s), s.world)
    ensures IsRelativeJump(i.op) ==> EffectGrows(ExecBranch(trusted, |f.code|, i, s), s.world)
    ensures IsTryOpcode(i.op) ==> EffectGrows(ExecTry(|f.code|, i, s), s.world)
    ensures EffectGrows(ExecEnd(trusted, f, i, s), s.world) && EffectGrows(Raise(UnknownOpcode, s), s.world)
    ensures EffectGrows(Go(s.(pc := s.pc + 1)), s.world)
  {
    hide Compute, Branch, BranchRegsOk, Operand1, Operand2, Matches, JumpDelta, TryTargetOk;
  }

  lemma InternKeeps(w: World, str: string)
    ensures w.strings <= Intern(w, str).1.strings
  {
    hide Find;
  }

  lemma WriteGrows(trusted: bool, s: State, w: World, r: U32, v: Value)
    requires s.world.strings <= w.strings
    ensures EffectGrows(Write(trusted, s.(world := w), r, v), s.world)
  {
  }

  lemma LoadGrows(trusted: bool, f: Frame, i: Instruction, s: State)
    ensures EffectGrows(ExecLoadK(trusted, f, i, s), s.world)
  {
    hide Intern, Write;
    assert s.(world := s.world) == s;
    if i.b < |f.constants| {
      match f.constants[i.b] {
        case IntConst(n) => WriteGrows(trusted, s, s.world, i.a, IntValue(n));
        case FloatConst(bits) => WriteGrows(trusted, s, s.world, i.a, Value(TFloat64, bits));
        case Utf8Const(str) =>
          InternKeeps(s.world, str);
          WriteGrows(trusted, s, Intern(s.world, str).1, i.a, Intern(s.world, str).0);
      }
    }
  }

  lemma StringGrows(trusted: bool, i: Instruction, s: State)
    ensures EffectGrows(ExecString(trusted, i, s), s.world)
  {
    hide Intern, Write, Resolve;
    assert s.(world := s.world) == s;
    if i.b < |s.regs| && Resolve(s.world, s.regs[i.b]).Some? {
      var x := Resolve(s.world, s.regs[i.b]).value;
      WriteGrows(trusted, s, s.world, i.a, IntValue(Wrap(|x|)));
      if i.c < |s.regs| && Resolve(s.world, s.regs[i.c]).Some? {
        var str := x + Resolve(s.world, s.regs[i.c]).value;
        InternKeeps(s.world, str);
        WriteGrows(trusted, s, Intern(s.world, str).1, i.a, Intern(s.world, str).0);
      }
    }
  }

  // These may intern a string.
  lemma InternGrows(trusted: bool, f: Frame, i: Instruction, s: State)
    ensures EffectGrows(ExecLoadK(trusted, f, i, s), s.world) && EffectGrows(ExecString(trusted, i, s), s.world)
  {
    LoadGrows(trusted, f, i, s);
    StringGrows(trusted, i, s);
  }

  lemma {:induction false} VarArgGrows(trusted: bool, f: Frame, i: Instruction, k: nat, s: State)
    requires k <= i.c
    ensures EffectGrows(ExecVarArg(trusted, f, i, k, s), s.world)
    decreases i.c - k
  {
    if k < i.c && AddU32(i.a, k) < |s.regs| {
      var source := AddU32(i.b, k);
      var v := if source < |f.varargs| then f.varargs[source] else NULL;
      VarArgGrows(trusted, f, i, k + 1, s.(regs := s.regs[AddU32(i.a, k) := v]));
    }
  }

  lemma ForeignCases(op: Opcode)
    ensures IsForeign(op) <==>
              || op == FfiCall || op == NewObject || op == Invoke || op == Closure || op == GetUpval || op == SetUpval
  {
  }

  lemma ExecGrows(trusted: bool, f: Frame, s: State)
    requires InCode(f, s) && GrowsStrings(f.env)
    ensures EffectGrows(Exec(trusted, f, s), s.world)
  {
    hide *;
    InsideMeans(f, s);
    var i := f.code[s.pc];
    ExecGroups(trusted, f, s);
    PlainGrows(trusted, f, i, s);
    InternGrows(trusted, f, i, s);
    VarArgGrows(trusted, f, i, 0, s);
    ForeignCases(i.op);
    if IsCall(i.op) {
      CallGrows(trusted, f, i, s);
    } else if i.op == FfiCall || i.op == NewObject || i.op == Invoke {
      NamedGrows(trusted, f, i, s);
    } else if i.op == Closure || i.op == GetUpval || i.op == SetUpval {
      ClosureGrows(trusted, f, i, s);
    }
  }

  lemma {:induction false} UnwindKeepsWorld(fault: Fault, s: State)
    ensures Unwind(fault, s).Some? ==> Unwind(fault, s).value.world == s.world
    decreases |s.tries|
  {
    if s.tries != [] { UnwindKeepsWorld(fault, s.(tries := s.tries[..|s.tries| - 1])); }
  }

  lemma StepGrows(trusted: bool, f: Frame, s: State)
    requires InCode(f, s) && GrowsStrings(f.env)
    ensures match StepOf(trusted, f, s)
            case Next(t) => s.world.strings <= t.world.strings
            case Done(o) => OutcomeGrows(o, s.world)
  {
    hide Exec, StepOf, Unwind, GrowsStrings;
    ExecGrows(trusted, f, s);
    StepIs(trusted, f, s);
    var e := Exec(trusted, f, s);
    if e.Raise? { UnwindKeepsWorld(e.fault, e.s); }
  }

  // ---- Whole calls ------------------------------------------------------------------------------

  lemma ActivateGrows(
      trusted: bool, m: Module, e: Env, fi: nat, args: seq<Value>, closure: Option<I64>, w: World)
    requires GrowsStrings(e)
    ensures OutcomeGrows(Activate(trusted, m, e, fi, args, closure, w), w)
  {
    hide StepOf, GrowsStrings, EntryRegs;
    if Admit(m, fi, args).None? {
      var fn := m.functions[fi];
      var f := FrameOf(m, fi, closure, if fn.isVararg then args[fn.paramCount..] else [], e);
      var c := Activation(trusted, f);
      var inv := (s: State) => w.strings <= s.world.strings;
      forall s | inv(s) && c.running(s)
        ensures match c.step(s) case Next(t) => inv(t) case Done(o) => OutcomeGrows(o, w)
      {
        StepGrows(trusted, f, s);
        if c.step(s).Done? { GrowsFurther(w, s.world, c.step(s).o); }
      }
      ResultUnder(c, inv, o => OutcomeGrows(o, w), EntryState(fn.regCount, args, w));
    }
  }

  lemma GrowsFurther(w: World, w': World, o: Outcome)
    requires w.strings <= w'.strings && OutcomeGrows(o, w')
    ensures OutcomeGrows(o, w)
  {
  }

  lemma {:induction false} ExecuteGrows(
      trusted: bool, m: Module, base: Env, d: nat, fi: nat, args: seq<Value>, closure: Option<I64>, w: World)
    requires GrowsStrings(base)
    ensures OutcomeGrows(Execute(trusted, m, base, d, fi, args, closure, w), w)
    decreases d, 0
  {
    hide Activate, GrowsStrings, OutcomeGrows;
    if d > 0 {
      NestedGrows(trusted, m, base, d - 1);
      ActivateGrows(trusted, m, EnvAt(trusted, m, base, d - 1), fi, args, closure, w);
    } else {
      NothingLost(w);
    }
  }

  lemma NothingLost(w: World)
    ensures OutcomeGrows(Diverges, w)
  {
  }

  lemma {:induction false} NestedGrows(trusted: bool, m: Module, base: Env, d: nat)
    requires GrowsStrings(base)
    ensures GrowsStrings(EnvAt(trusted, m, base, d))
    decreases d, 1
  {
    hide Execute;
    var e := EnvAt(trusted, m, base, d);
    forall q: Request, w: World ensures OutcomeGrows(e.ask(q, w), w) {
      if q.CallFunction? {
        ExecuteGrows(trusted, m, base, d, q.callee, q.args, q.closure, w);
      } else {
        assert e.ask(q, w) == base.ask(q, w);
      }
    }
  }

  // The same meaning wherever interned strings are kept.
  ghost predicate SteadyMeaning(trusted: bool, m: Module, m': Module) {
    forall base, fi: nat, args, closure, w :: GrowsStrings(base) ==>
      Meaning(trusted, m, base, fi, args, closure, w) == Meaning(trusted, m', base, fi, args, closure, w)
  }

  lemma SteadyFromSame(trusted: bool, m: Module, m': Module)
    requires SameMeaning(trusted, m, m')
    ensures SteadyMeaning(trusted, m, m')
  {
    hide Meaning, GrowsStrings;
  }

  lemma SteadyTransitive(trusted: bool, m0: Module, m1: Module, m2: Module)
    requires SteadyMeaning(trusted, m0, m1) && SteadyMeaning(trusted, m1, m2)
    ensures SteadyMeaning(trusted, m0, m2)
  {
    hide Meaning, GrowsStrings;
    forall base, fi: nat, args, closure, w | GrowsStrings(base)
      ensures Meaning(trusted, m0, base, fi, args, closure, w) == Meaning(trusted, m2, base, fi, args, closure, w)
    {
      assert Meaning(trusted, m0, base, fi, args, closure, w) == Meaning(trusted, m1, base, fi, args, closure, w);
    }
  }
}
