/** The type checks of a call: what they come to, and when they certainly pass. */
module CallTypes {
  import opened Int64
  import opened Bytecode
  import opened Machines
  import opened Interpreter
  import opened Runs
  import opened Verifier
  import opened TrustedMode
  import opened Blocks
  import opened IntTags
  import opened Inline

  predicate ArgsMatch(fn: Function, args: seq<Value>) {
    forall k :: 0 <= k < |fn.paramTypes| && k < |args| ==> Matches(args[k], fn.paramTypes[k])
  }

  predicate AllInlineSafe(code: seq<Instruction>) {
    forall p :: 0 <= p < |code| ==> IsInlineSafe(code[p].op)
  }

  // The frame of a call that checks no result.
  function Unchecked(f: Frame): Frame { f.(returnType := AnyType) }

  // What becomes of an outcome when a result is checked.
  function Checked(o: Outcome, t: ValueType): Outcome {
    if o.Returned? && !Matches(o.value, t) then Failed(ReturnTypeMismatch, o.world) else o
  }

  lemma CheckedStep(trusted: bool, f: Frame, s: State)
    requires InCode(f, s) && IsInlineSafe(f.code[s.pc].op)
    ensures StepOf(trusted, f, s) ==
              match StepOf(trusted, Unchecked(f), s)
              case Next(t) => Next(t)
              case Done(o) => Done(Checked(o, f.returnType))
    ensures match StepOf(trusted, Unchecked(f), s)
            case Next(_) => true
            case Done(o) => !o.Failed? && (o.Returned? ==>
              f.code[s.pc].op == Ret && f.code[s.pc].a < |s.regs| && o.value == s.regs[f.code[s.pc].a])
  {
    hide ExecCompute, ExecBranch, ExecTry, ExecCall, ExecForeign, ExecVarArg, ExecString, ExecLoadK;
    if f.code[s.pc].op != Ret { CheckedElsewhere(trusted, f, s); }
  }

  lemma CheckedElsewhere(trusted: bool, f: Frame, s: State)
    requires InCode(f, s) && IsInlineSafe(f.code[s.pc].op) && f.code[s.pc].op != Ret
    ensures Exec(trusted, f, s) == Exec(trusted, Unchecked(f), s)
    ensures Exec(trusted, f, s).Stop? ==> Exec(trusted, f, s).o == Undefined
  {
    hide ExecTry, ExecCall, ExecForeign, ExecVarArg, Compute, Branch;
  }

  lemma {:induction false} CheckedRun(trusted: bool, f: Frame, s: State, n: nat)
    requires AllInlineSafe(f.code)
    ensures match Run(Activation(trusted, Unchecked(f)), s, n)
            case Running(t) => Run(Activation(trusted, f), s, n) == Running(t)
            case Finished(o) =>
              && Run(Activation(trusted, f), s, n) == Finished(Checked(o, f.returnType))
              && (o.Failed? ==> o.why == PcEscaped)
    decreases n
  {
    hide StepOf;
    if n > 0 && InCode(f, s) {
      CheckedStep(trusted, f, s);
      if StepOf(trusted, f, s).Next? { CheckedRun(trusted, f, StepOf(trusted, f, s).s, n - 1); }
    }
  }

  lemma CheckedResult(trusted: bool, f: Frame, s: State)
    requires AllInlineSafe(f.code)
    ensures Result(Activation(trusted, f), s) == Checked(Result(Activation(trusted, Unchecked(f)), s), f.returnType)
    ensures var o := Result(Activation(trusted, Unchecked(f)), s); o.Failed? ==> o.why == PcEscaped
  {
    hide StepOf;
    var c, u := Activation(trusted, f), Activation(trusted, Unchecked(f));
    if n: nat :| Run(u, s, n).Finished? {
      CheckedRun(trusted, f, s, n);
      ResultIs(u, s, n);
      ResultIs(c, s, n);
    } else {
      forall n: nat ensures Run(c, s, n).Running? { CheckedRun(trusted, f, s, n); }
      NeverEnds(u, s);
      NeverEnds(c, s);
    }
  }

  // The call of an inline-safe function ends the way its unchecked body does if and only if
  // the arguments match the parameter types and a returned value matches the return type.
  lemma TypesExact(trusted: bool, m: Module, e: Env, g: nat, args: seq<Value>, w: World)
    requires Accepted(m) && g < |m.functions| && !m.functions[g].isVararg && |args| == m.functions[g].paramCount
    requires AllInlineSafe(m.functions[g].Code())
    ensures var fn := m.functions[g];
            var o := Result(Activation(trusted, Unchecked(FrameOf(m, g, None, [], e))),
                EntryState(fn.regCount, args, w));
            Activate(trusted, m, e, g, args, None, w) == o <==>
              ArgsMatch(fn, args) && (o.Returned? ==> Matches(o.value, fn.returnType))
  {
    var fn := m.functions[g];
    assert FunctionOk(m, fn);
    hide Activation, EntryState, Accepted, CodeOk, AllInlineSafe;
    CheckedResult(trusted, FrameOf(m, g, None, [], e), EntryState(fn.regCount, args, w));
    assert Admit(m, g, args).None? <==> ArgsMatch(fn, args);
  }

  // ---- Types that certainly match -----------------------------------------------------------

  // What `fn` asks of its arguments is certain when the registers `ints` hold integers.
  predicate ArgsAssured(fn: Function, i: Instruction, ints: set<int>) {
    forall k :: 0 <= k < |fn.paramTypes| ==>
      fn.paramTypes[k] == AnyType || (fn.paramTypes[k] == Exactly(TInt64) && i.a + 1 + k in ints)
  }

  // The register returned at the end holds an integer.
  predicate ReturnsIn(code: seq<Instruction>, d: seq<set<int>>) {
    |d| == |code| != 0 && code[|code| - 1].a in d[|code| - 1]
  }

  // What `fn` declares to return it certainly returns.
  ghost predicate ResultAssured(m: Module, fn: Function) {
    || fn.returnType == AnyType
    || (fn.returnType == Exactly(TInt64) &&
        exists d :: Integers(fn.Code(), m.constants, IntParams(fn), d) && ReturnsIn(fn.Code(), d))
  }

  lemma ReturnTagged(trusted: bool, f: Frame, n: nat, d: seq<set<int>>, s: State)
    requires Tagged(f, n, d, s) && InlineBody(f.code, n) && f.returnType == AnyType && ReturnsIn(f.code, d)
    requires InCode(f, s)
    ensures StepOf(trusted, f, s).Done? && StepOf(trusted, f, s).o.Returned? ==>
              StepOf(trusted, f, s).o.value.tag == TInt64
    ensures StepOf(trusted, f, s).Done? ==> !StepOf(trusted, f, s).o.Failed?
  {
    hide StepOf, HandlersLabelled, IsInlineSafe, JumpDelta, IsRelativeJump;
    assert Unchecked(f) == f;
    CheckedStep(trusted, f, s);
  }

  lemma {:induction false} ReturnsInt(
      trusted: bool, m: Module, fn: Function, f: Frame, given: set<int>, d: seq<set<int>>, s: State, n: nat)
    requires Carries(m, fn, f) && Integers(f.code, f.constants, given, d) && Tagged(f, fn.regCount, d, s)
    requires InlineBody(f.code, fn.regCount) && f.returnType == AnyType && ReturnsIn(f.code, d)
    ensures match Run(Activation(trusted, f), s, n)
            case Running(_) => true
            case Finished(o) => o.Returned? ==> o.value.tag == TInt64
    decreases n
  {
    hide StepOf, Integers, Tagged, InlineBody, Carries, ReturnsIn;
    if n > 0 && InCode(f, s) {
      ReturnTagged(trusted, f, fn.regCount, d, s);
      StepTagged(trusted, m, fn, f, given, d, s);
      if StepOf(trusted, f, s).Next? { ReturnsInt(trusted, m, fn, f, given, d, StepOf(trusted, f, s).s, n - 1); }
    }
  }

  lemma ResultMatches(trusted: bool, m: Module, g: nat, f: Frame, args: seq<Value>, w: World)
    requires Accepted(m) && g < |m.functions| && ResultAssured(m, m.functions[g]) && Admit(m, g, args).None?
    requires InlineBody(m.functions[g].Code(), m.functions[g].regCount) && Carries(m, m.functions[g], f)
    requires f.code == m.functions[g].Code() && f.returnType == AnyType
    ensures var o := Result(Activation(trusted, f), EntryState(m.functions[g].regCount, args, w));
            o.Returned? ==> Matches(o.value, m.functions[g].returnType)
  {
    hide StepOf, Admit, Carries, Integers, InlineBody, EntryState, Run, Tagged, Accepted, ReturnsIn;
    var fn := m.functions[g];
    var c, s := Activation(trusted, f), EntryState(fn.regCount, args, w);
    if fn.returnType != AnyType {
      var d :| Integers(f.code, m.constants, IntParams(fn), d) && ReturnsIn(f.code, d);
      EntryTagged(m, g, args, d, f, w);
      CarriesPool(m, fn, f);
      if n: nat :| Run(c, s, n).Finished? {
        ReturnsInt(trusted, m, fn, f, IntParams(fn), d, s, n);
        ResultIs(c, s, n);
      }
    }
  }

  lemma CarriesPool(m: Module, fn: Function, f: Frame)
    requires Carries(m, fn, f)
    ensures f.constants == m.constants
  {
  }
}
