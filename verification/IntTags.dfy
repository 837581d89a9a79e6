/** Which registers certainly hold integers: a flow analysis that is true on every run,
    handlers included. */
module IntTags {
  import opened Int64
  import opened Bytecode
  import opened Machines
  import opened Interpreter
  import opened Runs
  import opened Verifier
  import opened TrustedMode
  import opened Effects
  import opened Blocks

  // The registers in which an instruction that goes on leaves an integer of its own making.
  function Made(constants: seq<Constant>, i: Instruction): set<int> {
    if IsCompute(i.op) then if i.op == Mov || i.op == CmpEq then {} else {i.a}
    else
      match i.op
      case LoadK => if i.b < |constants| && constants[i.b].IntConst? then {i.a} else {}
      case DecJnz | SubImmJnz | AddImmJnz => {i.a}
      case AddDecJnz => {i.a, i.b}
      case _ => {}
  }

  function IntsBehind(constants: seq<Constant>, i: Instruction, ints: set<int>): set<int> {
    (set r | r in ints && !WritesReg(i, r)) + Made(constants, i) + if i.op == Mov && i.b in ints then {i.a} else {}
  }

  // d[p] are registers that hold integers whenever control is at p, if those in `given` do
  // at the entry; nothing is claimed where exceptions arrive.
  ghost predicate Integers(code: seq<Instruction>, constants: seq<Constant>, given: set<int>, d: seq<set<int>>) {
    && |d| == |code| && (code != [] ==> d[0] <= given)
    && (forall p, q :: 0 <= p < |code| && 0 <= q < |code| && Flows(code, p, q) ==>
          d[q] <= IntsBehind(constants, code[p], d[p]))
    && forall t :: 0 <= t < |code| && IsHandler(code, t) ==> d[t] == {}
  }

  predicate IntsHold(ints: set<int>, regs: seq<Value>) {
    forall r :: r in ints && 0 <= r < |regs| ==> regs[r].tag == TInt64
  }

  // The registers that are checked for integers when a call of `fn` is admitted.
  function IntParams(fn: Function): set<int> {
    set k: int | 0 <= k < fn.paramCount && k < |fn.paramTypes| && fn.paramTypes[k] == Exactly(TInt64)
  }

  ghost predicate Tagged(f: Frame, n: nat, d: seq<set<int>>, s: State) {
    && |s.regs| == n && HandlersLabelled(f.code, s.tries) && |d| == |f.code|
    && (InCode(f, s) ==> IntsHold(d[s.pc], s.regs))
  }

  lemma ComputeTags(trusted: bool, f: Frame, s: State, ints: set<int>)
    requires InCode(f, s) && IsCompute(f.code[s.pc].op) && RegistersFit(f.code[s.pc], |s.regs|)
    requires IntsHold(ints, s.regs) && Exec(trusted, f, s).Go?
    ensures IntsHold(IntsBehind(f.constants, f.code[s.pc], ints), Exec(trusted, f, s).s.regs)
  {
    hide ExecBranch, ExecTry, ExecCall, ExecForeign, ExecLoadK, ExecString, ExecVarArg, ExecEnd, IntBinary, IntUnary;
  }

  lemma LoadTags(trusted: bool, f: Frame, s: State)
    requires InCode(f, s) && f.code[s.pc].op == LoadK && Exec(trusted, f, s).Go?
    ensures IntsHold(Made(f.constants, f.code[s.pc]), Exec(trusted, f, s).s.regs)
  {
    hide ExecBranch, ExecTry, ExecCall, ExecForeign, ExecCompute, ExecString, ExecVarArg, ExecEnd;
  }

  lemma BranchTags(trusted: bool, f: Frame, s: State)
    requires InCode(f, s) && IsRelativeJump(f.code[s.pc].op) && RegistersFit(f.code[s.pc], |s.regs|)
    requires Exec(trusted, f, s).Go?
    ensures IntsHold(Made(f.constants, f.code[s.pc]), Exec(trusted, f, s).s.regs)
  {
    hide ExecLoadK, ExecTry, ExecCall, ExecForeign, ExecCompute, ExecString, ExecVarArg, ExecEnd;
  }

  lemma MadeElsewhere(constants: seq<Constant>, i: Instruction)
    requires !IsCompute(i.op) && !IsRelativeJump(i.op) && i.op != LoadK
    ensures Made(constants, i) == {}
  {
  }

  // The effect of an instruction keeps the analysis true.
  lemma ExecTags(trusted: bool, m: Module, fn: Function, f: Frame, s: State, ints: set<int>)
    requires Carries(m, fn, f) && InCode(f, s) && |s.regs| == fn.regCount
    requires IntsHold(ints, s.regs) && Exec(trusted, f, s).Go?
    ensures IntsHold(IntsBehind(f.constants, f.code[s.pc], ints), Exec(trusted, f, s).s.regs)
  {
    var i := f.code[s.pc];
    assert InstructionOk(m, fn, i, s.pc, |f.code|);
    hide Exec, Made, RegistersFit, WritesReg;
    if IsCompute(i.op) {
      ComputeTags(trusted, f, s, ints);
    } else {
      ExecChanges(trusted, m, fn, f, s);
      if i.op == LoadK {
        LoadTags(trusted, f, s);
      } else if IsRelativeJump(i.op) {
        BranchTags(trusted, f, s);
      } else {
        MadeElsewhere(f.constants, i);
      }
    }
  }

  // On every run, what the analysis says is so.
  lemma StepTagged(trusted: bool, m: Module, fn: Function, f: Frame, given: set<int>, d: seq<set<int>>, s: State)
    requires Carries(m, fn, f) && Integers(f.code, f.constants, given, d)
    requires Tagged(f, fn.regCount, d, s) && InCode(f, s)
    ensures StepOf(trusted, f, s).Next? ==> Tagged(f, fn.regCount, d, StepOf(trusted, f, s).s)
  {
    hide StepOf, Exec, Carries, IsHandler, HandlersLabelled, IntsBehind, Flows;
    StepMoves(trusted, m, fn, f, s);
    if StepOf(trusted, f, s).Next? {
      var t := StepOf(trusted, f, s).s;
      if InCode(f, t) && !IsHandler(f.code, t.pc) {
        ExecTags(trusted, m, fn, f, s, d[s.pc]);
      }
    }
  }

  lemma EntryTagged(m: Module, fi: nat, args: seq<Value>, d: seq<set<int>>, f: Frame, w: World)
    requires fi < |m.functions| && Admit(m, fi, args).None?
    requires f.code == m.functions[fi].Code() && Integers(f.code, m.constants, IntParams(m.functions[fi]), d)
    ensures Tagged(f, m.functions[fi].regCount, d, EntryState(m.functions[fi].regCount, args, w))
  {
    var fn := m.functions[fi];
    forall r | r in d[0] && 0 <= r < fn.regCount ensures EntryRegs(fn.regCount, args)[r].tag == TInt64 {
      assert Matches(args[r], fn.paramTypes[r]);
    }
  }
}
