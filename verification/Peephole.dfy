/** Instructions that do nothing: self-moves, jumps to the next instruction, and additions
    of zero, which are not quite nothing. */
module Peephole {
  import opened Int64
  import opened Bytecode
  import opened Machines
  import opened Interpreter
  import opened Steps
  import opened Runs
  import opened Verifier
  import opened TrustedMode
  import opened Passes
  import opened Blocks
  import opened IntTags
  import opened KnownValues

  // Adds or subtracts nothing, but makes an integer of whatever it is given.
  predicate AddsZero(i: Instruction) { (i.op == AddImm || i.op == SubImm) && SignedU32(i.c) == 0 }

  function Simplified(i: Instruction): Instruction {
    if i.op == Mov && i.a == i.b then NOP
    else if i.op == Jmp && SignedU32(i.a) == 1 then NOP
    else if (i.op == JmpIf || i.op == JmpIfZero || i.op == JmpIfNotZero) && SignedU32(i.b) == 1 then NOP
    else if AddsZero(i) then if i.a == i.b then NOP else Make(Mov, i.a, i.b, 0)
    else i
  }

  function SimplifiedCode(code: seq<Instruction>): (code': seq<Instruction>)
    ensures |code'| == |code|
  {
    seq(|code|, p requires 0 <= p < |code| => Simplified(code[p]))
  }

  // A simplified instruction does what the original did, unless it adds zero to something
  // that is no integer.
  lemma SimplifiedStep(trusted: bool, m: Module, fn: Function, f: Frame, f': Frame, s: State)
    requires Carries(m, fn, f) && f' == f.(code := f'.code) && |f'.code| == |f.code|
    requires InCode(f, s) && |s.regs| == fn.regCount && f'.code[s.pc] == Simplified(f.code[s.pc])
    ensures StepOf(trusted, f, s) == StepOf(trusted, f', s)
       <==> (AddsZero(f.code[s.pc]) ==> s.regs[f.code[s.pc].b].tag == TInt64)
  {
    var i := f.code[s.pc];
    assert InstructionOk(m, fn, i, s.pc, |f.code|);
    if AddsZero(i) {
      ZeroStep(trusted, f, f', s);
    } else if Simplified(i) == i {
      hide Simplified;
      KeptStep(trusted, m, fn, f, f', s);
    } else {
      SkippedStep(trusted, f, f', s);
    }
  }

  lemma SkippedStep(trusted: bool, f: Frame, f': Frame, s: State)
    requires f' == f.(code := f'.code) && |f'.code| == |f.code| && InCode(f, s)
    requires f'.code[s.pc] == Simplified(f.code[s.pc]) != f.code[s.pc] && !AddsZero(f.code[s.pc])
    requires RegistersFit(f.code[s.pc], |s.regs|) && TargetsFit(f.code[s.pc], s.pc, |f.code|)
    ensures StepOf(trusted, f, s) == StepOf(trusted, f', s)
  {
    hide StepOf;
    var i := f.code[s.pc];
    NopStep(trusted, f', s);
    if i.op == Mov {
      ComputeStep(trusted, f, s);
      assert s.regs[i.a := s.regs[i.a]] == s.regs;
    } else {
      BranchStep(trusted, f, s);
    }
  }

  lemma ZeroStep(trusted: bool, f: Frame, f': Frame, s: State)
    requires f' == f.(code := f'.code) && |f'.code| == |f.code| && InCode(f, s)
    requires f'.code[s.pc] == Simplified(f.code[s.pc]) && AddsZero(f.code[s.pc])
    requires f.code[s.pc].a < |s.regs| && f.code[s.pc].b < |s.regs|
    ensures StepOf(trusted, f, s) == StepOf(trusted, f', s) <==> s.regs[f.code[s.pc].b].tag == TInt64
  {
    hide ExecCall, ExecForeign, ExecTry, ExecString, ExecVarArg, ExecEnd, ExecLoadK, ExecBranch;
    var i := f.code[s.pc];
    var x := s.regs[i.b];
    assert Compute(i, x, x) == Some(IntValue(x.bits));
    if i.a == i.b {
      assert s.regs[i.a := IntValue(x.bits)] == s.regs <==> x.tag == TInt64 by {
        assert s.regs[i.a := IntValue(x.bits)][i.a] == IntValue(x.bits);
      }
    } else {
      assert s.regs[i.a := IntValue(x.bits)][i.a] == IntValue(x.bits) && s.regs[i.a := x][i.a] == x;
    }
  }

  // ---- The pass --------------------------------------------------------------------------------

  // Zero is added to registers in `d` only.
  predicate ZerosIn(code: seq<Instruction>, d: seq<set<int>>) {
    |d| == |code| && forall p :: 0 <= p < |code| && AddsZero(code[p]) ==> code[p].b in d[p]
  }

  // Zero is added only to what certainly is an integer.
  ghost predicate ZerosMeetInts(fn: Function, constants: seq<Constant>) {
    exists d :: Integers(fn.Code(), constants, IntParams(fn), d) && ZerosIn(fn.Code(), d)
  }

  lemma SimplifiedRun(
      trusted: bool, m: Module, fn: Function, f: Frame, f': Frame, given: set<int>, d: seq<set<int>>, s: State)
    requires Carries(m, fn, f) && f' == f.(code := SimplifiedCode(f.code))
    requires Integers(f.code, f.constants, given, d) && ZerosIn(f.code, d) && Tagged(f, fn.regCount, d, s)
    ensures Result(Activation(trusted, f), s) == Result(Activation(trusted, f'), s)
  {
    hide StepOf, Carries, AddsZero, Simplified, Integers, HandlersLabelled;
    var inv := (t: State) => Tagged(f, fn.regCount, d, t);
    forall t | inv(t) && InCode(f, t)
      ensures StepOf(trusted, f, t) == StepOf(trusted, f', t)
      ensures StepOf(trusted, f, t).Next? ==> inv(StepOf(trusted, f, t).s)
    {
      ZeroOperand(m, fn, f, t.pc);
      SimplifiedStep(trusted, m, fn, f, f', t);
      StepTagged(trusted, m, fn, f, given, d, t);
    }
    AgreeingResults(Activation(trusted, f), Activation(trusted, f'), inv, s);
  }

  lemma ZeroOperand(m: Module, fn: Function, f: Frame, p: int)
    requires Carries(m, fn, f) && 0 <= p < |f.code|
    ensures AddsZero(f.code[p]) ==> f.code[p].b < fn.regCount
  {
    assert InstructionOk(m, fn, f.code[p], p, |f.code|);
  }

  lemma SimplifiedOk(m: Module, fn: Function, code: seq<Instruction>)
    requires CodeOk(m, fn, code)
    ensures CodeOk(m, fn, SimplifiedCode(code))
  {
    forall p | 0 <= p < |code| ensures InstructionOk(m, fn, SimplifiedCode(code)[p], p, |code|) {
      assert InstructionOk(m, fn, code[p], p, |code|);
    }
  }

  lemma SimplifiedFunction(trusted: bool, m: Module, m': Module, fi: nat)
    requires Accepted(m) && Recoded(m, m', fi) && m'.constants == m.constants
    requires m'.functions[fi].regCount == m.functions[fi].regCount
    requires ZerosMeetInts(m.functions[fi], m.constants)
    requires m'.functions[fi].Code() == SimplifiedCode(m.functions[fi].Code())
    ensures SameFunction(trusted, m, m', fi)
  {
    hide SimplifiedCode, Integers, Admit, Tagged;
    var fn := m.functions[fi];
    var d :| Integers(fn.Code(), m.constants, IntParams(fn), d) && ZerosIn(fn.Code(), d);
    AcceptedFunction(m, fi);
    forall closure, varargs, env, args, w | Admit(m, fi, args).None?
      ensures Result(Activation(trusted, FrameOf(m, fi, closure, varargs, env)), EntryState(fn.regCount, args, w))
           == Result(Activation(trusted, FrameOf(m', fi, closure, varargs, env)), EntryState(fn.regCount, args, w))
    {
      var f, f' := FrameOf(m, fi, closure, varargs, env), FrameOf(m', fi, closure, varargs, env);
      EntryTagged(m, fi, args, d, f, w);
      SimplifiedRun(trusted, m, fn, f, f', IntParams(fn), d, EntryState(fn.regCount, args, w));
    }
  }

  method RunPeepholePass(ws: Workspace, fi: nat) returns (changed: bool)
    requires ws.Valid() && Accepted(ws.View()) && fi < |ws.functions|
    modifies ws`functions
    ensures ws.Valid() && Accepted(ws.View()) && Recoded(old(ws.View()), ws.View(), fi)
    ensures ws.functions[fi].regCount == old(ws.functions)[fi].regCount
    ensures ws.functions[fi].Code() == SimplifiedCode(old(ws.functions)[fi].Code())
    ensures ZerosMeetInts(old(ws.functions)[fi], ws.constants) ==>
              forall trusted :: SameFunction(trusted, old(ws.View()), ws.View(), fi)
  {
    hide Accepted, ZerosMeetInts, Simplified;
    ghost var m := ws.View();
    AcceptedFunction(m, fi);
    var code := ws.functions[fi].Code();
    ghost var was := code;
    changed := false;
    for p := 0 to |code|
      invariant |code| == |was| && (!changed ==> code == was)
      invariant forall k :: 0 <= k < p ==> code[k] == Simplified(was[k])
      invariant forall k :: p <= k < |was| ==> code[k] == was[k]
    {
      var i' := Simplified(code[p]);
      changed := changed || i' != code[p];
      code := code[p := i'];
    }
    assert code == SimplifiedCode(was);
    SimplifiedOk(m, m.functions[fi], was);
    if changed { ws.Install(fi, code); }
    InstalledOk(m, ws.View(), fi, code);
    RecodedAccepted(m, ws.View(), fi);
    if ZerosMeetInts(m.functions[fi], m.constants) {
      forall trusted ensures SameFunction(trusted, m, ws.View(), fi) { SimplifiedFunction(trusted, m, ws.View(), fi); }
    }
  }
}
