/** A counting step and the loop jump behind it become one instruction. */
module LoopFusion {
  import opened Int64
  import opened Bytecode
  import opened Machines
  import opened Interpreter
  import opened Steps
  import opened Runs
  import opened Verifier
  import opened TrustedMode
  import opened Passes
  import opened Relocation
  import opened Blocks
  import opened Pairs

  predicate Fusible(first: Instruction, second: Instruction) {
    && first.a == first.b && JumpDelta(second) < 0x7FFF_FFFF
    && match first.op
       case Add => second.op == DecJnz && first.c == second.a
       case SubImm | AddImm => second.op == JmpIfNotZero && second.a == first.a
       case _ => false
  }

  predicate FusePair(code: seq<Instruction>, p: int) {
    0 <= p && p + 1 < |code| && Fusible(code[p], code[p + 1])
  }

  lemma FusibleShape(i: Instruction, j: Instruction, k: Instruction)
    requires Fusible(i, j)
    ensures JumpDelta(j) < 0x7FFF_FFFF && !Fusible(j, k) && !Fusible(NOP, k)
  {
  }

  // The jump distance is one longer, for the fused instruction stands one place earlier.
  function Fusion(first: Instruction, second: Instruction): Instruction
    requires Fusible(first, second)
  {
    Make(if first.op == Add then AddDecJnz else if first.op == SubImm then SubImmJnz else AddImmJnz,
         first.a, first.c, UnsignedI32(JumpDelta(second) + 1))
  }

  function FusePairs(code: seq<Instruction>): set<int> {
    set p: int | 0 <= p < |code| && FusePair(code, p)
  }

  function Fused(code: seq<Instruction>): (code': seq<Instruction>)
    ensures |code'| == |code|
  {
    seq(|code|, p requires 0 <= p < |code| =>
      if FusePair(code, p) then Fusion(code[p], code[p + 1]) else if FusePair(code, p - 1) then NOP else code[p])
  }

  // Nothing jumps between the two instructions, and no sum is its own loop counter.
  predicate FusionSafe(code: seq<Instruction>) {
    forall p :: 0 <= p < |code| && FusePair(code, p) ==>
      !IsLabel(code, p + 1) && (code[p].op == Add ==> code[p].a != code[p].c)
  }

  lemma FusedMerged(code: seq<Instruction>)
    ensures Merged(code, FusePairs(code), Fused(code))
    ensures FusionSafe(code) ==> Undivided(code, FusePairs(code))
  {
    hide Fusible, Fusion, IsLabel;
    forall p | FusePair(code, p) ensures !FusePair(code, p + 1) {
      if p + 2 < |code| { FusibleShape(code[p], code[p + 1], code[p + 2]); }
    }
  }

  lemma FusedAt(code: seq<Instruction>, p: int)
    requires p in FusePairs(code)
    ensures 0 <= p < |code| && FusePair(code, p) && Fused(code)[p] == Fusion(code[p], code[p + 1])
    ensures FusionSafe(code) ==> !IsLabel(code, p + 1) && (code[p].op == Add ==> code[p].a != code[p].c)
  {
    hide Fusible, Fusion, IsLabel;
  }

  // The counting step.
  lemma CountStep(trusted: bool, f: Frame, s: State)
    requires InCode(f, s) && FusePair(f.code, s.pc) && RegistersFit(f.code[s.pc], |s.regs|)
    ensures var i := f.code[s.pc];
            StepOf(trusted, f, s) ==
              Next(s.(pc := s.pc + 1,
                      regs := s.regs[i.a := Compute(i, s.regs[i.a], s.regs[Operand2(i)]).value]))
  {
    hide StepOf, JumpDelta, Int64.Add, Int64.Sub;
    ComputeStep(trusted, f, s);
  }

  // The fused jump decides and counts like the two instructions, unless the sum is its own
  // counter and that is not zero.
  lemma FusedExact(i: Instruction, j: Instruction, regs: seq<Value>)
    requires Fusible(i, j) && RegistersFit(i, |regs|) && BranchRegsOk(j, |regs|)
    ensures BranchRegsOk(Fusion(i, j), |regs|) && IsRelativeJump(Fusion(i, j).op) && IsRelativeJump(j.op)
    ensures JumpDelta(Fusion(i, j)) == JumpDelta(j) + 1
    ensures var x := Compute(i, regs[i.a], regs[Operand2(i)]).value;
            Branch(Fusion(i, j), regs) == Branch(j, regs[i.a := x]) <==>
              (i.op == Add && i.a == i.c ==> regs[i.a].bits == 0)
  {
    SignedUnsigned(JumpDelta(j) + 1);
    hide JumpDelta;
    var x := Compute(i, regs[i.a], regs[Operand2(i)]).value;
    assert regs[i.a := x][i.a := x] == regs[i.a := x];
    if i.op == Add && i.a == i.c {
      DoubledCount(regs[i.a].bits);
      hide Int64.Add, Int64.Sub;
      assert Branch(Fusion(i, j), regs).regs[i.a] == IntValue(Int64.Sub(regs[i.a].bits, 1));
      assert Branch(j, regs[i.a := x]).regs[i.a] == IntValue(Int64.Sub(x.bits, 1));
      assert regs[i.a := x][i.a := IntValue(Int64.Sub(x.bits, 1))] == regs[i.a := IntValue(Int64.Sub(x.bits, 1))];
    }
  }

  lemma DoubledCount(v: I64)
    ensures Int64.Sub(Int64.Add(v, v), 1) == Int64.Sub(v, 1) <==> v == 0
  {
  }

  // The fused instruction jumps where the pair jumps, or stops short of the pair's end.
  lemma FuseSteps(trusted: bool, m: Module, fn: Function, f: Frame, f': Frame, s: State) returns (t: State)
    requires Carries(m, fn, f) && Carries(m, fn, f') && f' == f.(code := Fused(f.code)) && FusionSafe(f.code)
    requires |s.regs| == fn.regCount && s.pc in FusePairs(f.code)
    ensures InCode(f, s) && InCode(f', s) && StepOf(trusted, f, s) == Next(t)
    ensures t.pc == s.pc + 1 && InCode(f, t) && |t.regs| == fn.regCount && t.tries == s.tries
    ensures StepOf(trusted, f', s).Next? && StepOf(trusted, f, t).Next?
    ensures var u, v := StepOf(trusted, f', s).s, StepOf(trusted, f, t).s;
            v.tries == s.tries && |v.regs| == fn.regCount &&
            ((u == v && IsLabel(f.code, v.pc)) || (u.pc == s.pc + 1 && v == u.(pc := s.pc + 2)))
  {
    hide StepOf, IsLabel, Fusible, JumpDelta, InstructionOk, Fusion, FusionSafe, Branch,
         BranchRegsOk, Compute, IsRelativeJump, FusePairs, Fused, RegistersFit;
    FusedAt(f.code, s.pc);
    var p := s.pc;
    var i, j := f.code[p], f.code[p + 1];
    PairFits(m, fn, f, p);
    FusedExact(i, j, s.regs);
    assert InstructionOk(m, fn, f'.code[p], p, |f'.code|);
    JumpStep(trusted, m, fn, f', s);
    CountStep(trusted, f, s);
    t := StepOf(trusted, f, s).s;
    JumpStep(trusted, m, fn, f, t);
    TargetIsLabel(f.code, p + 1);
  }

  // A register that is both the sum and the counter: added to itself it is doubled before it
  // is decremented, but the fused instruction decrements what it was.
  lemma OwnCounterDiffers(r: U32, delta: U32, regs: seq<Value>)
    requires r < |regs| && regs[r] == IntValue(1) && SignedU32(delta) < 0x7FFF_FFFF
    ensures Fusible(Make(Opcode.Add, r, r, r), Make(DecJnz, r, delta, 0))
    ensures Branch(Make(DecJnz, r, delta, 0), regs[r := IntValue(Int64.Add(1, 1))]).taken
    ensures !Branch(Fusion(Make(Opcode.Add, r, r, r), Make(DecJnz, r, delta, 0)), regs).taken
  {
    hide Int64.Add, Int64.Sub, SignedU32, UnsignedI32, Int64.Wrap;
    SmallSums();
    var i, j := Make(Opcode.Add, r, r, r), Make(DecJnz, r, delta, 0);
    assert Fusion(i, j).op == AddDecJnz && Fusion(i, j).a == Fusion(i, j).b == r;
    assert regs[r := IntValue(Int64.Add(1, 1))][r].bits == 2;
  }

  lemma SmallSums()
    ensures Int64.Add(1, 1) == 2 && Int64.Sub(2, 1) == 1 && Int64.Sub(1, 1) == 0
  {
  }

  lemma FuseMatch(trusted: bool, m: Module, fn: Function, f: Frame, f': Frame, s: State)
    requires Carries(m, fn, f) && Carries(m, fn, f') && f' == f.(code := Fused(f.code)) && FusionSafe(f.code)
    requires |s.regs| == fn.regCount && HandlersLabelled(f.code, s.tries) && s.pc in FusePairs(f.code)
    ensures Matched(Activation(trusted, f'), Activation(trusted, f),
                    (x: State, y: State) => Level(trusted, f, fn.regCount, FusePairs(f.code), x, y), s, s)
  {
    hide StepOf, IsLabel, HandlersLabelled, FusionSafe, Fusible, Fused, Carries;
    var t := FuseSteps(trusted, m, fn, f, f', s);
    FusedMerged(f.code);
    var c := Activation(trusted, f);
    assert Run(c, s, 1) == Running(t);
    assert Run(c, t, 1) == Running(c.step(t).s);
    RunSplit(c, s, 1, 1);
  }

  lemma PairFits(m: Module, fn: Function, f: Frame, p: nat)
    requires Carries(m, fn, f) && FusePair(f.code, p)
    ensures InstructionOk(m, fn, f.code[p + 1], p + 1, |f.code|)
    ensures RegistersFit(f.code[p], fn.regCount) && BranchRegsOk(f.code[p + 1], fn.regCount)
    ensures IsRelativeJump(f.code[p + 1].op) && IsCompute(f.code[p].op) && f.code[p].a < fn.regCount
    ensures Fusible(f.code[p], f.code[p + 1]) && Operand2(f.code[p]) < fn.regCount
    ensures 0 <= p + 1 + JumpDelta(f.code[p + 1]) < |f.code|
  {
    assert InstructionOk(m, fn, f.code[p], p, |f.code|);
    assert InstructionOk(m, fn, f.code[p + 1], p + 1, |f.code|);
    hide JumpDelta;
  }

  lemma TargetIsLabel(code: seq<Instruction>, p: nat)
    requires p < |code| && IsRelativeJump(code[p].op) && 0 <= p + JumpDelta(code[p]) < |code|
    ensures IsLabel(code, p + JumpDelta(code[p]))
  {
    assert NamesTarget(code, p, p + JumpDelta(code[p]));
  }

  // ---- The pass --------------------------------------------------------------------------------

  lemma FusedOk(m: Module, fn: Function, code: seq<Instruction>)
    requires CodeOk(m, fn, code)
    ensures CodeOk(m, fn, Fused(code))
  {
    hide InstructionOk, Fusion, Fusible, JumpDelta;
    forall p | 0 <= p < |code| ensures InstructionOk(m, fn, Fused(code)[p], p, |code|) {
      assert InstructionOk(m, fn, code[p], p, |code|);
      if FusePair(code, p) {
        FusionOk(m, fn, code[p], code[p + 1], p, |code|);
      } else {
        NopOk(m, fn, p, |code|);
      }
    }
  }

  lemma NopOk(m: Module, fn: Function, p: int, size: nat)
    ensures InstructionOk(m, fn, NOP, p, size)
  {
  }

  lemma FusionOk(m: Module, fn: Function, i: Instruction, j: Instruction, p: nat, size: nat)
    requires Fusible(i, j) && InstructionOk(m, fn, i, p, size) && InstructionOk(m, fn, j, p + 1, size)
    ensures InstructionOk(m, fn, Fusion(i, j), p, size)
  {
    SignedUnsigned(JumpDelta(j) + 1);
  }

  lemma FusedFunction(trusted: bool, m: Module, m': Module, fi: nat)
    requires Accepted(m) && Recoded(m, m', fi) && m'.constants == m.constants
    requires m'.functions[fi].regCount == m.functions[fi].regCount
    requires FusionSafe(m.functions[fi].Code()) && m'.functions[fi].Code() == Fused(m.functions[fi].Code())
    ensures SameFunction(trusted, m, m', fi)
  {
    hide FusionSafe, Fused, Fusible, Activation;
    var fn := m.functions[fi];
    AcceptedFunction(m, fi);
    FusedMerged(fn.Code());
    FusedOk(m, fn, fn.Code());
    hide CodeOk;
    forall closure, varargs, env, args, w
      ensures Result(Activation(trusted, FrameOf(m, fi, closure, varargs, env)), EntryState(fn.regCount, args, w))
           == Result(Activation(trusted, FrameOf(m', fi, closure, varargs, env)), EntryState(fn.regCount, args, w))
    {
      var f, f' := FrameOf(m, fi, closure, varargs, env), FrameOf(m', fi, closure, varargs, env);
      forall x: State | x.pc in FusePairs(f.code) && |x.regs| == fn.regCount && HandlersLabelled(f.code, x.tries)
        ensures Matched(Activation(trusted, f'), Activation(trusted, f),
                        (y: State, z: State) => Level(trusted, f, fn.regCount, FusePairs(f.code), y, z), x, x)
      {
        FuseMatch(trusted, m, fn, f, f', x);
      }
      MergedRun(trusted, m, fn, f, f', FusePairs(f.code), EntryState(fn.regCount, args, w));
    }
  }

  lemma FusedEach(code: seq<Instruction>, p: int)
    requires 0 <= p < |code|
    ensures FusePair(code, p) ==> p + 1 < |code| && Fusible(code[p], code[p + 1])
    ensures Fused(code)[p] == if FusePair(code, p) then Fusion(code[p], code[p + 1])
                              else if FusePair(code, p - 1) then NOP else code[p]
  {
    hide Fusible, Fusion;
  }

  lemma FuseOnce(code: seq<Instruction>, p: int)
    requires 0 <= p && p + 1 < |code|
    ensures FusePair(code, p) <==> Fusible(code[p], code[p + 1])
    ensures FusePair(code, p - 1) ==> !FusePair(code, p) && !Fusible(NOP, code[p + 1])
  {
  }

  lemma FuseInside(code: seq<Instruction>)
    ensures !FusePair(code, -1)
  {
  }

  method FuseCode(code: seq<Instruction>) returns (code': seq<Instruction>, changed: bool)
    requires code != []
    ensures code' == Fused(code) && (!changed ==> code' == code)
  {
    hide Fusible, Fusion, Fused, FusePair;
    code', changed := code, false;
    FusedEach(code, |code| - 1);
    FuseInside(code);
    for p := 0 to |code| - 1
      invariant |code'| == |code| && (!changed ==> code' == code)
      invariant forall k :: 0 <= k < p ==> code'[k] == Fused(code)[k]
      invariant code'[p] == if FusePair(code, p - 1) then NOP else code[p]
      invariant forall k :: p < k < |code| ==> code'[k] == code[k]
    {
      FusedEach(code, p);
      FuseOnce(code, p);
      if Fusible(code'[p], code'[p + 1]) {
        code' := code'[p := Fusion(code'[p], code'[p + 1])][p + 1 := NOP];
        changed := true;
      }
    }
    assert code' == Fused(code);
  }

  method RunLoopFusionPass(ws: Workspace, fi: nat) returns (changed: bool)
    requires ws.Valid() && Accepted(ws.View()) && fi < |ws.functions|
    modifies ws`functions
    ensures ws.Valid() && Accepted(ws.View()) && Recoded(old(ws.View()), ws.View(), fi)
    ensures ws.functions[fi].regCount == old(ws.functions)[fi].regCount
    ensures ws.functions[fi].Code() == Fused(old(ws.functions)[fi].Code())
    ensures FusionSafe(old(ws.functions)[fi].Code()) ==>
              forall trusted :: SameFunction(trusted, old(ws.View()), ws.View(), fi)
  {
    hide Accepted, FusionSafe, Fused;
    ghost var m := ws.View();
    AcceptedFunction(m, fi);
    ghost var was := ws.functions[fi].Code();
    var code;
    code, changed := FuseCode(ws.functions[fi].Code());
    FusedOk(m, m.functions[fi], was);
    if changed { ws.Install(fi, code); }
    InstalledOk(m, ws.View(), fi, code);
    RecodedAccepted(m, ws.View(), fi);
    if FusionSafe(was) {
      forall trusted ensures SameFunction(trusted, m, ws.View(), fi) { FusedFunction(trusted, m, ws.View(), fi); }
    }
  }

  // ---- A loop jump that is a label --------------------------------------------------------------

  // Jumps over a subtraction to the test behind it, which chooses between two returns.
  function JumpToTest(): seq<Instruction> {
    [Make(Jmp, 2, 0, 0), Make(SubImm, 0, 0, 1), Make(JmpIfNotZero, 0, 2, 0), Make(Ret, 1, 0, 0), Make(Ret, 0, 0, 0)]
  }

  // The verifier accepts that code.
  lemma JumpToTestOk(m: Module, fn: Function)
    requires fn.regCount > 1
    ensures CodeOk(m, fn, JumpToTest())
  {
  }

  // The test is gone, and the other return is taken.
  lemma LabelledTest(trusted: bool, f: Frame, w: World)
    requires f.code == JumpToTest() && f.returnType == AnyType
    ensures !FusionSafe(f.code)
    ensures Result(Activation(trusted, f), EntryState(2, [IntValue(5)], w)) == Returned(IntValue(5), w)
    ensures Result(Activation(trusted, f.(code := Fused(f.code))), EntryState(2, [IntValue(5)], w)) == Returned(NULL, w)
  {
    hide Activation, Fused, FusionSafe;
    JumpToTestFused();
    TestTaken(trusted, f, w);
    TestSkipped(trusted, f.(code := Fused(f.code)), w);
  }

  lemma TestTaken(trusted: bool, f: Frame, w: World)
    requires f.code == JumpToTest() && f.returnType == AnyType
    ensures Result(Activation(trusted, f), EntryState(2, [IntValue(5)], w)) == Returned(IntValue(5), w)
  {
    hide StepOf;
    var s := EntryState(2, [IntValue(5)], w);
    JumpTaken(trusted, f, s, 0, 2);
    ResultOfStep(Activation(trusted, f), s);
    JumpTaken(trusted, f, s.(pc := 2), 2, 4);
    ResultOfStep(Activation(trusted, f), s.(pc := 2));
    ReturnStep(trusted, f, s.(pc := 4));
    ResultOfStep(Activation(trusted, f), s.(pc := 4));
  }

  lemma JumpTaken(trusted: bool, f: Frame, s: State, p: nat, q: nat)
    requires f.code == JumpToTest() && |s.regs| == 2 && s.regs[0] == IntValue(5)
    requires s.pc == p && (p, q) in {(0, 2), (2, 4)}
    ensures StepOf(trusted, f, s) == Next(s.(pc := q))
  {
    hide StepOf, Branch, JumpDelta;
    JumpAndTest(s.regs);
    BranchStep(trusted, f, s);
  }

  lemma JumpAndTest(regs: seq<Value>)
    requires |regs| == 2 && regs[0] == IntValue(5)
    ensures JumpDelta(JumpToTest()[0]) == 2 == JumpDelta(JumpToTest()[2])
    ensures Branch(JumpToTest()[0], regs) == Branch(JumpToTest()[2], regs) == Branched(regs, true)
  {
  }

  lemma TestSkipped(trusted: bool, f: Frame, w: World)
    requires |f.code| == 5 && f.code[0] == JumpToTest()[0] && f.code[2] == NOP && f.code[3] == JumpToTest()[3]
    requires f.returnType == AnyType
    ensures Result(Activation(trusted, f), EntryState(2, [IntValue(5)], w)) == Returned(NULL, w)
  {
    hide StepOf;
    var s := EntryState(2, [IntValue(5)], w);
    BranchStep(trusted, f, s);
    ResultOfStep(Activation(trusted, f), s);
    NopStep(trusted, f, s.(pc := 2));
    ResultOfStep(Activation(trusted, f), s.(pc := 2));
    ReturnStep(trusted, f, s.(pc := 3));
    ResultOfStep(Activation(trusted, f), s.(pc := 3));
  }

  lemma JumpToTestFused()
    ensures !FusionSafe(JumpToTest()) && |Fused(JumpToTest())| == 5
    ensures Fused(JumpToTest())[0] == JumpToTest()[0] && Fused(JumpToTest())[2] == NOP
    ensures Fused(JumpToTest())[3] == JumpToTest()[3]
  {
    var code := JumpToTest();
    JumpToTestLabel();
    JumpToTestPairs();
    hide Fusion, Fusible, FusePair, IsLabel;
    assert FusePair(code, 1) && !FusePair(code, 0) && !FusePair(code, 2) && !FusePair(code, 3);
  }

  lemma JumpToTestLabel()
    ensures IsLabel(JumpToTest(), 2)
  {
    assert NamesTarget(JumpToTest(), 0, 2);
  }

  lemma JumpToTestPairs()
    ensures forall p :: FusePair(JumpToTest(), p) <==> p == 1
  {
  }
}
