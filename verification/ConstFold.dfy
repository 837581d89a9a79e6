/** Block-local constant folding, for code with handlers too. */
module ConstFold {
  import opened Int64
  import opened Bytecode
  import opened Machines
  import opened Interpreter
  import opened Steps
  import opened Runs
  import opened Verifier
  import opened TrustedMode
  import opened KnownValues
  import opened Effects
  import opened Blocks
  import opened Passes

  type KnownMap = map<int, Known>

  function GetKnown(known: KnownMap, r: int): Known { if r in known then known[r] else Anything }

  function SetKnown(known: KnownMap, r: int, k: Known): KnownMap {
    if k.Anything? then known - {r} else known[r := k]
  }

  // The knowledge after an instruction that control leaves by falling through.
  function Learn(constants: seq<Constant>, i: Instruction, known: KnownMap): KnownMap {
    if IsCompute(i.op) then
      SetKnown(known, i.a, AbsCompute(i, GetKnown(known, Operand1(i)), GetKnown(known, Operand2(i))))
    else
      match i.op
      case LoadK => SetKnown(known, i.a, AbsLoadK(constants, i.b))
      case Call | CallClosure | FfiCall | Closure | GetUpval | VarArg | StrLen | StrConcat | NewObject | Invoke
         | SubImmJnz | AddImmJnz | DecJnz => SetKnown(known, i.a, Anything)
      case AddDecJnz => SetKnown(SetKnown(known, i.a, Anything), i.b, Anything)
      case _ => known
  }

  // Copies are left to copy propagation.
  function FoldLocally(i: Instruction, known: KnownMap): Rewrite {
    if i.op == Mov then Keep
    else Fold(i, GetKnown(known, if IsCompute(i.op) then Operand1(i) else i.a), GetKnown(known, Operand2(i)))
  }

  predicate Holds(known: KnownMap, regs: seq<Value>) {
    forall r :: r in known && 0 <= r < |regs| ==> Fits(known[r], regs[r])
  }

  // The registers a variadic copy fills behind the first, which are not forgotten, are unknown.
  predicate WindowUnknown(i: Instruction, known: KnownMap) {
    i.op == VarArg ==> forall r :: r in known ==> !(i.a < r < i.a + i.c)
  }

  // What is known says something.
  predicate Sharp(known: KnownMap) { forall r :: r in known ==> !known[r].Anything? }

  function Witness(k: Known): (v: Value)
    ensures Fits(k, v)
  {
    match k
    case Anything => NULL
    case KnownInt(n) => IntValue(n)
    case KnownBool(b) => BoolValue(b)
  }

  // Forgetting only the first register of a variadic copy is right, whatever the surplus
  // arguments, if and only if nothing is known about the others.
  lemma WindowExact(i: Instruction, known: KnownMap, n: nat)
    requires i.op == VarArg && i.a + i.c <= n && Sharp(known)
    ensures WindowUnknown(i, known) <==>
            forall regs, vs :: |regs| == n && |vs| == i.c && Holds(known, regs) ==>
              Holds(known - {i.a}, Filled(regs, i.a, vs))
  {
    if !WindowUnknown(i, known) {
      var x :| x in known && i.a < x < i.a + i.c;
      var regs := seq(n, r => if r in known then Witness(known[r]) else NULL);
      var vs := seq(i.c, _ => NULL);
      assert |regs| == n && |vs| == i.c && Holds(known, regs);
      assert Filled(regs, i.a, vs)[x] == NULL && !Fits(known[x], NULL);
    }
  }

  lemma LearnSound(trusted: bool, m: Module, fn: Function, f: Frame, s: State, known: KnownMap)
    requires Carries(m, fn, f) && InCode(f, s) && |s.regs| == fn.regCount
    requires WindowUnknown(f.code[s.pc], known)
    requires Holds(known, s.regs) && Exec(trusted, f, s).Go?
    ensures Holds(Learn(f.constants, f.code[s.pc], known), Exec(trusted, f, s).s.regs)
  {
    hide Exec;
    var i, t := f.code[s.pc], Exec(trusted, f, s).s;
    var after := Learn(f.constants, i, known);
    ExecChanges(trusted, m, fn, f, s);
    CarriedRegisters(m, fn, f, s.pc);
    forall r | r in after && 0 <= r < |t.regs| ensures Fits(after[r], t.regs[r]) {
      if IsCompute(i.op) && r == i.a {
        ComputedKnown(trusted, f, s, known);
      } else if i.op == LoadK && r == i.a {
        LoadedKnown(trusted, f, s);
      } else {
        UntouchedKnown(f.constants, i, known, fn.regCount, r);
      }
    }
  }

  lemma CarriedRegisters(m: Module, fn: Function, f: Frame, p: int)
    requires Carries(m, fn, f) && 0 <= p < |f.code|
    ensures RegistersFit(f.code[p], fn.regCount)
  {
    assert InstructionOk(m, fn, f.code[p], p, |f.code|);
  }

  lemma UntouchedKnown(constants: seq<Constant>, i: Instruction, known: KnownMap, n: U16, r: int)
    requires r in Learn(constants, i, known) && WindowUnknown(i, known) && RegistersFit(i, n)
    requires (IsCompute(i.op) || i.op == LoadK) ==> r != i.a
    ensures r in known && Learn(constants, i, known)[r] == known[r] && !WritesReg(i, r)
  {
    hide AbsCompute, AbsLoadK;
  }

  lemma ComputedKnown(trusted: bool, f: Frame, s: State, known: KnownMap)
    requires InCode(f, s) && IsCompute(f.code[s.pc].op) && RegistersFit(f.code[s.pc], |s.regs|)
    requires Holds(known, s.regs) && Exec(trusted, f, s).Go?
    ensures var i := f.code[s.pc];
            Fits(AbsCompute(i, GetKnown(known, Operand1(i)), GetKnown(known, Operand2(i))),
                 Exec(trusted, f, s).s.regs[i.a])
  {
    var i := f.code[s.pc];
    AbsComputeSound(i, GetKnown(known, Operand1(i)), GetKnown(known, Operand2(i)),
                    s.regs[Operand1(i)], s.regs[Operand2(i)]);
    hide AbsCompute, Compute, ExecCall, ExecForeign, ExecTry, ExecString, ExecVarArg, ExecEnd, ExecBranch, ExecLoadK;
  }

  lemma LoadedKnown(trusted: bool, f: Frame, s: State)
    requires InCode(f, s) && f.code[s.pc].op == LoadK && Exec(trusted, f, s).Go?
    ensures f.code[s.pc].a < |Exec(trusted, f, s).s.regs|
    ensures Fits(AbsLoadK(f.constants, f.code[s.pc].b), Exec(trusted, f, s).s.regs[f.code[s.pc].a])
  {
    hide ExecCompute, ExecCall, ExecForeign, ExecTry, ExecString, ExecVarArg, ExecEnd, ExecBranch;
  }

  // ---- Folded code ----------------------------------------------------------------------------

  // The opcode a rewrite leaves behind.
  function OpAfter(r: Rewrite, i: Instruction): Opcode {
    match r
    case Keep => i.op
    case LoadInt(_) => LoadK
    case AlwaysJump => Jmp
    case NeverJump => Nop
  }

  // What is known behind an instruction: nothing behind a jump or terminator.
  function KnownBehind(constants: seq<Constant>, i: Instruction, known: KnownMap): KnownMap {
    var op := OpAfter(FoldLocally(i, known), i);
    if IsRelativeJump(op) || IsTerminator(op) then map[] else Learn(constants, i, known)
  }

  // What is known before `p`: nothing at the entry and at labels, and otherwise what falls
  // through from the instruction above.
  ghost function KnownBefore(code: seq<Instruction>, constants: seq<Constant>, p: nat): KnownMap
    requires p <= |code|
  {
    if p == 0 || IsLabel(code, p) then map[]
    else KnownBehind(constants, code[p - 1], KnownBefore(code, constants, p - 1))
  }

  ghost function FoldAt(code: seq<Instruction>, constants: seq<Constant>, p: nat): Rewrite
    requires p < |code|
  {
    FoldLocally(code[p], KnownBefore(code, constants, p))
  }

  ghost predicate Folded(
      code: seq<Instruction>, constants: seq<Constant>, code': seq<Instruction>, constants': seq<Constant>)
  {
    && |code'| == |code|
    && forall p :: 0 <= p < |code| ==> Realizes(FoldAt(code, constants, p), code[p], code'[p], constants')
  }

  ghost predicate WindowsUnknown(code: seq<Instruction>, constants: seq<Constant>) {
    forall p :: 0 <= p < |code| ==> WindowUnknown(code[p], KnownBefore(code, constants, p))
  }

  lemma {:induction false} KnownBeforeSharp(code: seq<Instruction>, constants: seq<Constant>, p: nat)
    requires p <= |code|
    ensures Sharp(KnownBefore(code, constants, p))
    decreases p
  {
    hide IsLabel, AbsCompute, AbsLoadK, IsRelativeJump, IsTerminator, FoldLocally;
    if p > 0 && !IsLabel(code, p) { KnownBeforeSharp(code, constants, p - 1); }
  }

  // What holds whenever the machine is in a state.
  ghost predicate Informed(f: Frame, n: nat, s: State) {
    && |s.regs| == n && HandlersLabelled(f.code, s.tries)
    && (InCode(f, s) ==> Holds(KnownBefore(f.code, f.constants, s.pc), s.regs))
  }

  // On every run, every entry of the known map equals the register exactly.
  lemma StepInformed(trusted: bool, m: Module, fn: Function, f: Frame, s: State)
    requires Carries(m, fn, f) && WindowsUnknown(f.code, f.constants)
    requires Informed(f, fn.regCount, s) && InCode(f, s)
    ensures StepOf(trusted, f, s).Next? ==> Informed(f, fn.regCount, StepOf(trusted, f, s).s)
  {
    hide StepOf, Exec, IsLabel, Learn, KnownBehind, HandlersLabelled, Carries, WindowUnknown;
    StepStays(trusted, m, fn, f, s);
    if StepOf(trusted, f, s).Next? {
      var t := StepOf(trusted, f, s).s;
      if !IsLabel(f.code, t.pc) && InCode(f, t) {
        LearnSound(trusted, m, fn, f, s, KnownBefore(f.code, f.constants, s.pc));
        BehindCases(f.constants, f.code[s.pc], KnownBefore(f.code, f.constants, s.pc));
      }
    }
  }

  lemma BehindCases(constants: seq<Constant>, i: Instruction, known: KnownMap)
    ensures KnownBehind(constants, i, known) == map[] || KnownBehind(constants, i, known) == Learn(constants, i, known)
  {
  }

  lemma FoldedLocalStep(trusted: bool, m: Module, fn: Function, f: Frame, f': Frame, s: State)
    requires Carries(m, fn, f) && Recodes(f, f') && Indexable(f'.constants)
    requires Folded(f.code, f.constants, f'.code, f'.constants) && Informed(f, fn.regCount, s) && InCode(f, s)
    ensures StepOf(trusted, f, s) == StepOf(trusted, f', s)
  {
    hide StepOf, HandlersLabelled, Fold, KnownBefore;
    var i, known := f.code[s.pc], KnownBefore(f.code, f.constants, s.pc);
    CarriedRegisters(m, fn, f, s.pc);
    assert Realizes(FoldAt(f.code, f.constants, s.pc), i, f'.code[s.pc], f'.constants);
    if i.op == Mov {
      KeptStep(trusted, m, fn, f, f', s);
    } else {
      FoldedStep(trusted, m, fn, f, f', s,
                 GetKnown(known, if IsCompute(i.op) then Operand1(i) else i.a), GetKnown(known, Operand2(i)));
    }
  }

  lemma FoldedRun(trusted: bool, m: Module, fn: Function, f: Frame, f': Frame, s: State)
    requires Carries(m, fn, f) && Recodes(f, f') && Indexable(f'.constants) && WindowsUnknown(f.code, f.constants)
    requires Folded(f.code, f.constants, f'.code, f'.constants) && Informed(f, fn.regCount, s)
    ensures Result(Activation(trusted, f), s) == Result(Activation(trusted, f'), s)
  {
    hide StepOf, KnownBefore, Carries, HandlersLabelled, Folded;
    var inv := (t: State) => Informed(f, fn.regCount, t);
    forall t | inv(t) && InCode(f, t)
      ensures StepOf(trusted, f, t) == StepOf(trusted, f', t)
      ensures StepOf(trusted, f, t).Next? ==> inv(StepOf(trusted, f, t).s)
    {
      FoldedLocalStep(trusted, m, fn, f, f', t);
      StepInformed(trusted, m, fn, f, t);
    }
    AgreeingResults(Activation(trusted, f), Activation(trusted, f'), inv, s);
  }

  // ---- The pass -------------------------------------------------------------------------------

  lemma FoldedFunction(trusted: bool, m: Module, m': Module, fi: nat)
    requires Accepted(m) && Recoded(m, m', fi) && Indexable(m'.constants)
    requires WindowsUnknown(m.functions[fi].Code(), m.constants)
    requires m'.functions[fi].regCount == m.functions[fi].regCount
    requires Folded(m.functions[fi].Code(), m.constants, m'.functions[fi].Code(), m'.constants)
    ensures SameFunction(trusted, m, m', fi)
  {
    hide WindowsUnknown;
    var fn := m.functions[fi];
    AcceptedFunction(m, fi);
    forall closure, varargs, env, args, w
      ensures Result(Activation(trusted, FrameOf(m, fi, closure, varargs, env)), EntryState(fn.regCount, args, w))
           == Result(Activation(trusted, FrameOf(m', fi, closure, varargs, env)), EntryState(fn.regCount, args, w))
    {
      FoldedRun(trusted, m, fn, FrameOf(m, fi, closure, varargs, env), FrameOf(m', fi, closure, varargs, env),
                EntryState(fn.regCount, args, w));
    }
  }

  lemma FoldedOk(m: Module, m': Module, fi: nat, code': seq<Instruction>)
    requires Accepted(m) && Recoded(m, m', fi) && m'.functions[fi].regCount == m.functions[fi].regCount
    requires Folded(m.functions[fi].Code(), m.constants, code', m'.constants)
    ensures CodeOk(m', m'.functions[fi], code')
  {
    hide InstructionOk, FoldLocally, Realizes, KnownBefore;
    var fn := m.functions[fi];
    var code := fn.Code();
    AcceptedFunction(m, fi);
    forall pc | 0 <= pc < |code'| ensures InstructionOk(m', m'.functions[fi], code'[pc], pc, |code'|) {
      assert InstructionOk(m, fn, code[pc], pc, |code|);
      RecodedInstruction(m, m', fi, fn, code[pc], pc, |code|);
      FoldShape(code[pc], KnownBefore(code, m.constants, pc));
      RealizedOk(m, fn, m', FoldAt(code, m.constants, pc), code[pc], code'[pc], pc, |code|);
      SameSignatureOk(m', fn, m'.functions[fi], code'[pc], pc, |code|);
    }
  }

  lemma FoldShape(i: Instruction, known: KnownMap)
    ensures var r := FoldLocally(i, known);
            && (r.LoadInt? ==> IsCompute(i.op))
            && (r.AlwaysJump? ==> i.op == JmpIf || i.op == JmpIfZero || i.op == JmpIfNotZero)
  {
  }

  lemma LearnOverPool(constants: seq<Constant>, more: seq<Constant>, i: Instruction, known: KnownMap)
    requires constants <= more && (i.op == LoadK ==> i.b < |constants|)
    ensures Learn(more, i, known) == Learn(constants, i, known)
  {
    hide AbsCompute;
  }

  lemma RealizedOp(r: Rewrite, i: Instruction, i': Instruction, constants: seq<Constant>)
    requires Realizes(r, i, i', constants)
    ensures i'.op == OpAfter(r, i)
  {
  }

  lemma LoadsKnown(m: Module, fn: Function, code: seq<Instruction>, p: nat)
    requires CodeOk(m, fn, code) && p < |code|
    ensures code[p].op == LoadK ==> code[p].b < |m.constants|
  {
    assert InstructionOk(m, fn, code[p], p, |code|);
  }

  method FoldCode(ws: Workspace, ghost m: Module, ghost fn: Function, code: seq<Instruction>)
    returns (code': seq<Instruction>, changed: bool)
    requires ws.Valid() && CodeOk(m, fn, code) && m.constants == ws.constants
    modifies ws`constants, ws`int64Cache
    ensures ws.Valid() && old(ws.constants) <= ws.constants && |ws.constants| <= |old(ws.constants)| + |code|
    ensures Folded(code, old(ws.constants), code', ws.constants)
    ensures !changed ==> code' == code
  {
    hide IsLabel, Learn, FoldLocally, Realizes, IsRelativeJump, IsTerminator, CodeOk, OpAfter;
    ghost var pool := ws.constants;
    var labels := CollectJumpTargets(code);
    var known: KnownMap := map[];
    code', changed := code, false;
    for p := 0 to |code|
      invariant ws.Valid() && pool <= ws.constants && |ws.constants| <= |pool| + p
      invariant |code'| == |code| && (!changed ==> code' == code)
      invariant p < |code| ==> KnownBefore(code, pool, p) == if IsLabel(code, p) then map[] else known
      invariant forall k :: p <= k < |code| ==> code'[k] == code[k]
      invariant forall k :: 0 <= k < p ==> Realizes(FoldAt(code, pool, k), code[k], code'[k], ws.constants)
    {
      if p in labels { known := map[]; }
      var i := code'[p];
      ghost var before := ws.constants;
      LoadsKnown(m, fn, code, p);
      LearnOverPool(pool, ws.constants, i, known);
      var learnt := Learn(ws.constants, i, known);
      var i' := ws.Apply(FoldLocally(i, known), i);
      RealizedOp(FoldLocally(i, known), i, i', ws.constants);
      changed := changed || i' != i;
      code' := code'[p := i'];
      forall k | 0 <= k < p ensures Realizes(FoldAt(code, pool, k), code[k], code'[k], ws.constants) {
        RealizedLater(FoldAt(code, pool, k), code[k], code'[k], before, ws.constants);
      }
      known := if IsRelativeJump(i'.op) || IsTerminator(i'.op) then map[] else learnt;
    }
  }

  // The block-local part of constant folding, for code with handlers too.
  method RunConstFoldPass(ws: Workspace, fi: nat) returns (changed: bool)
    requires ws.Valid() && Accepted(ws.View()) && fi < |ws.functions|
    modifies ws
    ensures ws.Valid() && Accepted(ws.View()) && Recoded(old(ws.View()), ws.View(), fi)
    ensures |ws.constants| <= |old(ws.constants)| + |old(ws.functions)[fi].Code()|
    ensures ws.functions[fi].regCount == old(ws.functions)[fi].regCount
    ensures Folded(old(ws.functions)[fi].Code(), old(ws.constants), ws.functions[fi].Code(), ws.constants)
    ensures WindowsUnknown(old(ws.functions)[fi].Code(), old(ws.constants)) && Indexable(ws.constants) ==>
              forall trusted :: SameFunction(trusted, old(ws.View()), ws.View(), fi)
  {
    hide Accepted, WindowsUnknown;
    ghost var m := ws.View();
    AcceptedFunction(m, fi);
    var code;
    code, changed := FoldCode(ws, m, m.functions[fi], ws.functions[fi].Code());
    if changed { ws.Install(fi, code); }
    FoldedOk(m, ws.View(), fi, code);
    RecodedAccepted(m, ws.View(), fi);
    if WindowsUnknown(m.functions[fi].Code(), m.constants) && Indexable(ws.constants) {
      forall trusted ensures SameFunction(trusted, m, ws.View(), fi) {
        FoldedFunction(trusted, m, ws.View(), fi);
      }
    }
  }

  // ---- Variadic copies of two registers -------------------------------------------------------

  // A constant in register 1, surplus arguments into registers 0 and 1, then register 1 + 1.
  function VarArgOverwrites(): seq<Instruction> {
    [Make(LoadK, 1, 0, 0), Make(VarArg, 0, 0, 2), Make(Inc, 1, 0, 0), Make(Ret, 1, 0, 0)]
  }

  // The verifier accepts that code.
  lemma VarArgOverwritesOk(m: Module, fn: Function)
    requires fn.regCount > 1 && fn.isVararg && m.constants != []
    ensures CodeOk(m, fn, VarArgOverwrites())
  {
  }

  lemma NoLabels()
    ensures forall t :: !IsLabel(VarArgOverwrites(), t)
  {
  }

  lemma StaleKnowledge()
    ensures KnownBefore(VarArgOverwrites(), [IntConst(5)], 1) == map[1 := KnownInt(5)]
    ensures KnownBefore(VarArgOverwrites(), [IntConst(5)], 2) == map[1 := KnownInt(5)]
  {
    hide KnownBehind, IsLabel;
    var code, pool := VarArgOverwrites(), [IntConst(5)];
    NoLabels();
    assert KnownBefore(code, pool, 0) == map[];
    BehindLoad(map[]);
    assert KnownBefore(code, pool, 1) == map[1 := KnownInt(5)];
    BehindVarArg(map[1 := KnownInt(5)]);
  }

  lemma StaleInWindow()
    ensures !WindowUnknown(VarArgOverwrites()[1], map[1 := KnownInt(5)])
  {
    var known: KnownMap := map[1 := KnownInt(5)];
    assert 1 in known;
  }

  lemma StaleWindow()
    ensures !WindowsUnknown(VarArgOverwrites(), [IntConst(5)])
  {
    hide KnownBefore, WindowUnknown;
    StaleKnowledge();
    StaleInWindow();
    var code, pool := VarArgOverwrites(), [IntConst(5)];
    assert !WindowUnknown(code[1], KnownBefore(code, pool, 1));
  }

  lemma BehindLoad(known: KnownMap)
    ensures KnownBehind([IntConst(5)], VarArgOverwrites()[0], known) == known[1 := KnownInt(5)]
  {
  }

  lemma BehindVarArg(known: KnownMap)
    ensures KnownBehind([IntConst(5)], VarArgOverwrites()[1], known) == known - {0}
  {
  }

  lemma KeptAsIs(i: Instruction, i': Instruction, constants: seq<Constant>)
    requires Realizes(Keep, i, i', constants)
    ensures i' == i
  {
  }

  lemma LoadedAs(v: I64, i: Instruction, i': Instruction, constants: seq<Constant>)
    requires Realizes(LoadInt(v), i, i', constants) && Indexable(constants)
    ensures i' == Make(LoadK, i.a, i'.b, 0) && i'.b < |constants| && constants[i'.b] == IntConst(v)
  {
  }

  // The increment is folded from the overwritten constant.
  lemma StaleFold(code': seq<Instruction>, constants': seq<Constant>)
    requires Folded(VarArgOverwrites(), [IntConst(5)], code', constants') && Indexable(constants')
    ensures |code'| == 4
    ensures code'[0] == VarArgOverwrites()[0] && code'[1] == VarArgOverwrites()[1] && code'[3] == VarArgOverwrites()[3]
    ensures code'[2] == Make(LoadK, 1, code'[2].b, 0) && code'[2].b < |constants'|
    ensures constants'[code'[2].b] == IntConst(6)
  {
    hide FoldAt, Realizes, Indexable;
    var code, pool := VarArgOverwrites(), [IntConst(5)];
    StaleRewrites();
    forall p | 0 <= p < 4 ensures Realizes(FoldAt(code, pool, p), code[p], code'[p], constants') {
    }
    KeptAsIs(code[0], code'[0], constants');
    KeptAsIs(code[1], code'[1], constants');
    KeptAsIs(code[3], code'[3], constants');
    LoadedAs(6, code[2], code'[2], constants');
  }

  lemma StaleRewrites()
    ensures var code, pool := VarArgOverwrites(), [IntConst(5)];
            && FoldAt(code, pool, 0) == FoldAt(code, pool, 1) == FoldAt(code, pool, 3) == Keep
            && FoldAt(code, pool, 2) == LoadInt(6)
  {
    var code, pool := VarArgOverwrites(), [IntConst(5)];
    hide KnownBefore, FoldLocally;
    StaleKnowledge();
    NeverFolded(code[0], KnownBefore(code, pool, 0));
    NeverFolded(code[1], KnownBefore(code, pool, 1));
    IncFolded();
    NeverFolded(code[3], KnownBefore(code, pool, 3));
  }

  lemma NeverFolded(i: Instruction, known: KnownMap)
    requires i.op == LoadK || i.op == VarArg || i.op == Ret
    ensures FoldLocally(i, known) == Keep
  {
  }

  lemma IncFolded()
    ensures FoldLocally(VarArgOverwrites()[2], map[1 := KnownInt(5)]) == LoadInt(6)
  {
  }

  lemma VarArgTwo(trusted: bool, f: Frame, w: World)
    requires |f.code| == 4 && f.code[0] == VarArgOverwrites()[0] && f.code[1] == VarArgOverwrites()[1]
    requires f.constants != [] && f.constants[0] == IntConst(5) && f.varargs == [NULL, IntValue(9)]
    ensures Result(Activation(trusted, f), EntryState(2, [], w))
         == Result(Activation(trusted, f), State(2, [NULL, IntValue(9)], [], w))
  {
    hide ExecCompute, ExecBranch, ExecForeign, ExecString, ExecTry, ExecCall, ExecEnd;
    var s := EntryState(2, [], w);
    var s1 := State(1, [NULL, IntValue(5)], [], w);
    assert s.regs[1 := IntValue(5)] == s1.regs;
    assert StepOf(trusted, f, s) == Next(s1);
    ResultOfStep(Activation(trusted, f), s);
    VarArgStep(trusted, f, s1);
    ResultOfStep(Activation(trusted, f), s1);
  }

  lemma VarArgStep(trusted: bool, f: Frame, s: State)
    requires |f.code| == 4 && f.code[1] == VarArgOverwrites()[1] && f.varargs == [NULL, IntValue(9)]
    requires s.pc == 1 && |s.regs| == 2
    ensures StepOf(trusted, f, s) == Next(State(2, [NULL, IntValue(9)], s.tries, s.world))
  {
    hide ExecCompute, ExecBranch, ExecForeign, ExecString, ExecTry, ExecCall, ExecEnd, ExecLoadK;
    var i := f.code[1];
    var t1 := s.(regs := s.regs[0 := NULL]);
    var t2 := s.(regs := [NULL, IntValue(9)]);
    assert t1.regs[1 := IntValue(9)] == t2.regs;
    assert ExecVarArg(trusted, f, i, 2, t2) == Go(t2.(pc := 2));
    assert ExecVarArg(trusted, f, i, 1, t1) == ExecVarArg(trusted, f, i, 2, t2);
    assert ExecVarArg(trusted, f, i, 0, s) == ExecVarArg(trusted, f, i, 1, t1);
  }

  lemma TailReturns(trusted: bool, f: Frame, s: State, r: I64)
    requires |f.code| == 4 && f.code[3] == VarArgOverwrites()[3] && f.returnType == AnyType
    requires s == State(2, [NULL, IntValue(9)], [], s.world)
    requires StepOf(trusted, f, s) == Next(State(3, [NULL, IntValue(r)], [], s.world))
    ensures Result(Activation(trusted, f), s) == Returned(IntValue(r), s.world)
  {
    hide StepOf;
    var u := State(3, [NULL, IntValue(r)], [], s.world);
    ResultOfStep(Activation(trusted, f), s);
    ReturnStep(trusted, f, u);
    ResultOfStep(Activation(trusted, f), u);
  }

  // So with two surplus arguments folding changes the result.
  lemma VarArgsAreForgotten(trusted: bool, f: Frame, f': Frame, w: World)
    requires f.code == VarArgOverwrites() && f.constants == [IntConst(5)] && f.returnType == AnyType
    requires f.varargs == [NULL, IntValue(9)]
    requires f' == f.(code := f'.code, constants := f'.constants) && f.constants <= f'.constants
    requires Folded(f.code, f.constants, f'.code, f'.constants) && Indexable(f'.constants)
    ensures !WindowsUnknown(f.code, f.constants)
    ensures Result(Activation(trusted, f), EntryState(2, [], w)) == Returned(IntValue(10), w)
    ensures Result(Activation(trusted, f'), EntryState(2, [], w)) == Returned(IntValue(6), w)
  {
    hide Activation, Folded, Realizes, FoldAt, StepOf;
    StaleWindow();
    StaleFold(f'.code, f'.constants);
    VarArgTwo(trusted, f, w);
    VarArgTwo(trusted, f', w);
    var s := State(2, [NULL, IntValue(9)], [], w);
    IncStep(trusted, f, s, 1);
    assert Int64.Add(9, 1) == 10 && s.regs[1 := IntValue(10)] == [NULL, IntValue(10)];
    TailReturns(trusted, f, s, 10);
    LoadIntStep(trusted, f', s, 1, 6);
    assert s.regs[1 := IntValue(6)] == [NULL, IntValue(6)];
    TailReturns(trusted, f', s, 6);
  }
}
