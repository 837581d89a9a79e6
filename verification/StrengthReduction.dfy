/** Multiplications by a known 0, 1 or 2. */
module StrengthReduction {
  import opened Int64
  import opened Bytecode
  import opened Machines
  import opened Interpreter
  import opened Runs
  import opened Verifier
  import opened TrustedMode
  import opened KnownValues
  import opened Effects
  import opened Blocks
  import opened Passes
  import opened ConstFold
  import opened IntTags

  datatype Reduction = Same | Zero | CopyOf(x: U32) | Double(x: U32)

  // The known factor counts, the left one first; `x` is the other factor.
  function Reduce(i: Instruction, known: KnownMap): Reduction {
    var l, r := GetKnown(known, i.b), GetKnown(known, i.c);
    if i.op != Mul || !(l.KnownInt? || r.KnownInt?) then Same
    else
      var (k, x) := if l.KnownInt? then (l.v, i.c) else (r.v, i.b);
      if k == 0 then Zero else if k == 1 then CopyOf(x) else if k == 2 then Double(x) else Same
  }

  function LearnReduced(constants: seq<Constant>, i: Instruction, known: KnownMap): KnownMap {
    if i.op != Mul then Learn(constants, i, known)
    else
      SetKnown(known, i.a,
        match Reduce(i, known)
        case Zero => KnownInt(0)
        case CopyOf(x) => GetKnown(known, x)
        case Double(x) =>
          var k := GetKnown(known, x);
          if k.KnownInt? then KnownInt(Int64.Add(k.v, k.v)) else Anything
        case Same => Anything)
  }

  function ReducedBehind(constants: seq<Constant>, i: Instruction, known: KnownMap): KnownMap {
    if IsRelativeJump(i.op) || IsTerminator(i.op) then map[] else LearnReduced(constants, i, known)
  }

  ghost function ReducingBefore(code: seq<Instruction>, constants: seq<Constant>, p: nat): KnownMap
    requires p <= |code|
  {
    if p == 0 || IsLabel(code, p) then map[]
    else ReducedBehind(constants, code[p - 1], ReducingBefore(code, constants, p - 1))
  }

  ghost function ReductionAt(code: seq<Instruction>, constants: seq<Constant>, p: nat): Reduction
    requires p < |code|
  {
    Reduce(code[p], ReducingBefore(code, constants, p))
  }

  predicate ReducesTo(r: Reduction, i: Instruction, i': Instruction, constants: seq<Constant>) {
    match r
    case Same => i' == i
    case Zero => Realizes(LoadInt(0), i, i', constants)
    case CopyOf(x) => i' == Make(Mov, i.a, x, 0)
    case Double(x) => i' == Make(Opcode.Add, i.a, x, x)
  }

  ghost predicate Reduced(
      code: seq<Instruction>, constants: seq<Constant>, code': seq<Instruction>, constants': seq<Constant>)
  {
    && |code'| == |code|
    && forall p :: 0 <= p < |code| ==> ReducesTo(ReductionAt(code, constants, p), code[p], code'[p], constants')
  }

  // What is multiplied by one is in `d` or known to be an integer.
  ghost predicate UnitFactorsIn(code: seq<Instruction>, constants: seq<Constant>, d: seq<set<int>>) {
    |d| == |code| && forall p :: 0 <= p < |code| && ReductionAt(code, constants, p).CopyOf? ==>
      var x := ReductionAt(code, constants, p).x;
      x in d[p] || GetKnown(ReducingBefore(code, constants, p), x).KnownInt?
  }

  // Only integers are multiplied by one.
  ghost predicate UnitsMeetInts(fn: Function, constants: seq<Constant>) {
    exists d :: Integers(fn.Code(), constants, IntParams(fn), d) && UnitFactorsIn(fn.Code(), constants, d)
  }

  ghost predicate WindowsUnreduced(code: seq<Instruction>, constants: seq<Constant>) {
    forall p :: 0 <= p < |code| ==> WindowUnknown(code[p], ReducingBefore(code, constants, p))
  }

  // ---- Meaning -----------------------------------------------------------------------------------

  lemma TimesKnown(x: I64)
    ensures Int64.Mul(0, x) == 0 == Int64.Mul(x, 0)
    ensures Int64.Mul(1, x) == x == Int64.Mul(x, 1)
    ensures Int64.Mul(2, x) == Int64.Add(x, x) == Int64.Mul(x, 2)
  {
  }

  // The product a reduced multiplication computes.
  lemma ReducedProduct(i: Instruction, known: KnownMap, regs: seq<Value>)
    requires i.op == Mul && i.b < |regs| && i.c < |regs| && Holds(known, regs)
    ensures var v := IntValue(Int64.Mul(regs[i.b].bits, regs[i.c].bits));
            match Reduce(i, known)
            case Same => true
            case Zero => v == IntValue(0)
            case CopyOf(x) => x < |regs| && v == IntValue(regs[x].bits)
            case Double(x) => x < |regs| && v == IntValue(Int64.Add(regs[x].bits, regs[x].bits))
  {
    TimesKnown(regs[i.b].bits);
    TimesKnown(regs[i.c].bits);
    hide Int64.Mul, Int64.Add;
  }

  lemma MulStep(trusted: bool, f: Frame, s: State)
    requires InCode(f, s) && f.code[s.pc].op == Mul && RegistersFit(f.code[s.pc], |s.regs|)
    ensures var i := f.code[s.pc];
            Exec(trusted, f, s) ==
              Go(s.(pc := s.pc + 1, regs := s.regs[i.a := IntValue(Int64.Mul(s.regs[i.b].bits, s.regs[i.c].bits))]))
  {
    hide ExecBranch, ExecTry, ExecCall, ExecForeign, ExecVarArg, ExecString, ExecLoadK, ExecEnd, Int64.Mul;
  }

  predicate UnitIsInt(i: Instruction, known: KnownMap, regs: seq<Value>) {
    Reduce(i, known).CopyOf? ==>
      Reduce(i, known).x < |regs| && regs[Reduce(i, known).x].tag == TInt64
  }

  lemma ReducedSound(trusted: bool, m: Module, fn: Function, f: Frame, s: State, known: KnownMap)
    requires Carries(m, fn, f) && InCode(f, s) && |s.regs| == fn.regCount
    requires WindowUnknown(f.code[s.pc], known) && UnitIsInt(f.code[s.pc], known, s.regs)
    requires Holds(known, s.regs) && Exec(trusted, f, s).Go?
    ensures Holds(LearnReduced(f.constants, f.code[s.pc], known), Exec(trusted, f, s).s.regs)
  {
    var i := f.code[s.pc];
    hide Exec, Learn, Int64.Mul, Int64.Add;
    if i.op == Mul {
      CarriedRegisters(m, fn, f, s.pc);
      MulStep(trusted, f, s);
      ReducedProduct(i, known, s.regs);
    } else {
      LearnSound(trusted, m, fn, f, s, known);
    }
  }

  ghost predicate Knowing(f: Frame, n: nat, d: seq<set<int>>, s: State) {
    && Tagged(f, n, d, s) && (InCode(f, s) ==> Holds(ReducingBefore(f.code, f.constants, s.pc), s.regs))
  }

  // What the pass copies is an integer.
  lemma UnitTagged(m: Module, fn: Function, f: Frame, d: seq<set<int>>, s: State)
    requires Carries(m, fn, f) && UnitFactorsIn(f.code, f.constants, d) && Knowing(f, fn.regCount, d, s) && InCode(f, s)
    ensures UnitIsInt(f.code[s.pc], ReducingBefore(f.code, f.constants, s.pc), s.regs)
  {
    hide ReducingBefore, HandlersLabelled;
    CarriedRegisters(m, fn, f, s.pc);
    assert ReductionAt(f.code, f.constants, s.pc) == Reduce(f.code[s.pc], ReducingBefore(f.code, f.constants, s.pc));
  }

  lemma StepKnowing(trusted: bool, m: Module, fn: Function, f: Frame, given: set<int>, d: seq<set<int>>, s: State)
    requires Carries(m, fn, f) && WindowsUnreduced(f.code, f.constants) && UnitFactorsIn(f.code, f.constants, d)
    requires Integers(f.code, f.constants, given, d) && Knowing(f, fn.regCount, d, s) && InCode(f, s)
    ensures StepOf(trusted, f, s).Next? ==> Knowing(f, fn.regCount, d, StepOf(trusted, f, s).s)
  {
    hide StepOf, Exec, IsLabel, LearnReduced, HandlersLabelled, Carries, Reduce, Integers, UnitFactorsIn, WindowUnknown,
         UnitIsInt, IntsHold;
    UnitTagged(m, fn, f, d, s);
    StepTagged(trusted, m, fn, f, given, d, s);
    StepStays(trusted, m, fn, f, s);
    if StepOf(trusted, f, s).Next? {
      var t := StepOf(trusted, f, s).s;
      if !IsLabel(f.code, t.pc) && InCode(f, t) {
        ReducedSound(trusted, m, fn, f, s, ReducingBefore(f.code, f.constants, s.pc));
      }
    }
  }

  lemma ReducedStep(trusted: bool, m: Module, fn: Function, f: Frame, f': Frame, s: State, known: KnownMap)
    requires Carries(m, fn, f) && Recodes(f, f') && Indexable(f'.constants) && InCode(f, s) && |s.regs| == fn.regCount
    requires Holds(known, s.regs) && ReducesTo(Reduce(f.code[s.pc], known), f.code[s.pc], f'.code[s.pc], f'.constants)
    requires UnitIsInt(f.code[s.pc], known, s.regs)
    ensures StepOf(trusted, f, s) == StepOf(trusted, f', s)
  {
    var i := f.code[s.pc];
    CarriedRegisters(m, fn, f, s.pc);
    if Reduce(i, known) == Same {
      KeptStep(trusted, m, fn, f, f', s);
    } else {
      MulStep(trusted, f, s);
      ReducedProduct(i, known, s.regs);
      ReplacementStep(trusted, f', s, Reduce(i, known), i);
    }
  }

  // A multiplication by a known one becomes a move: the same step exactly if the other factor
  // is an integer already.
  lemma CopyExact(trusted: bool, m: Module, fn: Function, f: Frame, f': Frame, s: State, known: KnownMap)
    requires Carries(m, fn, f) && Recodes(f, f') && Indexable(f'.constants) && InCode(f, s) && |s.regs| == fn.regCount
    requires Holds(known, s.regs) && Reduce(f.code[s.pc], known).CopyOf?
    requires ReducesTo(Reduce(f.code[s.pc], known), f.code[s.pc], f'.code[s.pc], f'.constants)
    ensures Reduce(f.code[s.pc], known).x < |s.regs|
    ensures StepOf(trusted, f, s) == StepOf(trusted, f', s) <==> s.regs[Reduce(f.code[s.pc], known).x].tag == TInt64
  {
    var i := f.code[s.pc];
    var r := Reduce(i, known);
    CarriedRegisters(m, fn, f, s.pc);
    MulStep(trusted, f, s);
    ReducedProduct(i, known, s.regs);
    ReplacementStep(trusted, f', s, r, i);
    hide Exec, Reduce, ReducesTo, Int64.Mul;
    var v := s.regs[r.x];
    assert s.regs[i.a := v][i.a] == v && s.regs[i.a := IntValue(v.bits)][i.a] == IntValue(v.bits);
  }

  lemma ReplacementStep(trusted: bool, f': Frame, s: State, r: Reduction, i: Instruction)
    requires InCode(f', s) && r != Same && ReducesTo(r, i, f'.code[s.pc], f'.constants) && Indexable(f'.constants)
    requires i.a < |s.regs| && (r.CopyOf? || r.Double? ==> r.x < |s.regs|)
    ensures Exec(trusted, f', s) ==
      Go(s.(pc := s.pc + 1, regs := s.regs[i.a :=
        match r
        case CopyOf(x) => s.regs[x]
        case Double(x) => IntValue(Int64.Add(s.regs[x].bits, s.regs[x].bits))
        case _ => IntValue(0)]))
  {
    hide ExecBranch, ExecTry, ExecCall, ExecForeign, ExecVarArg, ExecString, ExecEnd, Int64.Add, Intern;
  }

  lemma ReducedRun(
      trusted: bool, m: Module, fn: Function, f: Frame, f': Frame, given: set<int>, d: seq<set<int>>, s: State)
    requires Carries(m, fn, f) && Recodes(f, f') && Indexable(f'.constants) && WindowsUnreduced(f.code, f.constants)
    requires Reduced(f.code, f.constants, f'.code, f'.constants) && UnitFactorsIn(f.code, f.constants, d)
    requires Integers(f.code, f.constants, given, d) && Knowing(f, fn.regCount, d, s)
    ensures Result(Activation(trusted, f), s) == Result(Activation(trusted, f'), s)
  {
    hide StepOf, ReducingBefore, Carries, Tagged, ReducesTo, Reduce, Integers, UnitFactorsIn, WindowsUnreduced,
         UnitIsInt;
    var inv := (t: State) => Knowing(f, fn.regCount, d, t);
    forall t | inv(t) && InCode(f, t)
      ensures StepOf(trusted, f, t) == StepOf(trusted, f', t)
      ensures StepOf(trusted, f, t).Next? ==> inv(StepOf(trusted, f, t).s)
    {
      var known := ReducingBefore(f.code, f.constants, t.pc);
      assert ReductionAt(f.code, f.constants, t.pc) == Reduce(f.code[t.pc], known);
      UnitTagged(m, fn, f, d, t);
      TaggedSize(f, fn.regCount, d, t);
      ReducedStep(trusted, m, fn, f, f', t, known);
      StepKnowing(trusted, m, fn, f, given, d, t);
    }
    AgreeingResults(Activation(trusted, f), Activation(trusted, f'), inv, s);
  }

  lemma TaggedSize(f: Frame, n: nat, d: seq<set<int>>, s: State)
    requires Tagged(f, n, d, s)
    ensures |s.regs| == n
  {
  }

  // ---- The pass ----------------------------------------------------------------------------------

  lemma ReducedFunction(trusted: bool, m: Module, m': Module, fi: nat)
    requires Accepted(m) && Recoded(m, m', fi) && Indexable(m'.constants)
    requires WindowsUnreduced(m.functions[fi].Code(), m.constants) && UnitsMeetInts(m.functions[fi], m.constants)
    requires m'.functions[fi].regCount == m.functions[fi].regCount
    requires Reduced(m.functions[fi].Code(), m.constants, m'.functions[fi].Code(), m'.constants)
    ensures SameFunction(trusted, m, m', fi)
  {
    hide WindowsUnreduced, UnitFactorsIn, Integers, Admit, Tagged, ReducesTo;
    var fn := m.functions[fi];
    var d :| Integers(fn.Code(), m.constants, IntParams(fn), d) && UnitFactorsIn(fn.Code(), m.constants, d);
    AcceptedFunction(m, fi);
    forall closure, varargs, env, args, w | Admit(m, fi, args).None?
      ensures Result(Activation(trusted, FrameOf(m, fi, closure, varargs, env)), EntryState(fn.regCount, args, w))
           == Result(Activation(trusted, FrameOf(m', fi, closure, varargs, env)), EntryState(fn.regCount, args, w))
    {
      var f, f' := FrameOf(m, fi, closure, varargs, env), FrameOf(m', fi, closure, varargs, env);
      EntryTagged(m, fi, args, d, f, w);
      ReducedRun(trusted, m, fn, f, f', IntParams(fn), d, EntryState(fn.regCount, args, w));
    }
  }

  lemma ReductionOk(
      m: Module, fn: Function, m': Module, i: Instruction, i': Instruction, known: KnownMap, pc: int, size: nat)
    requires InstructionOk(m, fn, i, pc, size) && InstructionOk(m', fn, i, pc, size)
    requires ReducesTo(Reduce(i, known), i, i', m'.constants)
    ensures InstructionOk(m', fn, i', pc, size)
  {
  }

  lemma ReducedOk(m: Module, m': Module, fi: nat, code': seq<Instruction>)
    requires Accepted(m) && Recoded(m, m', fi) && m'.functions[fi].regCount == m.functions[fi].regCount
    requires Reduced(m.functions[fi].Code(), m.constants, code', m'.constants)
    ensures CodeOk(m', m'.functions[fi], code')
  {
    hide InstructionOk, Reduce, ReducesTo, ReducingBefore;
    var fn := m.functions[fi];
    var code := fn.Code();
    AcceptedFunction(m, fi);
    forall pc | 0 <= pc < |code'| ensures InstructionOk(m', m'.functions[fi], code'[pc], pc, |code'|) {
      assert InstructionOk(m, fn, code[pc], pc, |code|);
      RecodedInstruction(m, m', fi, fn, code[pc], pc, |code|);
      ReductionOk(m, fn, m', code[pc], code'[pc], ReducingBefore(code, m.constants, pc), pc, |code|);
      SameSignatureOk(m', fn, m'.functions[fi], code'[pc], pc, |code|);
    }
  }

  lemma ReducesLater(r: Reduction, i: Instruction, i': Instruction, constants: seq<Constant>, constants': seq<Constant>)
    requires ReducesTo(r, i, i', constants) && constants <= constants'
    ensures ReducesTo(r, i, i', constants')
  {
    if r.Zero? { RealizedLater(LoadInt(0), i, i', constants, constants'); }
  }

  lemma SameControl(r: Reduction, i: Instruction, i': Instruction, constants: seq<Constant>)
    requires ReducesTo(r, i, i', constants) && (r != Same ==> i.op == Mul)
    ensures IsRelativeJump(i'.op) == IsRelativeJump(i.op) && IsTerminator(i'.op) == IsTerminator(i.op)
  {
  }

  method ReduceOne(ws: Workspace, i: Instruction, known: KnownMap) returns (i': Instruction)
    requires ws.Valid()
    modifies ws`constants, ws`int64Cache
    ensures ws.Valid() && old(ws.constants) <= ws.constants && |ws.constants| <= |old(ws.constants)| + 1
    ensures ReducesTo(Reduce(i, known), i, i', ws.constants)
  {
    match Reduce(i, known)
    case Same => i' := i;
    case Zero => i' := ws.Apply(LoadInt(0), i);
    case CopyOf(x) => i' := Make(Mov, i.a, x, 0);
    case Double(x) => i' := Make(Opcode.Add, i.a, x, x);
  }

  method ReduceCode(ws: Workspace, ghost m: Module, ghost fn: Function, code: seq<Instruction>)
    returns (code': seq<Instruction>, changed: bool)
    requires ws.Valid() && CodeOk(m, fn, code) && m.constants == ws.constants
    modifies ws`constants, ws`int64Cache
    ensures ws.Valid() && old(ws.constants) <= ws.constants && |ws.constants| <= |old(ws.constants)| + |code|
    ensures Reduced(code, old(ws.constants), code', ws.constants)
    ensures !changed ==> code' == code
  {
    hide IsLabel, Learn, ReducesTo, IsRelativeJump, IsTerminator, CodeOk, Reduce;
    ghost var pool := ws.constants;
    var labels := CollectJumpTargets(code);
    var known: KnownMap := map[];
    code', changed := code, false;
    for p := 0 to |code|
      invariant ws.Valid() && pool <= ws.constants && |ws.constants| <= |pool| + p
      invariant |code'| == |code| && (!changed ==> code' == code)
      invariant p < |code| ==> ReducingBefore(code, pool, p) == if IsLabel(code, p) then map[] else known
      invariant forall k :: p <= k < |code| ==> code'[k] == code[k]
      invariant forall k :: 0 <= k < p ==> ReducesTo(ReductionAt(code, pool, k), code[k], code'[k], ws.constants)
    {
      if p in labels { known := map[]; }
      var i := code'[p];
      ghost var before := ws.constants;
      LoadsKnown(m, fn, code, p);
      LearnOverPool(pool, ws.constants, i, known);
      var learnt := LearnReduced(ws.constants, i, known);
      var i' := ReduceOne(ws, i, known);
      OnlyProducts(i, known);
      SameControl(Reduce(i, known), i, i', ws.constants);
      changed := changed || i' != i;
      code' := code'[p := i'];
      forall k | 0 <= k < p ensures ReducesTo(ReductionAt(code, pool, k), code[k], code'[k], ws.constants) {
        ReducesLater(ReductionAt(code, pool, k), code[k], code'[k], before, ws.constants);
      }
      known := if IsRelativeJump(i'.op) || IsTerminator(i'.op) then map[] else learnt;
    }
  }

  lemma OnlyProducts(i: Instruction, known: KnownMap)
    ensures Reduce(i, known) != Same ==> i.op == Mul
  {
  }

  method RunStrengthReductionPass(ws: Workspace, fi: nat) returns (changed: bool)
    requires ws.Valid() && Accepted(ws.View()) && fi < |ws.functions|
    modifies ws
    ensures ws.Valid() && Accepted(ws.View()) && Recoded(old(ws.View()), ws.View(), fi)
    ensures |ws.constants| <= |old(ws.constants)| + |old(ws.functions)[fi].Code()|
    ensures ws.functions[fi].regCount == old(ws.functions)[fi].regCount
    ensures Reduced(old(ws.functions)[fi].Code(), old(ws.constants), ws.functions[fi].Code(), ws.constants)
    ensures WindowsUnreduced(old(ws.functions)[fi].Code(), old(ws.constants)) && Indexable(ws.constants)
              && UnitsMeetInts(old(ws.functions)[fi], old(ws.constants)) ==>
              forall trusted :: SameFunction(trusted, old(ws.View()), ws.View(), fi)
  {
    hide Accepted, WindowsUnreduced, UnitsMeetInts;
    ghost var m := ws.View();
    AcceptedFunction(m, fi);
    var code;
    code, changed := ReduceCode(ws, m, m.functions[fi], ws.functions[fi].Code());
    if changed { ws.Install(fi, code); }
    ReducedOk(m, ws.View(), fi, code);
    RecodedAccepted(m, ws.View(), fi);
    if WindowsUnreduced(m.functions[fi].Code(), m.constants) && Indexable(ws.constants)
       && UnitsMeetInts(m.functions[fi], m.constants) {
      forall trusted ensures SameFunction(trusted, m, ws.View(), fi) {
        ReducedFunction(trusted, m, ws.View(), fi);
      }
    }
  }
}
