/** Block-local copy propagation, for code with handlers too. */
module CopyProp {
  import opened Int64
  import opened Bytecode
  import opened Machines
  import opened Interpreter
  import opened Steps
  import opened Runs
  import opened Verifier
  import opened TrustedMode
  import opened KnownValues
  import opened Effects
  import opened Blocks
  import opened ConstFold
  import opened Passes

  // Registers known to hold a copy, and of which register.
  type AliasMap = map<U32, U32>

  // No copied register is itself an entry.
  predicate Flat(alias: AliasMap) { forall r :: r in alias ==> alias[r] !in alias }

  function Resolve(alias: AliasMap, r: U32): U32 { if r in alias then alias[r] else r }

  function Kill(alias: AliasMap, r: U32): AliasMap { map k | k in alias && k != r && alias[k] != r :: alias[k] }

  // Follows entries until none is left or one comes up again.
  method ResolveAlias(r: U32, alias: AliasMap) returns (current: U32)
    requires Flat(alias)
    ensures current == Resolve(alias, r)
  {
    current := r;
    var seen: set<U32> := {};
    while true
      invariant seen <= alias.Keys
      invariant if seen == {} then current == r else current == Resolve(alias, r) && current !in alias
      decreases alias.Keys - seen
    {
      if current !in alias { return; }
      if current in seen { return; }
      seen := seen + {current};
      current := alias[current];
    }
  }

  method KillAliasForWrite(alias: AliasMap, r: U32) returns (alias': AliasMap)
    ensures alias' == Kill(alias, r)
  {
    alias' := alias - {r};
    while exists k :: k in alias' && alias'[k] == r
      invariant forall k :: k in alias' ==> k in alias && k != r && alias'[k] == alias[k]
      invariant forall k :: k in alias && k != r && alias[k] != r ==> k in alias'
      decreases |alias'|
    {
      var k :| k in alias' && alias'[k] == r;
      ghost var size := |alias'|;
      var rest := alias' - {k};
      assert alias' == rest[k := r];
      alias' := rest;
    }
  }

  // Which operands are replaced by what they are copies of.
  predicate RemapsA(op: Opcode) {
    match op
    case Inc | Dec | JmpIf | JmpIfZero | JmpIfNotZero | DecJnz | SubImmJnz | AddImmJnz | AddDecJnz
       | Ret | Throw | SetUpval => true
    case _ => false
  }

  predicate RemapsB(op: Opcode) {
    match op
    case Mov | Add | Sub | Mul | Div | CmpEq | StrConcat | BitAnd | BitOr | BitXor | BitShl | BitShr
       | AddImm | SubImm | StrLen | BitNot | AddDecJnz | CallClosure | TailCallClosure => true
    case _ => false
  }

  predicate RemapsC(op: Opcode) {
    match op
    case Add | Sub | Mul | Div | CmpEq | StrConcat | BitAnd | BitOr | BitXor | BitShl | BitShr => true
    case _ => false
  }

  function Remap(i: Instruction, alias: AliasMap): Instruction {
    i.(a := if RemapsA(i.op) then Resolve(alias, i.a) else i.a,
       b := if RemapsB(i.op) then Resolve(alias, i.b) else i.b,
       c := if RemapsC(i.op) then Resolve(alias, i.c) else i.c)
  }

  method RemapSourceRegs(i: Instruction, alias: AliasMap) returns (i': Instruction)
    requires Flat(alias)
    ensures i' == Remap(i, alias)
  {
    hide RemapsA, RemapsB, RemapsC;
    var a, b, c := i.a, i.b, i.c;
    if RemapsA(i.op) { a := ResolveAlias(i.a, alias); }
    if RemapsB(i.op) { b := ResolveAlias(i.b, alias); }
    if RemapsC(i.op) { c := ResolveAlias(i.c, alias); }
    i' := i.(a := a, b := b, c := c);
  }

  // A self-copy is dropped.
  function Propagated(i: Instruction, alias: AliasMap): Instruction {
    var i' := Remap(i, alias);
    if i'.op == Mov && i'.a == i'.b then NOP else i'
  }

  predicate KillsA(op: Opcode) {
    IsCompute(op) ||
    match op
    case LoadK | StrLen | StrConcat | Call | CallClosure | FfiCall | Closure | GetUpval | SubImmJnz | AddImmJnz
       | DecJnz | AddDecJnz | VarArg | NewObject | Invoke => true
    case _ => false
  }

  // The copies known behind a remapped instruction that control leaves by falling through.
  function Copies(i': Instruction, alias: AliasMap): AliasMap {
    var killed := if KillsA(i'.op) then Kill(alias, i'.a) else alias;
    if i'.op == Mov && i'.a != i'.b then killed[i'.a := i'.b]
    else if i'.op == AddDecJnz then Kill(killed, i'.b)
    else killed
  }

  function CopiesBehind(i: Instruction, alias: AliasMap): AliasMap {
    if IsRelativeJump(i.op) || IsTerminator(i.op) then map[] else Copies(Remap(i, alias), alias)
  }

  ghost function CopiesBefore(code: seq<Instruction>, p: nat): AliasMap
    requires p <= |code|
  {
    if p == 0 || IsLabel(code, p) then map[] else CopiesBehind(code[p - 1], CopiesBefore(code, p - 1))
  }

  ghost function PropagatedCode(code: seq<Instruction>): (code': seq<Instruction>)
    ensures |code'| == |code|
  {
    seq(|code|, p requires 0 <= p < |code| => Propagated(code[p], CopiesBefore(code, p)))
  }

  // The alias map stays flat.
  lemma CopiesFlat(i: Instruction, alias: AliasMap)
    requires Flat(alias)
    ensures Flat(Copies(Remap(i, alias), alias))
  {
    hide RemapsA, RemapsC;
    var i' := Remap(i, alias);
    if i.op == Mov { assert KillsA(i'.op) && i'.b !in alias; }
  }

  lemma {:induction false} CopiesBeforeFlat(code: seq<Instruction>, p: nat)
    requires p <= |code|
    ensures Flat(CopiesBefore(code, p))
    decreases p
  {
    hide IsLabel;
    if p > 0 && !IsLabel(code, p) {
      CopiesBeforeFlat(code, p - 1);
      CopiesFlat(code[p - 1], CopiesBefore(code, p - 1));
    }
  }

  // ---- Copies are copies --------------------------------------------------------------------------

  predicate CopiesHold(alias: AliasMap, regs: seq<Value>) {
    forall r :: r in alias ==> r < |regs| && alias[r] < |regs| && regs[r] == regs[alias[r]]
  }

  predicate InPlace(op: Opcode) {
    match op
    case Inc | Dec | DecJnz | SubImmJnz | AddImmJnz | AddDecJnz => true
    case _ => false
  }

  // Every copy known comes from registers that exist.
  predicate AliasFits(alias: AliasMap, n: nat) { forall r :: r in alias ==> r < n && alias[r] < n }

  lemma {:induction false} CopiesBeforeFit(m: Module, fn: Function, code: seq<Instruction>, p: nat)
    requires CodeOk(m, fn, code) && p <= |code|
    ensures AliasFits(CopiesBefore(code, p), fn.regCount)
    decreases p
  {
    hide IsLabel, KillsA, RemapsA, RemapsC, IsRelativeJump, IsTerminator;
    if p > 0 && !IsLabel(code, p) {
      CopiesBeforeFit(m, fn, code, p - 1);
      assert InstructionOk(m, fn, code[p - 1], p - 1, |code|);
    }
  }

  // An instruction that also writes the register it reads must not find it in the map.
  predicate InPlaceSafe(i: Instruction, alias: AliasMap) {
    InPlace(i.op) ==> i.a !in alias && (i.op == AddDecJnz ==> i.b !in alias)
  }

  // The registers a variadic copy fills behind the first are not taken for copies of others,
  // nor others for copies of them.
  predicate WindowApart(i: Instruction, alias: AliasMap) {
    i.op == VarArg ==> forall r :: r in Kill(alias, i.a) ==>
      !(i.a < r < i.a + i.c) && !(i.a < alias[r] < i.a + i.c)
  }

  // Killing only the first register of a variadic copy is right, whatever the surplus
  // arguments, if and only if no other copy has to do with its registers.
  lemma WindowApartExact(i: Instruction, alias: AliasMap, n: nat)
    requires i.op == VarArg && i.a + i.c <= n && Flat(alias) && AliasFits(alias, n)
    ensures WindowApart(i, alias) <==>
            forall regs, vs :: |regs| == n && |vs| == i.c && CopiesHold(alias, regs) ==>
              CopiesHold(Kill(alias, i.a), Filled(regs, i.a, vs))
  {
    hide Filled, Flat, AliasFits;
    if WindowApart(i, alias) {
      forall regs, vs | |regs| == n && |vs| == i.c && CopiesHold(alias, regs)
        ensures CopiesHold(Kill(alias, i.a), Filled(regs, i.a, vs))
      {
        WindowKeeps(i, alias, regs, vs);
      }
    } else {
      var r :| r in Kill(alias, i.a) && (i.a < r < i.a + i.c || i.a < alias[r] < i.a + i.c);
      var x := if i.a < r < i.a + i.c then r else alias[r];
      var regs, vs := seq(n, _ => NULL), seq(i.c, k => if i.a + k == x then IntValue(1) else NULL);
      WindowDiffers(i, alias, n, r, x, regs, vs);
    }
  }

  lemma WindowKeeps(i: Instruction, alias: AliasMap, regs: seq<Value>, vs: seq<Value>)
    requires i.op == VarArg && i.a + i.c <= |regs| && |vs| == i.c && WindowApart(i, alias) && CopiesHold(alias, regs)
    ensures CopiesHold(Kill(alias, i.a), Filled(regs, i.a, vs))
  {
  }

  lemma WindowDiffers(
      i: Instruction, alias: AliasMap, n: nat, r: U32, x: U32, regs: seq<Value>, vs: seq<Value>)
    requires i.a + i.c <= n && Flat(alias) && AliasFits(alias, n) && |regs| == n && |vs| == i.c
    requires forall k :: 0 <= k < n ==> regs[k] == NULL
    requires forall k :: 0 <= k < i.c ==> vs[k] == if i.a + k == x then IntValue(1) else NULL
    requires r in Kill(alias, i.a) && (x == r || x == alias[r]) && i.a < x < i.a + i.c
    ensures CopiesHold(alias, regs) && !CopiesHold(Kill(alias, i.a), Filled(regs, i.a, vs))
  {
    var after, y := Filled(regs, i.a, vs), if x == r then alias[r] else r;
    assert y != x && after[x] == IntValue(1) && after[y] == NULL;
  }

  ghost predicate PropagationSafe(code: seq<Instruction>) {
    forall p :: 0 <= p < |code| ==>
      InPlaceSafe(code[p], CopiesBefore(code, p)) && WindowApart(code[p], CopiesBefore(code, p))
  }

  lemma CopiesSound(trusted: bool, m: Module, fn: Function, f: Frame, s: State, alias: AliasMap)
    requires Carries(m, fn, f) && InCode(f, s) && |s.regs| == fn.regCount
    requires WindowApart(f.code[s.pc], alias) && Flat(alias) && CopiesHold(alias, s.regs)
    requires InPlaceSafe(f.code[s.pc], alias)
    requires Exec(trusted, f, s).Go?
    ensures CopiesHold(Copies(Remap(f.code[s.pc], alias), alias), Exec(trusted, f, s).s.regs)
  {
    hide Exec;
    var i, t := f.code[s.pc], Exec(trusted, f, s).s;
    ExecChanges(trusted, m, fn, f, s);
    CarriedRegisters(m, fn, f, s.pc);
    CopiesUnwritten(i, alias, fn.regCount);
    if i.op == Mov { MovCopies(trusted, f, s); }
  }

  // Entries that survive are between registers the instruction does not write; a move adds one.
  lemma CopiesUnwritten(i: Instruction, alias: AliasMap, n: U16)
    requires InPlaceSafe(i, alias) && WindowApart(i, alias) && RegistersFit(i, n)
    ensures var after := Copies(Remap(i, alias), alias);
            forall r :: r in after ==>
              || (r in alias && after[r] == alias[r] && !WritesReg(i, r) && !WritesReg(i, alias[r]))
              || (i.op == Mov && r == i.a && after[r] == Resolve(alias, i.b) && after[r] != i.a)
  {
  }

  lemma MovCopies(trusted: bool, f: Frame, s: State)
    requires InCode(f, s) && f.code[s.pc].op == Mov && Exec(trusted, f, s).Go?
    ensures var i := f.code[s.pc];
            i.a < |s.regs| && i.b < |s.regs| && Exec(trusted, f, s).s.regs == s.regs[i.a := s.regs[i.b]]
  {
    hide ExecCall, ExecForeign, ExecTry, ExecString, ExecVarArg, ExecEnd, ExecBranch, ExecLoadK;
  }

  // ---- Propagated code --------------------------------------------------------------------------

  ghost predicate Copied(f: Frame, n: nat, s: State) {
    && |s.regs| == n && HandlersLabelled(f.code, s.tries)
    && (InCode(f, s) ==> CopiesHold(CopiesBefore(f.code, s.pc), s.regs))
  }

  // On every run, the two registers of every pair are equal.
  lemma StepCopied(trusted: bool, m: Module, fn: Function, f: Frame, s: State)
    requires Carries(m, fn, f) && PropagationSafe(f.code)
    requires Copied(f, fn.regCount, s) && InCode(f, s)
    ensures StepOf(trusted, f, s).Next? ==> Copied(f, fn.regCount, StepOf(trusted, f, s).s)
  {
    hide StepOf, Exec, IsLabel, Copies, Remap, HandlersLabelled, Carries, IsRelativeJump, IsTerminator, InPlaceSafe,
         WindowApart;
    StepStays(trusted, m, fn, f, s);
    if StepOf(trusted, f, s).Next? {
      var t := StepOf(trusted, f, s).s;
      if !IsLabel(f.code, t.pc) && InCode(f, t) {
        CopiesBeforeFlat(f.code, s.pc);
        CopiesSound(trusted, m, fn, f, s, CopiesBefore(f.code, s.pc));
      }
    }
  }

  lemma ComputePropagated(trusted: bool, i: Instruction, alias: AliasMap, s: State)
    requires IsCompute(i.op) && RegistersFit(i, |s.regs|) && CopiesHold(alias, s.regs) && InPlaceSafe(i, alias)
    ensures ExecCompute(trusted, Remap(i, alias), s) == ExecCompute(trusted, i, s)
  {
    var i' := Remap(i, alias);
    assert Compute(i, s.regs[Operand1(i)], s.regs[Operand2(i)])
        == Compute(i', s.regs[Operand1(i')], s.regs[Operand2(i')]) by { hide IntBinary; }
    hide Compute;
  }

  lemma BranchPropagated(trusted: bool, size: nat, i: Instruction, alias: AliasMap, s: State)
    requires IsRelativeJump(i.op) && RegistersFit(i, |s.regs|) && CopiesHold(alias, s.regs) && InPlaceSafe(i, alias)
    ensures ExecBranch(trusted, size, Remap(i, alias), s) == ExecBranch(trusted, size, i, s)
  {
  }

  // A remapped instruction does what it did.
  lemma RemappedStep(trusted: bool, m: Module, fn: Function, f: Frame, f': Frame, alias: AliasMap, s: State)
    requires Carries(m, fn, f) && Recodes(f, f') && f'.constants == f.constants
    requires InCode(f, s) && |s.regs| == fn.regCount
    requires f'.code[s.pc] == Remap(f.code[s.pc], alias)
    requires CopiesHold(alias, s.regs) && InPlaceSafe(f.code[s.pc], alias)
    ensures StepOf(trusted, f, s) == StepOf(trusted, f', s)
  {
    var i, i' := f.code[s.pc], f'.code[s.pc];
    CarriedRegisters(m, fn, f, s.pc);
    if i' == i {
      KeptStep(trusted, m, fn, f, f', s);
    } else {
      hide ExecTry, ExecVarArg, ExecLoadK, CopiesHold, Compute, Branch, Carries;
      if IsCompute(i.op) {
        hide ExecCompute;
        ComputePropagated(trusted, i, alias, s);
      } else if IsRelativeJump(i.op) {
        hide ExecBranch;
        BranchPropagated(trusted, |f.code|, i, alias, s);
      } else {
        OtherPropagated(trusted, f, f', alias, s);
      }
    }
  }

  lemma OtherPropagated(trusted: bool, f: Frame, f': Frame, alias: AliasMap, s: State)
    requires Recodes(f, f') && f'.constants == f.constants && InCode(f, s)
    requires f'.code[s.pc] == Remap(f.code[s.pc], alias) != f.code[s.pc]
    requires !IsCompute(f.code[s.pc].op) && !IsRelativeJump(f.code[s.pc].op)
    requires RegistersFit(f.code[s.pc], |s.regs|) && CopiesHold(alias, s.regs)
    ensures Exec(trusted, f, s) == Exec(trusted, f', s)
  {
    hide ExecTry, ExecVarArg, ExecLoadK, ExecCompute, ExecBranch;
    var i := f.code[s.pc];
    assert i.op == CallClosure || i.op == TailCallClosure || i.op == SetUpval || i.op == StrLen
        || i.op == StrConcat || i.op == Ret || i.op == Throw;
  }

  lemma SelfCopyStep(trusted: bool, f: Frame, f': Frame, s: State)
    requires Recodes(f, f') && InCode(f, s) && f.code[s.pc].op == Mov && f'.code[s.pc] == NOP
    requires f.code[s.pc].a < |s.regs| && f.code[s.pc].b < |s.regs|
    requires s.regs[f.code[s.pc].a] == s.regs[f.code[s.pc].b]
    ensures StepOf(trusted, f, s) == StepOf(trusted, f', s)
  {
    hide ExecTry, ExecVarArg, ExecLoadK, ExecBranch, ExecCall, ExecForeign, ExecString, ExecEnd;
    var i := f.code[s.pc];
    assert s.regs[i.a := s.regs[i.b]] == s.regs;
  }

  lemma PropagatedStep(trusted: bool, m: Module, fn: Function, f: Frame, f': Frame, s: State)
    requires Carries(m, fn, f) && f' == f.(code := PropagatedCode(f.code)) && PropagationSafe(f.code)
    requires Copied(f, fn.regCount, s) && InCode(f, s)
    ensures StepOf(trusted, f, s) == StepOf(trusted, f', s)
  {
    hide StepOf, CopiesBefore, InPlaceSafe, WindowApart, HandlersLabelled;
    var i, alias := f.code[s.pc], CopiesBefore(f.code, s.pc);
    assert f'.code[s.pc] == Propagated(i, alias);
    if f'.code[s.pc] == Remap(i, alias) {
      RemappedStep(trusted, m, fn, f, f', alias, s);
    } else {
      CarriedRegisters(m, fn, f, s.pc);
      SelfCopyStep(trusted, f, f', s);
    }
  }

  lemma PropagatedRun(trusted: bool, m: Module, fn: Function, f: Frame, f': Frame, s: State)
    requires Carries(m, fn, f) && f' == f.(code := PropagatedCode(f.code)) && PropagationSafe(f.code)
    requires Copied(f, fn.regCount, s)
    ensures Result(Activation(trusted, f), s) == Result(Activation(trusted, f'), s)
  {
    hide StepOf, CopiesBefore, Carries, HandlersLabelled, PropagationSafe, Propagated;
    var inv := (t: State) => Copied(f, fn.regCount, t);
    forall t | inv(t) && InCode(f, t)
      ensures StepOf(trusted, f, t) == StepOf(trusted, f', t)
      ensures StepOf(trusted, f, t).Next? ==> inv(StepOf(trusted, f, t).s)
    {
      PropagatedStep(trusted, m, fn, f, f', t);
      StepCopied(trusted, m, fn, f, t);
    }
    AgreeingResults(Activation(trusted, f), Activation(trusted, f'), inv, s);
  }

  // ---- Exactly when an in-place instruction may be remapped -------------------------------------

  // The registers after an in-place instruction.
  function UpdatedRegs(i: Instruction, regs: seq<Value>): seq<Value>
    requires InPlace(i.op) && i.a < |regs| && (i.op == AddDecJnz ==> i.b < |regs|)
  {
    if IsCompute(i.op) then regs[i.a := IntValue(IntUnary(i, regs[i.a].bits))] else Branch(i, regs).regs
  }

  // On all registers the map is true of, the remapped instruction updates like the original
  // if and only if the registers it writes are not in the map.
  lemma InPlaceExact(i: Instruction, alias: AliasMap, n: nat)
    requires InPlace(i.op) && Flat(alias) && i.a < n && (i.op == AddDecJnz ==> i.b < n)
    requires forall r :: r in alias ==> r < n && alias[r] < n
    ensures InPlaceSafe(i, alias) <==>
            forall regs :: |regs| == n && CopiesHold(alias, regs) ==>
              UpdatedRegs(Remap(i, alias), regs) == UpdatedRegs(i, regs)
  {
    if !InPlaceSafe(i, alias) {
      var regs := seq(n, _ => NULL);
      assert |regs| == n && CopiesHold(alias, regs);
      InPlaceDiffers(i, alias, regs);
    }
  }

  lemma InPlaceDiffers(i: Instruction, alias: AliasMap, regs: seq<Value>)
    requires InPlace(i.op) && Flat(alias) && i.a < |regs| && (i.op == AddDecJnz ==> i.b < |regs|)
    requires forall r :: r in alias ==> r < |regs| && alias[r] < |regs|
    requires !InPlaceSafe(i, alias) && forall r :: 0 <= r < |regs| ==> regs[r] == NULL
    ensures UpdatedRegs(Remap(i, alias), regs) != UpdatedRegs(i, regs)
  {
    var x, y := UpdatedRegs(i, regs), UpdatedRegs(Remap(i, alias), regs);
    if i.a in alias {
      assert x[i.a].tag == TInt64 && y[i.a].tag == TNull;
    } else {
      assert i.op == AddDecJnz;
      assert x[i.b].tag == TInt64 && y[i.b].tag == TNull;
    }
  }

  // ---- The pass -----------------------------------------------------------------------------------

  lemma PropagatedFunction(trusted: bool, m: Module, m': Module, fi: nat)
    requires Accepted(m) && fi < |m.functions| && PropagationSafe(m.functions[fi].Code())
    requires m' == m.(functions := m'.functions) && |m'.functions| == |m.functions|
    requires m'.functions[fi] == m.functions[fi].(blocks := m'.functions[fi].blocks)
    requires m'.functions[fi].Code() == PropagatedCode(m.functions[fi].Code())
    ensures SameFunction(trusted, m, m', fi)
  {
    hide PropagationSafe, Propagated;
    var fn := m.functions[fi];
    AcceptedFunction(m, fi);
    forall closure, varargs, env, args, w
      ensures Result(Activation(trusted, FrameOf(m, fi, closure, varargs, env)), EntryState(fn.regCount, args, w))
           == Result(Activation(trusted, FrameOf(m', fi, closure, varargs, env)), EntryState(fn.regCount, args, w))
    {
      PropagatedRun(trusted, m, fn, FrameOf(m, fi, closure, varargs, env), FrameOf(m', fi, closure, varargs, env),
                    EntryState(fn.regCount, args, w));
    }
  }

  lemma RemappedOk(m: Module, fn: Function, i: Instruction, alias: AliasMap, pc: int, size: nat)
    requires InstructionOk(m, fn, i, pc, size) && AliasFits(alias, fn.regCount)
    ensures InstructionOk(m, fn, Propagated(i, alias), pc, size)
  {
    if IsCompute(i.op) {
      hide IsBound, IsSymbol, AcceptsCount, WindowFits;
    } else {
      hide IsBound, IsSymbol, AcceptsCount;
    }
  }

  lemma PropagatedOk(m: Module, fn: Function, code: seq<Instruction>)
    requires CodeOk(m, fn, code)
    ensures CodeOk(m, fn, PropagatedCode(code))
  {
    hide InstructionOk, CopiesBefore, Propagated;
    var code' := PropagatedCode(code);
    forall p | 0 <= p < |code'| ensures InstructionOk(m, fn, code'[p], p, |code'|) {
      assert InstructionOk(m, fn, code[p], p, |code|);
      CopiesBeforeFit(m, fn, code, p);
      RemappedOk(m, fn, code[p], CopiesBefore(code, p), p, |code|);
    }
  }

  method RecordCopies(i: Instruction, alias: AliasMap) returns (alias': AliasMap)
    ensures alias' == Copies(i, alias)
  {
    alias' := alias;
    if KillsA(i.op) { alias' := KillAliasForWrite(alias', i.a); }
    if i.op == Mov && i.a != i.b {
      alias' := alias'[i.a := i.b];
    } else if i.op == AddDecJnz {
      alias' := KillAliasForWrite(alias', i.b);
    }
  }

  lemma RemapKeepsOp(i: Instruction, alias: AliasMap)
    ensures Remap(i, alias).op == i.op
  {
  }

  lemma NoCopiesFlat()
    ensures Flat(map[])
  {
  }

  method Propagate(code: seq<Instruction>) returns (code': seq<Instruction>, changed: bool)
    ensures code' == PropagatedCode(code) && (!changed ==> code' == code)
  {
    hide IsLabel, Copies, Remap, Flat, IsRelativeJump, IsTerminator;
    var labels := CollectJumpTargets(code);
    var alias: AliasMap := map[];
    code', changed := code, false;
    NoCopiesFlat();
    for p := 0 to |code|
      invariant |code'| == |code| && (!changed ==> code' == code)
      invariant p < |code| ==> CopiesBefore(code, p) == if IsLabel(code, p) then map[] else alias
      invariant Flat(alias)
      invariant forall k :: p <= k < |code| ==> code'[k] == code[k]
      invariant forall k :: 0 <= k < p ==> code'[k] == Propagated(code[k], CopiesBefore(code, k))
    {
      if p in labels { alias := map[]; }
      ghost var before := alias;
      var i := RemapSourceRegs(code'[p], alias);
      var kept := i;
      CopiesFlat(code[p], before);
      RemapKeepsOp(code[p], before);
      alias := RecordCopies(i, alias);
      if i.op == Mov && i.a == i.b { kept := NOP; }
      changed := changed || kept != code'[p];
      code' := code'[p := kept];
      if IsRelativeJump(i.op) || IsTerminator(i.op) { alias := map[]; }
    }
  }

  // No run changes, provided no in-place instruction meets its own register as a copy, and no
  // variadic copy fills a register behind its first that has to do with one.
  method RunCopyPropPass(ws: Workspace, fi: nat) returns (changed: bool)
    requires ws.Valid() && Accepted(ws.View()) && fi < |ws.functions|
    modifies ws`functions
    ensures ws.Valid() && Accepted(ws.View()) && Recoded(old(ws.View()), ws.View(), fi)
    ensures ws.functions[fi].regCount == old(ws.functions)[fi].regCount
    ensures ws.functions[fi].Code() == PropagatedCode(old(ws.functions)[fi].Code())
    ensures PropagationSafe(old(ws.functions)[fi].Code()) ==>
              forall trusted :: SameFunction(trusted, old(ws.View()), ws.View(), fi)
  {
    hide Accepted, PropagationSafe, Propagated;
    ghost var m := ws.View();
    AcceptedFunction(m, fi);
    var code;
    code, changed := Propagate(ws.functions[fi].Code());
    if changed {
      PropagatedOk(m, m.functions[fi], m.functions[fi].Code());
      ws.Install(fi, code);
      InstalledOk(m, ws.View(), fi, code);
      RecodedAccepted(m, ws.View(), fi);
    }
    if PropagationSafe(m.functions[fi].Code()) {
      forall trusted ensures SameFunction(trusted, m, ws.View(), fi) {
        PropagatedFunction(trusted, m, ws.View(), fi);
      }
    }
  }

  // ---- Counting in a copied register ------------------------------------------------------------

  // A copy is incremented, the original returned.
  function CountInCopy(): seq<Instruction> { [Make(Mov, 1, 0, 0), Make(Inc, 1, 0, 0), Make(Ret, 0, 0, 0)] }

  // The verifier accepts that code.
  lemma CountInCopyOk(m: Module, fn: Function)
    requires fn.regCount > 1
    ensures CodeOk(m, fn, CountInCopy())
  {
  }

  lemma CountUnlabelled()
    ensures forall t :: !IsLabel(CountInCopy(), t)
  {
  }

  lemma CountInOriginal()
    ensures PropagatedCode(CountInCopy()) == [Make(Mov, 1, 0, 0), Make(Inc, 0, 0, 0), Make(Ret, 0, 0, 0)]
    ensures !PropagationSafe(CountInCopy())
  {
    hide IsLabel, CopiesBehind, Propagated;
    var code := CountInCopy();
    CountUnlabelled();
    BehindCopy();
    BehindCount();
    assert CopiesBefore(code, 0) == map[];
    assert CopiesBefore(code, 1) == map[1 := 0];
    assert CopiesBefore(code, 2) == map[];
    CountPropagated();
    assert !InPlaceSafe(code[1], CopiesBefore(code, 1));
  }

  lemma BehindCopy()
    ensures CopiesBehind(CountInCopy()[0], map[]) == map[1 := 0]
  {
  }

  lemma BehindCount()
    ensures CopiesBehind(CountInCopy()[1], map[1 := 0]) == map[]
  {
  }

  lemma CountPropagated()
    ensures Propagated(CountInCopy()[0], map[]) == CountInCopy()[0]
    ensures Propagated(CountInCopy()[1], map[1 := 0]) == Make(Inc, 0, 0, 0)
    ensures Propagated(CountInCopy()[2], map[]) == CountInCopy()[2]
  {
  }

  lemma CopyThenReturn(trusted: bool, f: Frame, w: World, updated: U32, r: I64)
    requires |f.code| == 3 && f.code[0] == CountInCopy()[0] && f.code[2] == CountInCopy()[2]
    requires f.code[1] == Make(Inc, updated, 0, 0) && updated < 2 && f.returnType == AnyType
    requires r == if updated == 0 then 1 else 0
    ensures Result(Activation(trusted, f), EntryState(2, [IntValue(0)], w)) == Returned(IntValue(r), w)
  {
    hide StepOf;
    var s := EntryState(2, [IntValue(0)], w);
    assert s.regs == [IntValue(0), NULL];
    var s1 := State(1, [IntValue(0), IntValue(0)], [], w);
    var s2 := State(2, s1.regs[updated := IntValue(1)], [], w);
    MoveStep(trusted, f, s, 1, 0);
    assert s.regs[1 := s.regs[0]] == s1.regs;
    ResultOfStep(Activation(trusted, f), s);
    IncStep(trusted, f, s1, updated);
    assert Int64.Add(0, 1) == 1;
    ResultOfStep(Activation(trusted, f), s1);
    ReturnStep(trusted, f, s2);
    ResultOfStep(Activation(trusted, f), s2);
  }

  // Returns 0, and 1 after the pass.
  lemma CopyIsMistaken(trusted: bool, f: Frame, w: World)
    requires f.code == CountInCopy() && f.returnType == AnyType
    ensures !PropagationSafe(f.code)
    ensures Result(Activation(trusted, f), EntryState(2, [IntValue(0)], w)) == Returned(IntValue(0), w)
    ensures Result(Activation(trusted, f.(code := PropagatedCode(f.code))), EntryState(2, [IntValue(0)], w))
         == Returned(IntValue(1), w)
  {
    hide Activation, PropagationSafe, PropagatedCode;
    CountInOriginal();
    CopyThenReturn(trusted, f, w, 1, 0);
    CopyThenReturn(trusted, f.(code := PropagatedCode(f.code)), w, 0, 1);
  }

  // ---- Variadic copies over a copied register ---------------------------------------------------

  // A copy, surplus arguments into registers 0 and 1, then the register that held the copy.
  function VarArgOverCopy(): seq<Instruction> {
    [Make(Mov, 1, 2, 0), Make(VarArg, 0, 0, 2), Make(Ret, 1, 0, 0)]
  }

  // The verifier accepts that code.
  lemma VarArgOverCopyOk(m: Module, fn: Function)
    requires fn.regCount > 2 && fn.isVararg
    ensures CodeOk(m, fn, VarArgOverCopy())
  {
  }

  lemma CopyUnlabelled()
    ensures forall t :: !IsLabel(VarArgOverCopy(), t)
  {
  }

  lemma CopyInWindow()
    ensures !WindowApart(VarArgOverCopy()[1], map[1 := 2])
  {
    assert 1 in Kill(map[1 := 2], 0);
  }

  lemma CopyOutlived()
    ensures PropagatedCode(VarArgOverCopy()) == [Make(Mov, 1, 2, 0), Make(VarArg, 0, 0, 2), Make(Ret, 2, 0, 0)]
    ensures !PropagationSafe(VarArgOverCopy())
  {
    hide IsLabel, CopiesBehind, Propagated, WindowApart, InPlaceSafe;
    var code := VarArgOverCopy();
    CopyUnlabelled();
    assert CopiesBefore(code, 0) == map[];
    CopyBehindMove();
    assert CopiesBefore(code, 1) == map[1 := 2];
    CopyBehindVarArg();
    assert CopiesBefore(code, 2) == map[1 := 2];
    OutlivedPropagated();
    CopyInWindow();
  }

  lemma CopyBehindMove()
    ensures CopiesBehind(VarArgOverCopy()[0], map[]) == map[1 := 2]
  {
  }

  lemma CopyBehindVarArg()
    ensures CopiesBehind(VarArgOverCopy()[1], map[1 := 2]) == map[1 := 2]
  {
  }

  lemma OutlivedPropagated()
    ensures Propagated(VarArgOverCopy()[0], map[]) == VarArgOverCopy()[0]
    ensures Propagated(VarArgOverCopy()[1], map[1 := 2]) == VarArgOverCopy()[1]
    ensures Propagated(VarArgOverCopy()[2], map[1 := 2]) == Make(Ret, 2, 0, 0)
  {
  }

  lemma VarArgThenReturn(trusted: bool, f: Frame, w: World, r: U32)
    requires |f.code| == 3 && f.code[0] == VarArgOverCopy()[0] && f.code[1] == VarArgOverCopy()[1]
    requires f.code[2] == Make(Ret, r, 0, 0) && r < 3 && f.returnType == AnyType
    requires f.varargs == [NULL, IntValue(9)]
    ensures Result(Activation(trusted, f), EntryState(3, [], w)) == Returned([NULL, IntValue(9), NULL][r], w)
  {
    hide StepOf;
    var s := EntryState(3, [], w);
    var s1 := State(1, [NULL, NULL, NULL], [], w);
    var s2 := State(2, [NULL, IntValue(9), NULL], [], w);
    MoveStep(trusted, f, s, 1, 2);
    assert s.regs[1 := s.regs[2]] == s1.regs;
    ResultOfStep(Activation(trusted, f), s);
    TwoVarArgs(trusted, f, s1);
    ResultOfStep(Activation(trusted, f), s1);
    ReturnStep(trusted, f, s2);
    ResultOfStep(Activation(trusted, f), s2);
  }

  lemma TwoVarArgs(trusted: bool, f: Frame, s: State)
    requires |f.code| == 3 && f.code[1] == VarArgOverCopy()[1] && f.varargs == [NULL, IntValue(9)]
    requires s.pc == 1 && s.regs == [NULL, NULL, NULL]
    ensures StepOf(trusted, f, s) == Next(s.(pc := 2, regs := [NULL, IntValue(9), NULL]))
  {
    hide ExecCompute, ExecBranch, ExecForeign, ExecString, ExecTry, ExecCall, ExecEnd, ExecLoadK;
    var i := f.code[1];
    var t1 := s.(regs := s.regs[0 := NULL]);
    var t2 := s.(regs := [NULL, IntValue(9), NULL]);
    assert t1.regs[1 := IntValue(9)] == t2.regs;
    assert ExecVarArg(trusted, f, i, 2, t2) == Go(t2.(pc := 2));
    assert ExecVarArg(trusted, f, i, 1, t1) == ExecVarArg(trusted, f, i, 2, t2);
    assert ExecVarArg(trusted, f, i, 0, s) == ExecVarArg(trusted, f, i, 1, t1);
  }

  // Returns the second surplus argument, and what the copy was of after the pass.
  lemma VarArgIsMissed(trusted: bool, f: Frame, w: World)
    requires f.code == VarArgOverCopy() && f.returnType == AnyType && f.varargs == [NULL, IntValue(9)]
    ensures !PropagationSafe(f.code)
    ensures Result(Activation(trusted, f), EntryState(3, [], w)) == Returned(IntValue(9), w)
    ensures Result(Activation(trusted, f.(code := PropagatedCode(f.code))), EntryState(3, [], w)) == Returned(NULL, w)
  {
    hide Activation, PropagationSafe, PropagatedCode;
    CopyOutlived();
    VarArgThenReturn(trusted, f, w, 1);
    VarArgThenReturn(trusted, f.(code := PropagatedCode(f.code)), w, 2);
  }
}
