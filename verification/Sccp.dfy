/** Sparse conditional constant propagation as a pass: what the analysis knows is true on
    every run, and rewriting the code from it changes no run, if the analysis covers the
    handlers. */
module Sccp {
  import opened Int64
  import opened Bytecode
  import opened Machines
  import opened Interpreter
  import opened Steps
  import opened Runs
  import opened Verifier
  import opened TrustedMode
  import opened KnownValues
  import opened SccpAnalysis
  import opened Passes
  import opened Blocks
  import opened Effects

  // ---- The analysis tells the truth ---------------------------------------------------------

  predicate Describes(st: RegState, regs: seq<Value>) {
    |st| == |regs| && forall r :: 0 <= r < |st| ==> Fits(st[r], regs[r])
  }

  // What holds whenever the machine is in a state: the pc is reachable and the registers are
  // as the analysis says.
  ghost predicate Explained(code: seq<Instruction>, a: Analysis, n: nat, s: State) {
    && |s.regs| == n && HandlersLabelled(code, s.tries)
    && (0 <= s.pc < |a.reachable| ==>
          s.pc < |a.states| && a.reachable[s.pc] && Describes(a.states[s.pc], s.regs))
  }

  // Where exceptions may arrive the code counts as reachable with nothing known.  Without
  // handlers there is nothing to cover.
  ghost predicate HandlersCovered(code: seq<Instruction>, regCount: nat, a: Analysis) {
    forall t :: 0 <= t < |code| && IsHandler(code, t) ==> Covers(a, t, AllUnknown(regCount))
  }

  lemma NoHandlers(code: seq<Instruction>, regCount: nat, a: Analysis)
    requires TryFree(code)
    ensures HandlersCovered(code, regCount, a)
  {
  }

  lemma {:induction false} ForgetDescribes(
      trusted: bool, f: Frame, i: Instruction, k: nat, s: State, st: RegState)
    requires k <= i.c && (i.c > 0 ==> WindowFits(i.a, i.c - 1, |s.regs|))
    requires |st| == |s.regs|
    requires forall r :: 0 <= r < |st| ==> Fits(st[r], s.regs[r]) || exists j :: 0 <= j < k && AddU32(i.a, j) == r
    ensures ExecVarArg(trusted, f, i, k, s).Go?
    ensures Describes(ForgetRange(st, i.a, i.c), ExecVarArg(trusted, f, i, k, s).s.regs)
    ensures ExecVarArg(trusted, f, i, k, s).s.pc == s.pc + 1
    ensures ExecVarArg(trusted, f, i, k, s).s.tries == s.tries
    decreases i.c - k
  {
    if k < i.c {
      var source := AddU32(i.b, k);
      var v := if source < |f.varargs| then f.varargs[source] else NULL;
      var t := s.(regs := s.regs[AddU32(i.a, k) := v]);
      forall r | 0 <= r < |st|
        ensures Fits(st[r], t.regs[r]) || exists j :: 0 <= j < k + 1 && AddU32(i.a, j) == r
      {
        if r == AddU32(i.a, k) { assert 0 <= k < k + 1 && AddU32(i.a, k) == r; }
      }
      ForgetDescribes(trusted, f, i, k + 1, t, st);
    }
  }

  // `t` is a state that `st` before instruction `pc` accounts for.
  ghost predicate Accounted(f: Frame, pc: nat, st: RegState, t: State)
    requires pc < |f.code|
  {
    && Describes(Transfer(f.constants, f.code[pc], st), t.regs)
    && (0 <= t.pc < |f.code| ==> MayPass(f.code, pc, st, t.pc))
  }

  lemma ComputeAccounted(trusted: bool, f: Frame, s: State, st: RegState)
    requires InCode(f, s) && Describes(st, s.regs)
    requires var i := f.code[s.pc]; IsCompute(i.op) && RegistersFit(i, |s.regs|)
    ensures var e := ExecCompute(trusted, f.code[s.pc], s); e.Go? ==> Accounted(f, s.pc, st, e.s)
  {
    var i := f.code[s.pc];
    AbsComputeSound(i, st[Operand1(i)], st[Operand2(i)], s.regs[Operand1(i)], s.regs[Operand2(i)]);
    hide AbsCompute, Compute, Fits;
    assert Fits(Anything, NULL);
  }

  lemma BranchAccounted(trusted: bool, f: Frame, s: State, st: RegState)
    requires InCode(f, s) && Describes(st, s.regs)
    requires var i := f.code[s.pc]; IsRelativeJump(i.op) && RegistersFit(i, |s.regs|)
    ensures var e := ExecBranch(trusted, |f.code|, f.code[s.pc], s); e.Go? ==> Accounted(f, s.pc, st, e.s)
  {
    hide Int64.Add, Int64.Sub, JumpDelta;
  }

  lemma AnswerFalls(trusted: bool, f: Frame, i: Instruction, s: State)
    ensures IsCall(i.op) && ExecCall(trusted, f, i, s).Go? ==>
              !IsTerminator(i.op) && ExecCall(trusted, f, i, s).s.pc == s.pc + 1
    ensures IsForeign(i.op) && ExecForeign(trusted, f, i, s).Go? ==>
              !IsTerminator(i.op) && ExecForeign(trusted, f, i, s).s.pc == s.pc + 1
  {
    hide Window, WindowOk, AddU32;
  }

  lemma AnswerAccounted(f: Frame, s: State, st: RegState, t: State)
    requires InCode(f, s) && Describes(st, s.regs) && t.pc == s.pc + 1
    requires var i := f.code[s.pc];
             && (IsForeign(i.op) || IsCall(i.op)) && !IsTerminator(i.op) && ChangesOnly(f, i, s, Go(t))
    ensures Accounted(f, s.pc, st, t)
  {
    hide Decision, JumpDelta, GrowsStrings;
    DecidedJump(f.code[s.pc], st);
  }

  lemma ForeignAccounted(trusted: bool, f: Frame, s: State, st: RegState)
    requires InCode(f, s) && Describes(st, s.regs)
    requires var i := f.code[s.pc]; (IsForeign(i.op) || IsCall(i.op)) && RegistersFit(i, |s.regs|)
    ensures var i := f.code[s.pc];
            var e := if IsCall(i.op) then ExecCall(trusted, f, i, s) else ExecForeign(trusted, f, i, s);
            e.Go? ==> Accounted(f, s.pc, st, e.s)
  {
    hide *;
    InsideMeans(f, s);
    var i := f.code[s.pc];
    var e := if IsCall(i.op) then ExecCall(trusted, f, i, s) else ExecForeign(trusted, f, i, s);
    AnswerFalls(trusted, f, i, s);
    if IsCall(i.op) { CallChanges(trusted, f, i, s); } else { ForeignChanges(trusted, f, i, s); }
    if e.Go? { AnswerAccounted(f, s, st, e.s); }
  }

  lemma {:induction false} VarArgAccounted(trusted: bool, f: Frame, s: State, st: RegState)
    requires InCode(f, s) && Describes(st, s.regs)
    requires var i := f.code[s.pc]; i.op == VarArg && RegistersFit(i, |s.regs|)
    ensures var e := ExecVarArg(trusted, f, f.code[s.pc], 0, s); e.Go? ==> Accounted(f, s.pc, st, e.s)
  {
    ForgetDescribes(trusted, f, f.code[s.pc], 0, s, st);
  }

  lemma OtherAccounted(trusted: bool, f: Frame, s: State, st: RegState)
    requires InCode(f, s) && Describes(st, s.regs)
    requires var i := f.code[s.pc];
             && RegistersFit(i, |s.regs|) && !IsCompute(i.op) && !IsRelativeJump(i.op)
             && !IsTryOpcode(i.op) && !IsCall(i.op) && !IsForeign(i.op) && i.op != VarArg
    ensures var e := Exec(trusted, f, s); e.Go? ==> Accounted(f, s.pc, st, e.s)
  {
    hide Exec, ExecCompute, ExecBranch, ExecVarArg, ExecTry, ExecCall, ExecForeign, Intern, Resolve, Decision, Matches;
    ExecGroups(trusted, f, s);
    DecidedJump(f.code[s.pc], st);
  }

  lemma ExecAccounted(trusted: bool, m: Module, fn: Function, f: Frame, s: State, st: RegState)
    requires Carries(m, fn, f) && InCode(f, s) && |s.regs| == fn.regCount
    requires Describes(st, s.regs) && !IsTryOpcode(f.code[s.pc].op)
    ensures var e := Exec(trusted, f, s); e.Go? ==> Accounted(f, s.pc, st, e.s)
  {
    var i := f.code[s.pc];
    assert InstructionOk(m, fn, i, s.pc, |f.code|);
    hide ExecCompute, ExecBranch, ExecString, ExecLoadK, ExecVarArg, ExecTry, ExecCall, ExecForeign, ExecEnd;
    hide Accounted;
    if IsCompute(i.op) {
      ComputeAccounted(trusted, f, s, st);
    } else if IsRelativeJump(i.op) {
      BranchAccounted(trusted, f, s, st);
    } else if IsCall(i.op) || IsForeign(i.op) {
      ForeignAccounted(trusted, f, s, st);
    } else if i.op == VarArg {
      VarArgAccounted(trusted, f, s, st);
    } else {
      OtherAccounted(trusted, f, s, st);
    }
  }

  lemma StepAccounted(trusted: bool, m: Module, fn: Function, f: Frame, s: State, st: RegState)
    requires Carries(m, fn, f) && InCode(f, s) && |s.regs| == fn.regCount
    requires Describes(st, s.regs) && s.tries == [] && !IsTryOpcode(f.code[s.pc].op)
    ensures StepOf(trusted, f, s).Next? ==>
              Accounted(f, s.pc, st, StepOf(trusted, f, s).s) && StepOf(trusted, f, s).s.tries == []
  {
    hide Exec, Accounted;
    ExecAccounted(trusted, m, fn, f, s, st);
    ExecKeepsTries(trusted, f, s);
  }

  // A try instruction that falls through leaves everything as it was.
  lemma TryAccounted(trusted: bool, f: Frame, s: State, st: RegState)
    requires InCode(f, s) && Describes(st, s.regs) && IsTryOpcode(f.code[s.pc].op)
    ensures var e := Exec(trusted, f, s);
            e.Go? && Flows(f.code, s.pc, e.s.pc) ==> Accounted(f, s.pc, st, e.s)
  {
    hide ExecCompute, ExecBranch, ExecVarArg, ExecCall, ExecForeign, ExecString, ExecLoadK, ExecEnd;
  }

  // A solution that covers the handlers explains every state of every run.
  lemma StepExplained(trusted: bool, m: Module, fn: Function, f: Frame, a: Analysis, s: State)
    requires Carries(m, fn, f) && Solution(f.code, f.constants, fn.regCount, a)
    requires HandlersCovered(f.code, fn.regCount, a)
    requires Explained(f.code, a, fn.regCount, s) && InCode(f, s)
    ensures StepOf(trusted, f, s).Next? ==> Explained(f.code, a, fn.regCount, StepOf(trusted, f, s).s)
  {
    hide StepOf, Exec, Carries, IsHandler, HandlersLabelled, Flows, Transfer;
    StepMoves(trusted, m, fn, f, s);
    if StepOf(trusted, f, s).Next? {
      var t := StepOf(trusted, f, s).s;
      if InCode(f, t) {
        if IsHandler(f.code, t.pc) {
          UnknownDescribes(a, t.pc, t.regs);
        } else {
          if IsTryOpcode(f.code[s.pc].op) {
            TryAccounted(trusted, f, s, a.states[s.pc]);
          } else {
            ExecAccounted(trusted, m, fn, f, s, a.states[s.pc]);
          }
          assert Closed(f.code, f.constants, a, s.pc);
          assert Covers(a, t.pc, Transfer(f.constants, f.code[s.pc], a.states[s.pc]));
        }
      }
    }
  }

  lemma UnknownDescribes(a: Analysis, t: nat, regs: seq<Value>)
    requires Covers(a, t, AllUnknown(|regs|))
    ensures a.reachable[t] && Describes(a.states[t], regs)
  {
  }

  lemma EntryExplained(code: seq<Instruction>, constants: seq<Constant>, regCount: nat, a: Analysis,
                       args: seq<Value>, w: World)
    requires code != [] && Solution(code, constants, regCount, a)
    ensures Explained(code, a, regCount, EntryState(regCount, args, w))
  {
    assert Covers(a, 0, AllUnknown(regCount));
  }

  // ---- The rewriting ------------------------------------------------------------------------

  function FoldAt(i: Instruction, st: RegState): Rewrite {
    Fold(i, ReadReg(st, if IsCompute(i.op) then Operand1(i) else i.a), ReadReg(st, Operand2(i)))
  }

  predicate RewrittenAt(a: Analysis, code: seq<Instruction>, i': Instruction, constants: seq<Constant>, pc: nat)
    requires pc < |code| && pc < |a.reachable| && pc < |a.states|
  {
    if a.reachable[pc] then Realizes(FoldAt(code[pc], a.states[pc]), code[pc], i', constants)
    else i' == if code[pc].op == Nop then code[pc] else NOP
  }

  predicate Rewritten(a: Analysis, code: seq<Instruction>, code': seq<Instruction>, constants: seq<Constant>) {
    && |code'| == |code| <= |a.reachable| && |code| <= |a.states|
    && forall pc :: 0 <= pc < |code| ==> RewrittenAt(a, code, code'[pc], constants, pc)
  }

  lemma RewrittenStep(trusted: bool, m: Module, fn: Function, f: Frame, f': Frame, a: Analysis, s: State)
    requires Carries(m, fn, f) && Recodes(f, f') && Indexable(f'.constants)
    requires Rewritten(a, f.code, f'.code, f'.constants) && Shaped(a, |f.code|, fn.regCount)
    requires Explained(f.code, a, fn.regCount, s) && InCode(f, s)
    ensures StepOf(trusted, f, s) == StepOf(trusted, f', s)
  {
    var i, st := f.code[s.pc], a.states[s.pc];
    assert InstructionOk(m, fn, i, s.pc, |f.code|);
    FoldedStep(trusted, m, fn, f, f', s,
               ReadReg(st, if IsCompute(i.op) then Operand1(i) else i.a), ReadReg(st, Operand2(i)));
  }

  // Rewriting code from any solution that covers the handlers leaves the result of every run
  // unchanged.
  lemma RewrittenRun(trusted: bool, m: Module, fn: Function, f: Frame, f': Frame, a: Analysis, s: State)
    requires Carries(m, fn, f) && Recodes(f, f') && Indexable(f'.constants)
    requires Solution(f.code, f.constants, fn.regCount, a) && HandlersCovered(f.code, fn.regCount, a)
    requires Rewritten(a, f.code, f'.code, f'.constants)
    requires Explained(f.code, a, fn.regCount, s)
    ensures Result(Activation(trusted, f), s) == Result(Activation(trusted, f'), s)
  {
    hide HandlersCovered, HandlersLabelled;
    var inv := (t: State) => Explained(f.code, a, fn.regCount, t);
    forall t | inv(t) && InCode(f, t)
      ensures StepOf(trusted, f, t) == StepOf(trusted, f', t)
      ensures StepOf(trusted, f, t).Next? ==> inv(StepOf(trusted, f, t).s)
    {
      RewrittenStep(trusted, m, fn, f, f', a, t);
      StepExplained(trusted, m, fn, f, a, t);
    }
    AgreeingResults(Activation(trusted, f), Activation(trusted, f'), inv, s);
  }

  lemma RewrittenFunction(trusted: bool, m: Module, m': Module, fi: nat, a: Analysis)
    requires Accepted(m) && Recoded(m, m', fi) && Indexable(m'.constants)
    requires m'.functions[fi].regCount == m.functions[fi].regCount
    requires HandlersCovered(m.functions[fi].Code(), m.functions[fi].regCount, a)
    requires Solution(m.functions[fi].Code(), m.constants, m.functions[fi].regCount, a)
    requires Rewritten(a, m.functions[fi].Code(), m'.functions[fi].Code(), m'.constants)
    ensures SameFunction(trusted, m, m', fi)
  {
    var fn := m.functions[fi];
    assert FunctionOk(m, fn);
    forall closure, varargs, env, args, w
      ensures Result(Activation(trusted, FrameOf(m, fi, closure, varargs, env)), EntryState(fn.regCount, args, w))
           == Result(Activation(trusted, FrameOf(m', fi, closure, varargs, env)), EntryState(fn.regCount, args, w))
    {
      EntryExplained(fn.Code(), m.constants, fn.regCount, a, args, w);
      RewrittenRun(trusted, m, fn, FrameOf(m, fi, closure, varargs, env), FrameOf(m', fi, closure, varargs, env), a,
                   EntryState(fn.regCount, args, w));
    }
  }

  lemma RewrittenOk(m: Module, m': Module, fi: nat, a: Analysis, code': seq<Instruction>)
    requires Accepted(m) && Recoded(m, m', fi) && m'.functions[fi].regCount == m.functions[fi].regCount
    requires Rewritten(a, m.functions[fi].Code(), code', m'.constants)
    ensures CodeOk(m', m'.functions[fi], code')
  {
    var fn := m.functions[fi];
    var code := fn.Code();
    assert FunctionOk(m, fn);
    forall pc | 0 <= pc < |code'| ensures InstructionOk(m', m'.functions[fi], code'[pc], pc, |code'|) {
      assert InstructionOk(m, fn, code[pc], pc, |code|);
      RecodedInstruction(m, m', fi, fn, code[pc], pc, |code|);
      SameSignatureOk(m', fn, m'.functions[fi], code[pc], pc, |code|);
      if a.reachable[pc] {
        RealizedOk(m, fn, m', FoldAt(code[pc], a.states[pc]), code[pc], code'[pc], pc, |code|);
        SameSignatureOk(m', fn, m'.functions[fi], code'[pc], pc, |code|);
      }
    }
  }

  // ---- The pass -----------------------------------------------------------------------------

  // Carries out what a solution says about every instruction.
  method RewriteCode(ws: Workspace, a: Analysis, code: seq<Instruction>)
    returns (code': seq<Instruction>, changed: bool)
    requires ws.Valid() && |code| <= |a.reachable| && |code| <= |a.states|
    modifies ws`constants, ws`int64Cache
    ensures ws.Valid() && old(ws.constants) <= ws.constants && |ws.constants| <= |old(ws.constants)| + |code|
    ensures Rewritten(a, code, code', ws.constants) && |code'| == |code| && (!changed ==> code' == code)
  {
    hide FoldAt, Realizes;
    code', changed := code, false;
    for pc := 0 to |code|
      invariant ws.Valid() && old(ws.constants) <= ws.constants && |ws.constants| <= |old(ws.constants)| + pc
      invariant |code'| == |code| && (!changed ==> code' == code)
      invariant forall k :: pc <= k < |code| ==> code'[k] == code[k]
      invariant forall k :: 0 <= k < pc ==> RewrittenAt(a, code, code'[k], ws.constants, k)
    {
      var i := code'[pc];
      ghost var before := ws.constants;
      var i';
      if !a.reachable[pc] {
        i' := if i.op == Nop then i else NOP;
      } else {
        i' := ws.Apply(FoldAt(i, a.states[pc]), i);
      }
      changed := changed || i' != i;
      code' := code'[pc := i'];
      forall k | 0 <= k < pc ensures RewrittenAt(a, code, code'[k], ws.constants, k) {
        assert RewrittenAt(a, code, code'[k], before, k);
        if a.reachable[k] {
          RealizedLater(FoldAt(code[k], a.states[k]), code[k], code'[k], before, ws.constants);
        }
      }
    }
  }

  method RunSccpPass(ws: Workspace, fi: nat) returns (changed: bool)
    requires ws.Valid() && Accepted(ws.View()) && fi < |ws.functions|
    modifies ws
    ensures ws.Valid() && Accepted(ws.View()) && Recoded(old(ws.View()), ws.View(), fi)
    ensures |ws.constants| <= |old(ws.constants)| + |old(ws.functions)[fi].Code()|
    ensures ws.functions[fi].regCount == old(ws.functions)[fi].regCount
    ensures exists a ::
              && LeastSolution(old(ws.functions)[fi].Code(), old(ws.constants), old(ws.functions)[fi].regCount, a)
              && Rewritten(a, old(ws.functions)[fi].Code(), ws.functions[fi].Code(), ws.constants)
              && (HandlersCovered(old(ws.functions)[fi].Code(), old(ws.functions)[fi].regCount, a)
                    && Indexable(ws.constants) ==>
                    forall trusted :: SameFunction(trusted, old(ws.View()), ws.View(), fi))
  {
    hide Accepted, LeastSolution, Rewritten, HandlersCovered, SameFunction;
    ghost var m := ws.View();
    AcceptedFunction(m, fi);
    var code, regCount := ws.functions[fi].Code(), ws.functions[fi].regCount;
    var a, _ := Analyze(code, ws.constants, regCount);
    LeastSolves(code, ws.constants, regCount, a);
    var code';
    code', changed := RewriteCode(ws, a, code);
    if changed { ws.Install(fi, code'); }
    RewrittenOk(m, ws.View(), fi, a, code');
    RecodedAccepted(m, ws.View(), fi);
    if HandlersCovered(code, regCount, a) && Indexable(ws.constants) {
      forall trusted ensures SameFunction(trusted, m, ws.View(), fi) {
        RewrittenFunction(trusted, m, ws.View(), fi, a);
      }
    }
  }

  lemma LeastSolves(code: seq<Instruction>, constants: seq<Constant>, regCount: nat, a: Analysis)
    requires LeastSolution(code, constants, regCount, a)
    ensures Solution(code, constants, regCount, a) && |a.reachable| == |a.states| == |code|
  {
  }

  // ---- Code with handlers -------------------------------------------------------------------

  // throw inside a try block whose catch block returns: the analysis never looks at handlers,
  // so it takes the catch block for dead code.
  function ThrowAndCatch(): seq<Instruction> {
    [Make(TryBegin, 2, INVALID_TRY_TARGET, 2), Make(Throw, 0, 0, 0), Make(Ret, 0, 0, 0)]
  }

  lemma HandlerTakenForDead(a: Analysis, code': seq<Instruction>)
    requires LeastSolution(ThrowAndCatch(), [], 1, a) && Rewritten(a, ThrowAndCatch(), code', [])
    ensures code' == [ThrowAndCatch()[0], ThrowAndCatch()[1], NOP]
  {
    hide Solution, AtMost, Rewritten, MayPass, Transfer;
    var code := ThrowAndCatch();
    var b := DeadHandler();
    DeadHandlerSolves();
    assert AtMost(a, b);
    OnlyHandlerDead(a, b);
    LiveCode(a, code');
  }

  // What the analysis makes of it.
  function DeadHandler(): Analysis { Analysis([true, true, false], [[Anything], [Anything], [Anything]]) }

  lemma DeadHandlerSolves()
    ensures Solution(ThrowAndCatch(), [], 1, DeadHandler())
  {
    var code, b := ThrowAndCatch(), DeadHandler();
    assert AllUnknown(1) == [Anything];
    assert Closed(code, [], b, 0) && Closed(code, [], b, 1);
  }

  lemma OnlyHandlerDead(a: Analysis, b: Analysis)
    requires Solution(ThrowAndCatch(), [], 1, a) && b == DeadHandler() && AtMost(a, b)
    ensures Shaped(a, 3, 1) && a.reachable[0] && a.reachable[1] && !a.reachable[2]
  {
    var code := ThrowAndCatch();
    assert Covers(a, 0, AllUnknown(1));
    assert Closed(code, [], a, 0);
    assert MayPass(code, 0, a.states[0], 1);
    assert Covers(a, 1, Transfer([], code[0], a.states[0]));
    assert !Covers(b, 2, a.states[2]);
  }

  lemma LiveCode(a: Analysis, code': seq<Instruction>)
    requires Shaped(a, 3, 1) && a.reachable[0] && a.reachable[1] && !a.reachable[2]
    requires Rewritten(a, ThrowAndCatch(), code', [])
    ensures code' == [ThrowAndCatch()[0], ThrowAndCatch()[1], NOP]
  {
    var code := ThrowAndCatch();
    assert RewrittenAt(a, code, code'[0], [], 0) && RewrittenAt(a, code, code'[1], [], 1);
    assert RewrittenAt(a, code, code'[2], [], 2);
  }

  function InHandler(w: World): State {
    State(2, [NULL], [TryFrame(2, INVALID_TRY_TARGET, 2, true, false, false, Some(UserThrow(NULL)))], w)
  }

  lemma ThrowReachesHandler(trusted: bool, f: Frame, w: World)
    requires |f.code| == 3 && f.code[0] == ThrowAndCatch()[0] && f.code[1] == ThrowAndCatch()[1]
    ensures Result(Activation(trusted, f), EntryState(1, [], w)) == Result(Activation(trusted, f), InHandler(w))
  {
    hide ExecCompute, ExecBranch, ExecString, ExecLoadK, ExecVarArg, ExecCall, ExecForeign;
    var m := Activation(trusted, f);
    var s0 := EntryState(1, [], w);
    assert s0.regs == [NULL];
    var t := TryFrame(2, INVALID_TRY_TARGET, 2, false, false, false, None);
    var s1 := State(1, [NULL], [t], w);
    assert [] + [t] == [t];
    assert StepOf(trusted, f, s0) == Next(s1);
    ResultOfStep(m, s0);
    assert [t][..0] == [];
    assert Exec(trusted, f, s1) == Raise(UserThrow(NULL), s1);
    var caught := t.(inCatch := true, pending := Some(UserThrow(NULL)));
    assert [t][0 := caught] == [caught];
    ResultOfStep(m, s1);
  }

  lemma HandlerReturns(trusted: bool, f: Frame, w: World)
    requires |f.code| == 3 && f.code[2] == ThrowAndCatch()[2] && f.returnType == AnyType
    ensures Result(Activation(trusted, f), InHandler(w)) == Returned(NULL, w)
  {
    hide StepOf;
    ReturnStep(trusted, f, InHandler(w));
    ResultOfStep(Activation(trusted, f), InHandler(w));
  }

  lemma NoHandlerReturns(trusted: bool, f: Frame, w: World)
    requires |f.code| == 3 && f.code[2] == NOP
    ensures Result(Activation(trusted, f), InHandler(w)) == Failed(PcEscaped, w)
  {
    hide StepOf;
    NopStep(trusted, f, InHandler(w));
    ResultOfStep(Activation(trusted, f), InHandler(w));
    ResultOfStep(Activation(trusted, f), InHandler(w).(pc := 3));
  }

  lemma HandlerUncovered(a: Analysis)
    requires LeastSolution(ThrowAndCatch(), [], 1, a)
    ensures !HandlersCovered(ThrowAndCatch(), 1, a)
  {
    hide Solution, Covers;
    DeadHandlerSolves();
    assert AtMost(a, DeadHandler());
    OnlyHandlerDead(a, DeadHandler());
    HandlerThere(a);
  }

  lemma HandlerThere(a: Analysis)
    requires Shaped(a, 3, 1) && !a.reachable[2]
    ensures !HandlersCovered(ThrowAndCatch(), 1, a)
  {
    assert NamesHandler(ThrowAndCatch()[0], 2) && IsHandler(ThrowAndCatch(), 2);
    assert !Covers(a, 2, AllUnknown(1));
  }

  lemma HandlersAreLost(trusted: bool, f: Frame, a: Analysis, code': seq<Instruction>, w: World)
    requires f.code == ThrowAndCatch() && f.constants == [] && f.returnType == AnyType
    requires LeastSolution(f.code, f.constants, 1, a) && Rewritten(a, f.code, code', f.constants)
    ensures !HandlersCovered(f.code, 1, a)
    ensures Result(Activation(trusted, f), EntryState(1, [], w)) == Returned(NULL, w)
    ensures Result(Activation(trusted, f.(code := code')), EntryState(1, [], w)) == Failed(PcEscaped, w)
  {
    HandlerUncovered(a);
    hide Activation, LeastSolution, Rewritten, HandlersCovered;
    HandlerTakenForDead(a, code');
    var g := f.(code := code');
    ThrowReachesHandler(trusted, f, w);
    ThrowReachesHandler(trusted, g, w);
    HandlerReturns(trusted, f, w);
    NoHandlerReturns(trusted, g, w);
  }

  // The verifier accepts that code.
  lemma ThrowAndCatchOk(m: Module, fn: Function)
    requires fn.regCount == 1
    ensures CodeOk(m, fn, ThrowAndCatch())
  {
  }
}
