/** A call whose result is returned at once becomes a tail call. */
module Tailcall {
  import opened Int64
  import opened Bytecode
  import opened Machines
  import opened Interpreter
  import opened Steps
  import opened Runs
  import opened Verifier
  import opened TrustedMode
  import opened Passes
  import opened Blocks
  import opened Pairs
  import opened TailTypes
  import opened Meanings

  predicate TailPair(code: seq<Instruction>, p: int) {
    && 0 <= p && p + 1 < |code| && (code[p].op == Call || code[p].op == CallClosure)
    && code[p + 1].op == Ret && code[p].a == code[p + 1].a
  }

  function TailCalling(i: Instruction): Instruction {
    i.(op := if i.op == Call then TailCall else TailCallClosure)
  }

  function TailPairs(code: seq<Instruction>): set<int> {
    set p: int | 0 <= p < |code| && TailPair(code, p)
  }

  function TailCalled(code: seq<Instruction>): (code': seq<Instruction>)
    ensures |code'| == |code|
  {
    seq(|code|, p requires 0 <= p < |code| =>
      if TailPair(code, p) then TailCalling(code[p]) else if TailPair(code, p - 1) then NOP else code[p])
  }

  // Every tail call is followed by a return that nothing else leads to.
  predicate ReturnsUnlabelled(code: seq<Instruction>) {
    forall p :: 0 <= p < |code| && TailPair(code, p) ==> !IsLabel(code, p + 1)
  }

  // Where calls become tail calls, nothing leads to the returns behind them and the function
  // may return anything.
  ghost predicate TailCallsSafe(fn: Function) {
    TailPairs(fn.Code()) == {} || (ReturnsUnlabelled(fn.Code()) && fn.returnType == AnyType)
  }

  lemma TailMerged(code: seq<Instruction>)
    ensures Merged(code, TailPairs(code), TailCalled(code))
    ensures ReturnsUnlabelled(code) ==> Undivided(code, TailPairs(code))
  {
    hide IsLabel, TailPair, TailCalling, TailCalled;
    forall p | 0 <= p < |code| ensures TailPair(code, p) ==> p + 1 < |code| && !TailPair(code, p + 1) {
      NoTwoPairs(code, p);
      NoTwoPairs(code, p + 1);
    }
    forall p: int ensures p in TailPairs(code) <==> TailPair(code, p) { NoTwoPairs(code, p); }
    forall p | 0 <= p < |code| && p !in TailPairs(code)
      ensures TailCalled(code)[p] == if p - 1 in TailPairs(code) then NOP else code[p]
    {
      TailCalledEach(code, p);
    }
  }

  // What the tail call of an accepted call does: the same, except that a result ends the
  // activation instead of being stored.
  ghost predicate TailEffects(i: Instruction, s: State, e: Effect, e': Effect) {
    || (e' == e && !e.Go? && (e.Raise? ==> e.s.tries == s.tries))
    || exists v, w :: e' == Stop(Returned(v, w)) && i.a < |s.regs|
                   && e == Go(s.(pc := s.pc + 1, regs := s.regs[i.a := v], world := w))
  }

  lemma ForwardedAnswer(trusted: bool, i: Instruction, s: State, o: Outcome)
    requires i.a < |s.regs|
    ensures TailEffects(i, s, Receive(trusted, s, i.a, o), Forward(s, o))
  {
  }

  lemma TailEffect(trusted: bool, f: Frame, f': Frame, i: Instruction, s: State)
    requires (i.op == Call || i.op == CallClosure) && RegistersFit(i, |s.regs|) && f' == f.(code := f'.code)
    ensures TailEffects(i, s, ExecCall(trusted, f, i, s), ExecCall(trusted, f', TailCalling(i), s))
  {
    WindowsFit(i.a, i.c, |s.regs|);
    var args := Window(AddU32(i.a, 1), i.c, s.regs);
    hide Window, Receive, Forward;
    if i.op == Call {
      ForwardedAnswer(trusted, i, s, f.env.ask(CallFunction(i.b, args, None), s.world));
    } else {
      var callee := s.regs[i.b];
      if callee.tag == TClosure {
        var target := f.env.closureTarget(callee.bits, s.world);
        if target.Some? {
          ForwardedAnswer(trusted, i, s, f.env.ask(CallFunction(target.value, args, Some(callee.bits)), s.world));
        }
      }
    }
  }

  lemma TailExec(trusted: bool, m: Module, fn: Function, f: Frame, f': Frame, s: State)
    requires Carries(m, fn, f) && f' == f.(code := f'.code) && InCode(f, s) && InCode(f', s) && |s.regs| == fn.regCount
    requires TailPair(f.code, s.pc) && f'.code[s.pc] == TailCalling(f.code[s.pc])
    ensures TailEffects(f.code[s.pc], s, Exec(trusted, f, s), Exec(trusted, f', s))
  {
    hide ExecCompute, ExecBranch, ExecTry, ExecForeign, ExecVarArg, ExecString, ExecLoadK, ExecEnd, ExecCall,
         TailEffects;
    var i := f.code[s.pc];
    assert InstructionOk(m, fn, i, s.pc, |f.code|);
    TailEffect(trusted, f, f', i, s);
  }

  // Either the same happens, and control does not simply go on, or the call stores what the
  // tail call returns.
  lemma TailStep(trusted: bool, m: Module, fn: Function, f: Frame, f': Frame, s: State)
    requires Carries(m, fn, f) && f' == f.(code := f'.code) && InCode(f, s) && InCode(f', s) && |s.regs| == fn.regCount
    requires TailPair(f.code, s.pc) && f'.code[s.pc] == TailCalling(f.code[s.pc]) && HandlersLabelled(f.code, s.tries)
    ensures || (StepOf(trusted, f', s) == StepOf(trusted, f, s)
                && (StepOf(trusted, f, s).Next? ==> IsLabel(f.code, StepOf(trusted, f, s).s.pc)))
            || exists v, w :: StepOf(trusted, f', s) == Done(Returned(v, w)) && f.code[s.pc].a < |s.regs| &&
                 StepOf(trusted, f, s) == Next(s.(pc := s.pc + 1, regs := s.regs[f.code[s.pc].a := v], world := w))
  {
    hide Exec, IsLabel, HandlersLabelled, Carries;
    TailExec(trusted, m, fn, f, f', s);
    var e := Exec(trusted, f, s);
    if e.Raise? {
      UnwindLabelled(f.code, e.fault, e.s);
      if Unwind(e.fault, e.s).Some? { HandlerIsLabel(f.code, Unwind(e.fault, e.s).value.pc); }
    }
  }

  lemma TailMatch(trusted: bool, m: Module, fn: Function, f: Frame, f': Frame, s: State)
    requires Carries(m, fn, f) && f' == f.(code := f'.code) && InCode(f, s) && InCode(f', s)
    requires var r := StepOf(trusted, f', s); r.Done? && r.o.Returned? ==> Matches(r.o.value, f.returnType)
    requires |s.regs| == fn.regCount && HandlersLabelled(f.code, s.tries)
    requires TailPair(f.code, s.pc) && f'.code[s.pc] == TailCalling(f.code[s.pc])
    requires Undivided(f.code, TailPairs(f.code))
    ensures Matched(Activation(trusted, f'), Activation(trusted, f),
                    (x: State, y: State) => Level(trusted, f, fn.regCount, TailPairs(f.code), x, y), s, s)
  {
    hide StepOf, IsLabel, HandlersLabelled, Carries;
    var c, c' := Activation(trusted, f), Activation(trusted, f');
    TailStep(trusted, m, fn, f, f', s);
    ResultOfStep(c, s);
    if StepOf(trusted, f', s) == StepOf(trusted, f, s) {
      if StepOf(trusted, f, s).Next? {
        StepStays(trusted, m, fn, f, s);
        assert Run(c, s, 1) == Running(c.step(s).s);
      }
    } else {
      var t := StepOf(trusted, f, s).s;
      ReturnStep(trusted, f, t);
      ResultOfStep(c, t);
    }
  }

  // The tail call forgets the caller's return type: that is the only difference it makes.
  lemma ReturnTypeExact(
      trusted: bool, m: Module, fn: Function, f: Frame, f': Frame, s: State, v: Value, w: World)
    requires Carries(m, fn, f) && f' == f.(code := f'.code) && InCode(f, s) && InCode(f', s) && |s.regs| == fn.regCount
    requires TailPair(f.code, s.pc) && f'.code[s.pc] == TailCalling(f.code[s.pc]) && HandlersLabelled(f.code, s.tries)
    requires StepOf(trusted, f', s) == Done(Returned(v, w)) != StepOf(trusted, f, s)
    ensures Result(Activation(trusted, f'), s) == Result(Activation(trusted, f), s) <==> Matches(v, f.returnType)
  {
    hide StepOf, IsLabel, HandlersLabelled, Carries;
    TailStep(trusted, m, fn, f, f', s);
    ResultOfStep(Activation(trusted, f'), s);
    ResultOfStep(Activation(trusted, f), s);
    var t := StepOf(trusted, f, s).s;
    ReturnStep(trusted, f, t);
    ResultOfStep(Activation(trusted, f), t);
  }

  // ---- The pass --------------------------------------------------------------------------------

  lemma TailCalledAt(code: seq<Instruction>, p: int)
    requires p in TailPairs(code)
    ensures 0 <= p < |code| && TailPair(code, p) && TailCalled(code)[p] == TailCalling(code[p])
  {
  }

  lemma TailCalledFunction(trusted: bool, m: Module, m': Module, fi: nat)
    requires Accepted(m) && Recoded(m, m', fi) && m'.constants == m.constants
    requires m'.functions[fi].regCount == m.functions[fi].regCount
    requires TailCallsSafe(m.functions[fi])
    requires m'.functions[fi].Code() == TailCalled(m.functions[fi].Code())
    ensures SameFunction(trusted, m, m', fi)
  {
    hide ReturnsUnlabelled, TailCalled, TailPair, TailPairs, Activation, SameFunction;
    var fn := m.functions[fi];
    if TailPairs(fn.Code()) == {} {
      NoTailCalls(fn.Code());
      SameCode(trusted, m, m', fi);
    } else {
      TailCallingFunction(trusted, m, m', fi);
    }
  }

  lemma NoTailCalls(code: seq<Instruction>)
    requires TailPairs(code) == {}
    ensures TailCalled(code) == code
  {
    hide TailPair, TailCalled;
    forall p | 0 <= p < |code| ensures TailCalled(code)[p] == code[p] {
      TailCalledEach(code, p);
      NoTwoPairs(code, p);
      NoTwoPairs(code, p - 1);
      assert TailPair(code, p) ==> p in TailPairs(code);
      assert TailPair(code, p - 1) ==> p - 1 in TailPairs(code);
    }
  }

  // Where whatever a tail call returns may be returned, fusing changes no run.
  lemma TailCallingRun(trusted: bool, m: Module, fn: Function, f: Frame, f': Frame, s: State)
    requires Carries(m, fn, f) && f' == f.(code := TailCalled(f.code)) && ReturnsUnlabelled(f.code)
    requires forall x: State :: InCode(f', x) && StepOf(trusted, f', x).Done? ==>
               Declared(StepOf(trusted, f', x).o, f.returnType)
    requires |s.regs| == fn.regCount && s.tries == [] && s.pc == 0
    ensures Result(Activation(trusted, f), s) == Result(Activation(trusted, f'), s)
  {
    hide ReturnsUnlabelled, TailCalled, TailPair, Activation, StepOf, Carries, HandlersLabelled, Level, Merged,
         Undivided, Matches;
    TailMerged(f.code);
    forall x: State | x.pc in TailPairs(f.code) && |x.regs| == fn.regCount && HandlersLabelled(f.code, x.tries)
      ensures Matched(Activation(trusted, f'), Activation(trusted, f),
                      (y: State, z: State) => Level(trusted, f, fn.regCount, TailPairs(f.code), y, z), x, x)
    {
      TailCalledAt(f.code, x.pc);
      TailMatch(trusted, m, fn, f, f', x);
    }
    MergedRun(trusted, m, fn, f, f', TailPairs(f.code), s);
  }

  lemma TailCallingFunction(trusted: bool, m: Module, m': Module, fi: nat)
    requires Accepted(m) && Recoded(m, m', fi) && m'.constants == m.constants
    requires m'.functions[fi].regCount == m.functions[fi].regCount && m.functions[fi].returnType == AnyType
    requires ReturnsUnlabelled(m.functions[fi].Code())
    requires m'.functions[fi].Code() == TailCalled(m.functions[fi].Code())
    ensures SameFunction(trusted, m, m', fi)
  {
    hide Accepted, ReturnsUnlabelled, TailCalled, Activation, StepOf, CodeOk;
    var fn := m.functions[fi];
    AcceptedFunction(m, fi);
    forall closure, varargs, env, args, w
      ensures Result(Activation(trusted, FrameOf(m, fi, closure, varargs, env)), EntryState(fn.regCount, args, w))
           == Result(Activation(trusted, FrameOf(m', fi, closure, varargs, env)), EntryState(fn.regCount, args, w))
    {
      TailCallingRun(trusted, m, fn, FrameOf(m, fi, closure, varargs, env), FrameOf(m', fi, closure, varargs, env),
                     EntryState(fn.regCount, args, w));
    }
  }

  // ---- Functions that declare what they return ----------------------------------------------------

  // All tail calls of the module keep to the declared types, and so will those to come.
  ghost predicate TailCallsTyped(m: Module, fn: Function) {
    && AllTailsFit(m) && ReturnsUnlabelled(fn.Code())
    && forall p :: 0 <= p < |fn.Code()| && TailPair(fn.Code(), p) ==> TailFits(m, fn, fn.Code()[p])
  }

  ghost predicate TailsSafe(m: Module, fn: Function) { TailCallsSafe(fn) || TailCallsTyped(m, fn) }

  lemma FitsStill(m: Module, fn: Function, code: seq<Instruction>, p: int)
    requires 0 <= p < |code|
    ensures TailPair(code, p) && TailFits(m, fn, code[p]) ==> TailFits(m, fn, TailCalling(code[p]))
    ensures !IsTailCall(NOP.op)
  {
  }

  lemma TypedCode(m: Module, fn: Function)
    requires TailsFit(m, fn, fn.Code())
    requires forall p :: 0 <= p < |fn.Code()| && TailPair(fn.Code(), p) ==> TailFits(m, fn, fn.Code()[p])
    ensures TailsFit(m, fn, TailCalled(fn.Code()))
  {
    hide TailCalled, TailPair, TailFits, TailCalling;
    var code := fn.Code();
    forall p | 0 <= p < |code| && IsTailCall(TailCalled(code)[p].op) ensures TailFits(m, fn, TailCalled(code)[p]) {
      TailCalledEach(code, p);
      FitsStill(m, fn, code, p);
    }
  }

  // Calls that are answered honestly make tail calls that are.
  lemma TypedFunction(trusted: bool, m: Module, m': Module, fi: nat, env: Env)
    requires Accepted(m) && Recoded(m, m', fi) && m'.constants == m.constants && Honest(m, env)
    requires m'.functions[fi].regCount == m.functions[fi].regCount && TailCallsTyped(m, m.functions[fi])
    requires m'.functions[fi].Code() == TailCalled(m.functions[fi].Code())
    ensures SameIn(trusted, m, m', fi, env)
  {
    hide Accepted, ReturnsUnlabelled, TailCalled, TailPair, Activation, StepOf, CodeOk, Honest, Matches;
    var fn := m.functions[fi];
    AcceptedFunction(m, fi);
    TypedCode(m, fn);
    forall closure, varargs, args, w
      ensures Result(Activation(trusted, FrameOf(m, fi, closure, varargs, env)), EntryState(fn.regCount, args, w))
           == Result(Activation(trusted, FrameOf(m', fi, closure, varargs, env)), EntryState(fn.regCount, args, w))
    {
      var f, f' := FrameOf(m, fi, closure, varargs, env), FrameOf(m', fi, closure, varargs, env);
      forall x: State | InCode(f', x) && StepOf(trusted, f', x).Done?
        ensures Declared(StepOf(trusted, f', x).o, f.returnType)
      {
        StepReturns(trusted, m, fn, f', x);
      }
      TailCallingRun(trusted, m, fn, f, f', EntryState(fn.regCount, args, w));
    }
  }

  lemma TypedMeaning(trusted: bool, m: Module, m': Module, fi: nat)
    requires Accepted(m) && Accepted(m') && Recoded(m, m', fi) && AllTailsFit(m)
    requires forall env :: Honest(m, env) ==> SameIn(trusted, m, m', fi, env)
    ensures SameMeaning(trusted, m, m')
  {
    hide Accepted, Recoded, AllTailsFit, SameIn, Honest, Execute, Meaning, EnvAt;
    forall base, k: nat, args, closure, w
      ensures Meaning(trusted, m, base, k, args, closure, w) == Meaning(trusted, m', base, k, args, closure, w)
    {
      forall d: nat { NestedHonest(trusted, m, base, d); }
      forall d: nat
        ensures Execute(trusted, m, base, d, k, args, closure, w) == Execute(trusted, m', base, d, k, args, closure, w)
      {
        RecodedExecutions(trusted, m, m', fi, base, e => Honest(m, e), d, k, args, closure, w);
      }
      SameExecutionsSameMeaning(trusted, m, m', base, k, args, closure, w);
    }
  }

  // Tail calls keep the meaning of the program wherever what they return may be returned:
  // because anything may, or because their callees declare what their callers do.
  lemma TailCalledMeaning(trusted: bool, m: Module, m': Module, fi: nat)
    requires Accepted(m) && Accepted(m') && Recoded(m, m', fi) && m'.constants == m.constants
    requires m'.functions[fi].regCount == m.functions[fi].regCount && TailsSafe(m, m.functions[fi])
    requires m'.functions[fi].Code() == TailCalled(m.functions[fi].Code())
    ensures SameMeaning(trusted, m, m')
  {
    hide Accepted, TailCallsSafe, TailCalled, ReturnsUnlabelled, TailPair, AllTailsFit, SameMeaning, SameFunction,
         SameActivations, SameIn, Honest, Execute;
    if TailCallsSafe(m.functions[fi]) {
      TailCalledFunction(trusted, m, m', fi);
      RecodedActivations(trusted, m, m', fi);
      SameActivationsSameMeaning(trusted, m, m');
    } else {
      forall env | Honest(m, env) ensures SameIn(trusted, m, m', fi, env) { TypedFunction(trusted, m, m', fi, env); }
      TypedMeaning(trusted, m, m', fi);
    }
  }

  lemma TailCallOk(m: Module, fn: Function, i: Instruction, p: int, size: nat)
    requires InstructionOk(m, fn, i, p, size)
    ensures i.op == Call || i.op == CallClosure ==> InstructionOk(m, fn, TailCalling(i), p, size)
    ensures InstructionOk(m, fn, NOP, p, size)
  {
  }

  lemma TailCalledOk(m: Module, fn: Function, code: seq<Instruction>)
    requires CodeOk(m, fn, code)
    ensures CodeOk(m, fn, TailCalled(code))
  {
    hide InstructionOk, TailCalling;
    forall p | 0 <= p < |code| ensures InstructionOk(m, fn, TailCalled(code)[p], p, |code|) {
      assert InstructionOk(m, fn, code[p], p, |code|);
      TailCallOk(m, fn, code[p], p, |code|);
    }
  }

  lemma TailCalledEach(code: seq<Instruction>, p: nat)
    requires p < |code|
    ensures TailCalled(code)[p]
         == if TailPair(code, p) then TailCalling(code[p]) else if TailPair(code, p - 1) then NOP else code[p]
  {
  }

  method CallInTailPosition(code: seq<Instruction>) returns (code': seq<Instruction>, changed: bool)
    requires code != []
    ensures code' == TailCalled(code) && (!changed ==> code' == code)
  {
    hide TailCalling, TailCalled, TailPair;
    TailCalledEach(code, |code| - 1);
    NoTwoPairs(code, |code| - 1);
    NoTwoPairs(code, -1);
    code', changed := code, false;
    for p := 0 to |code| - 1
      invariant |code'| == |code| && (!changed ==> code' == code)
      invariant forall k :: 0 <= k < p ==> code'[k] == TailCalled(code)[k]
      invariant code'[p] == if TailPair(code, p - 1) then NOP else code[p]
      invariant forall k :: p < k < |code| ==> code'[k] == code[k]
    {
      TestedPair(code, p, code'[p]);
      TailCalledEach(code, p);
      if code'[p + 1].op == Ret && code'[p].a == code'[p + 1].a {
        if code'[p].op == Opcode.Call || code'[p].op == CallClosure {
          code' := code'[p := TailCalling(code'[p])][p + 1 := NOP];
          changed := true;
        }
      }
    }
    assert code' == TailCalled(code);
  }

  // The test of the loop, made where the pair before has left a Nop.
  lemma TestedPair(code: seq<Instruction>, p: int, c: Instruction)
    requires 0 <= p && p + 1 < |code| && c == if TailPair(code, p - 1) then NOP else code[p]
    ensures TailPair(code, p) <==>
              && code[p + 1].op == Ret && c.a == code[p + 1].a
              && (c.op == Opcode.Call || c.op == CallClosure)
    ensures TailPair(code, p) ==> c == code[p]
  {
  }

  lemma NoTwoPairs(code: seq<Instruction>, p: int)
    ensures TailPair(code, p - 1) ==> !TailPair(code, p)
    ensures TailPair(code, p) ==> 0 <= p && p + 1 < |code|
    ensures NOP.op != Opcode.Call && NOP.op != CallClosure
  {
  }

  method RunTailcallPass(ws: Workspace, fi: nat) returns (changed: bool)
    requires ws.Valid() && Accepted(ws.View()) && fi < |ws.functions|
    modifies ws`functions
    ensures ws.Valid() && Accepted(ws.View()) && Recoded(old(ws.View()), ws.View(), fi)
    ensures ws.functions[fi].regCount == old(ws.functions)[fi].regCount
    ensures ws.functions[fi].Code() == TailCalled(old(ws.functions)[fi].Code())
    ensures TailCallsSafe(old(ws.functions)[fi]) ==>
              forall trusted :: SameFunction(trusted, old(ws.View()), ws.View(), fi)
    ensures TailsSafe(old(ws.View()), old(ws.functions)[fi]) ==>
              forall trusted :: SameMeaning(trusted, old(ws.View()), ws.View())
  {
    hide Accepted, TailCallsSafe, TailsSafe, SameMeaning, TailCalled;
    ghost var m := ws.View();
    AcceptedFunction(m, fi);
    var code := ws.functions[fi].Code();
    ghost var was := code;
    code, changed := CallInTailPosition(code);
    TailCalledOk(m, m.functions[fi], was);
    if changed { ws.Install(fi, code); }
    InstalledOk(m, ws.View(), fi, code);
    RecodedAccepted(m, ws.View(), fi);
    if TailCallsSafe(m.functions[fi]) {
      forall trusted ensures SameFunction(trusted, m, ws.View(), fi) { TailCalledFunction(trusted, m, ws.View(), fi); }
    }
    if TailsSafe(m, m.functions[fi]) {
      forall trusted ensures SameMeaning(trusted, m, ws.View()) { TailCalledMeaning(trusted, m, ws.View(), fi); }
    }
  }

  // ---- A return that is a label ------------------------------------------------------------------

  // Jumps over a call to the return behind it.
  function JumpToReturn(): seq<Instruction> { [Make(Jmp, 2, 0, 0), Make(Call, 0, 0, 0), Make(Ret, 0, 0, 0)] }

  // The verifier accepts that code.
  lemma JumpToReturnOk(m: Module, fn: Function)
    requires fn.regCount > 0 && m.functions != [] && AcceptsCount(m.functions[0], 0)
    ensures CodeOk(m, fn, JumpToReturn())
  {
  }

  // The jump finds a Nop where the return was, and the activation falls off the end.
  lemma LabelledReturn(trusted: bool, f: Frame, w: World)
    requires f.code == JumpToReturn() && f.returnType == AnyType
    ensures !ReturnsUnlabelled(f.code)
    ensures Result(Activation(trusted, f), EntryState(1, [], w)) == Returned(NULL, w)
    ensures Result(Activation(trusted, f.(code := TailCalled(f.code))), EntryState(1, [], w)) == Failed(PcEscaped, w)
  {
    hide Activation, TailCalled, ReturnsUnlabelled;
    JumpToReturnCalled();
    JumpThenReturn(trusted, f, w);
    JumpThenEnd(trusted, f.(code := TailCalled(f.code)), w);
  }

  lemma JumpThenReturn(trusted: bool, f: Frame, w: World)
    requires f.code == JumpToReturn() && f.returnType == AnyType
    ensures Result(Activation(trusted, f), EntryState(1, [], w)) == Returned(NULL, w)
  {
    hide StepOf;
    var s := EntryState(1, [], w);
    BranchStep(trusted, f, s);
    ResultOfStep(Activation(trusted, f), s);
    ReturnStep(trusted, f, s.(pc := 2));
    ResultOfStep(Activation(trusted, f), s.(pc := 2));
  }

  lemma JumpThenEnd(trusted: bool, f: Frame, w: World)
    requires |f.code| == 3 && f.code[0] == JumpToReturn()[0] && f.code[2] == NOP
    ensures Result(Activation(trusted, f), EntryState(1, [], w)) == Failed(PcEscaped, w)
  {
    hide StepOf;
    var s := EntryState(1, [], w);
    BranchStep(trusted, f, s);
    ResultOfStep(Activation(trusted, f), s);
    NopStep(trusted, f, s.(pc := 2));
    ResultOfStep(Activation(trusted, f), s.(pc := 2));
    ResultOfStep(Activation(trusted, f), s.(pc := 3));
  }

  lemma JumpToReturnCalled()
    ensures !ReturnsUnlabelled(JumpToReturn())
    ensures |TailCalled(JumpToReturn())| == 3
    ensures TailCalled(JumpToReturn())[0] == JumpToReturn()[0] && TailCalled(JumpToReturn())[2] == NOP
  {
    hide IsLabel, TailCalled, TailCalling;
    var code := JumpToReturn();
    JumpToReturnLabel();
    assert TailPair(code, 1) && !TailPair(code, 0) && !TailPair(code, 2);
    TailCalledEach(code, 0);
    TailCalledEach(code, 2);
  }

  lemma JumpToReturnLabel()
    ensures IsLabel(JumpToReturn(), 2)
  {
    assert NamesTarget(JumpToReturn(), 0, 2);
  }
}
