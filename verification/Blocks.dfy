/** Straight-line stretches: control leaves one only to a label, handlers included. */
module Blocks {
  import opened Int64
  import opened Bytecode
  import opened Machines
  import opened Interpreter
  import opened Steps
  import opened Runs
  import opened Verifier
  import opened TrustedMode
  import opened Effects
  import opened Relocation

  predicate NamesHandler(i: Instruction, t: int) {
    i.op == TryBegin && (t == i.a || t == i.b || t == i.c) && t != INVALID_TRY_TARGET
  }

  // Some try statement names `t` as its catch, its finally or its end.
  predicate IsHandler(code: seq<Instruction>, t: int) {
    0 <= t < |code| && exists p :: 0 <= p < |code| && NamesHandler(code[p], t)
  }

  predicate NamesTarget(code: seq<Instruction>, p: int, t: int)
    requires 0 <= p < |code|
  {
    (IsRelativeJump(code[p].op) && t == p + JumpDelta(code[p])) || NamesHandler(code[p], t)
  }

  // Some jump or try statement names `t`.
  predicate IsLabel(code: seq<Instruction>, t: int) {
    0 <= t < |code| && exists p :: 0 <= p < |code| && NamesTarget(code, p, t)
  }

  method CollectJumpTargets(code: seq<Instruction>) returns (labels: set<nat>)
    ensures forall t: nat :: t in labels <==> IsLabel(code, t)
  {
    hide IsRelativeJump, JumpDelta;
    labels := {};
    for i := 0 to |code|
      invariant forall t: nat :: t in labels <==> t < |code| && exists p :: 0 <= p < i && NamesTarget(code, p, t)
    {
      var inst := code[i];
      ghost var before := labels;
      if IsRelativeJump(inst.op) {
        var target := i + JumpDelta(inst);
        if 0 <= target < |code| { labels := labels + {target}; }
      }
      if inst.op == TryBegin {
        if inst.a != INVALID_TRY_TARGET && inst.a < |code| { labels := labels + {inst.a}; }
        if inst.b != INVALID_TRY_TARGET && inst.b < |code| { labels := labels + {inst.b}; }
        if inst.c != INVALID_TRY_TARGET && inst.c < |code| { labels := labels + {inst.c}; }
      }
      assert forall t: nat :: t in labels <==> t in before || (t < |code| && NamesTarget(code, i, t));
    }
  }

  // ---- Handlers lead where try statements say -------------------------------------------------

  ghost predicate FrameLabelled(code: seq<Instruction>, t: TryFrame) {
    && (t.catchTarget != INVALID_TRY_TARGET ==> IsHandler(code, t.catchTarget))
    && (t.finallyTarget != INVALID_TRY_TARGET ==> IsHandler(code, t.finallyTarget))
    && IsHandler(code, t.endTarget)
  }

  ghost predicate HandlersLabelled(code: seq<Instruction>, tries: seq<TryFrame>) {
    forall k :: 0 <= k < |tries| ==> FrameLabelled(code, tries[k])
  }

  lemma HandlerIsLabel(code: seq<Instruction>, t: int)
    requires IsHandler(code, t)
    ensures IsLabel(code, t)
  {
    var p :| 0 <= p < |code| && NamesHandler(code[p], t);
    assert NamesTarget(code, p, t);
  }

  lemma {:induction false} UnwindLabelled(code: seq<Instruction>, fault: Fault, s: State)
    requires HandlersLabelled(code, s.tries)
    ensures Unwind(fault, s).Some? ==>
              && HandlersLabelled(code, Unwind(fault, s).value.tries)
              && IsHandler(code, Unwind(fault, s).value.pc) && Unwind(fault, s).value.regs == s.regs
    decreases |s.tries|
  {
    hide IsHandler;
    if s.tries != [] {
      var k := |s.tries| - 1;
      assert FrameLabelled(code, s.tries[k]);
      UnwindLabelled(code, fault, s.(tries := s.tries[..k]));
    }
  }

  lemma TryLabelled(code: seq<Instruction>, s: State)
    requires 0 <= s.pc < |code| && IsTryOpcode(code[s.pc].op) && HandlersLabelled(code, s.tries)
    ensures var e := ExecTry(|code|, code[s.pc], s);
            match e
            case Go(t) => HandlersLabelled(code, t.tries) && t.regs == s.regs
                       && (IsHandler(code, t.pc) || (t.pc == s.pc + 1 && code[s.pc].op == TryBegin))
            case Stop(_) => true
            case Raise(_, t) => HandlersLabelled(code, t.tries) && t.regs == s.regs
  {
    hide IsHandler;
    var i := code[s.pc];
    if i.op == TryBegin {
      NewFrameLabelled(code, s.pc);
    } else if s.tries != [] {
      assert FrameLabelled(code, s.tries[|s.tries| - 1]);
    }
  }

  lemma NewFrameLabelled(code: seq<Instruction>, p: int)
    requires 0 <= p < |code| && code[p].op == TryBegin
    ensures var i := code[p];
            TryTargetOk(i.a, |code|) && TryTargetOk(i.b, |code|) && i.c < |code| && i.c != INVALID_TRY_TARGET ==>
              FrameLabelled(code, TryFrame(i.a, i.b, i.c, false, false, false, None))
  {
    var i := code[p];
    assert i.a != INVALID_TRY_TARGET ==> NamesHandler(i, i.a);
    assert i.b != INVALID_TRY_TARGET ==> NamesHandler(i, i.b);
    assert i.c != INVALID_TRY_TARGET ==> NamesHandler(i, i.c);
  }

  // ---- One step -------------------------------------------------------------------------------

  // An effect that goes on goes where control may pass to.
  lemma ExecFlows(trusted: bool, m: Module, fn: Function, f: Frame, s: State)
    requires Carries(m, fn, f) && InCode(f, s) && |s.regs| == fn.regCount && !IsTryOpcode(f.code[s.pc].op)
    ensures Exec(trusted, f, s).Go? ==> Flows(f.code, s.pc, Exec(trusted, f, s).s.pc)
  {
    hide Exec;
    if IsRelativeJump(f.code[s.pc].op) {
      BranchFlows(trusted, m, fn, f, s);
    } else {
      ExecFallsThrough(trusted, f, s);
      if IsTerminator(f.code[s.pc].op) { TerminatorStops(trusted, f, s); }
    }
  }

  lemma TerminatorStops(trusted: bool, f: Frame, s: State)
    requires InCode(f, s) && IsTerminator(f.code[s.pc].op)
    ensures !Exec(trusted, f, s).Go?
  {
    hide ExecCompute, ExecBranch, ExecForeign, ExecLoadK, ExecString, ExecVarArg, ExecTry, Window;
  }

  lemma BranchFlows(trusted: bool, m: Module, fn: Function, f: Frame, s: State)
    requires Carries(m, fn, f) && InCode(f, s) && |s.regs| == fn.regCount && IsRelativeJump(f.code[s.pc].op)
    ensures Exec(trusted, f, s).Go? && Flows(f.code, s.pc, Exec(trusted, f, s).s.pc)
    ensures 0 <= s.pc + JumpDelta(f.code[s.pc]) < |f.code|
    ensures Exec(trusted, f, s).s.tries == s.tries && |Exec(trusted, f, s).s.regs| == |s.regs|
  {
    hide ExecCall, ExecForeign, ExecCompute, ExecTry, ExecString, ExecLoadK, ExecVarArg, ExecEnd, Branch;
    assert InstructionOk(m, fn, f.code[s.pc], s.pc, |f.code|);
    assert f.code[s.pc].op == Jmp ==> Branch(f.code[s.pc], s.regs).taken by { AlwaysTaken(f.code[s.pc], s.regs); }
  }

  lemma AlwaysTaken(i: Instruction, regs: seq<Value>)
    requires IsRelativeJump(i.op) && BranchRegsOk(i, |regs|)
    ensures i.op == Jmp ==> Branch(i, regs).taken
  {
  }

  // Without handlers all steps do.
  lemma StepFlows(trusted: bool, m: Module, fn: Function, f: Frame, s: State)
    requires Carries(m, fn, f) && InCode(f, s) && |s.regs| == fn.regCount
    requires s.tries == [] && !IsTryOpcode(f.code[s.pc].op)
    ensures StepOf(trusted, f, s).Next? ==> Flows(f.code, s.pc, StepOf(trusted, f, s).s.pc)
  {
    hide Exec, Flows;
    ExecFlows(trusted, m, fn, f, s);
    ExecKeepsTries(trusted, f, s);
  }

  // From `s` control either goes on with the effect of the instruction, or arrives where a
  // try statement says.
  ghost predicate Moves(trusted: bool, f: Frame, s: State, t: State)
    requires InCode(f, s)
  {
    && |t.regs| == |s.regs| && HandlersLabelled(f.code, t.tries)
    && (IsHandler(f.code, t.pc) || (Exec(trusted, f, s) == Go(t) && Flows(f.code, s.pc, t.pc)))
  }

  lemma MovesTo(trusted: bool, f: Frame, s: State, t: State)
    requires InCode(f, s) && |t.regs| == |s.regs| && HandlersLabelled(f.code, t.tries)
    requires IsHandler(f.code, t.pc) || (Exec(trusted, f, s) == Go(t) && Flows(f.code, s.pc, t.pc))
    ensures Moves(trusted, f, s, t)
  {
    hide Exec, IsHandler, Flows, HandlersLabelled;
  }

  lemma BlockFlows(code: seq<Instruction>, p: int)
    requires 0 <= p < |code|
    ensures code[p].op == TryBegin ==> Flows(code, p, p + 1)
  {
  }

  lemma TryMoves(trusted: bool, f: Frame, s: State)
    requires InCode(f, s) && IsTryOpcode(f.code[s.pc].op) && HandlersLabelled(f.code, s.tries)
    ensures var e := Exec(trusted, f, s);
            match e
            case Go(t) => Moves(trusted, f, s, t)
            case Stop(_) => true
            case Raise(_, t) => HandlersLabelled(f.code, t.tries) && |t.regs| == |s.regs|
  {
    assert 0 <= s.pc < |f.code|;
    hide *;
    TryLabelled(f.code, s);
    TryExec(trusted, f, s);
    BlockFlows(f.code, s.pc);
    var e := Exec(trusted, f, s);
    if e.Go? { MovesTo(trusted, f, s, e.s); }
  }

  lemma PlainMoves(trusted: bool, m: Module, fn: Function, f: Frame, s: State)
    requires Carries(m, fn, f) && InCode(f, s) && |s.regs| == fn.regCount && HandlersLabelled(f.code, s.tries)
    requires !IsTryOpcode(f.code[s.pc].op)
    ensures var e := Exec(trusted, f, s);
            match e
            case Go(t) => Moves(trusted, f, s, t)
            case Stop(_) => true
            case Raise(_, t) => HandlersLabelled(f.code, t.tries) && |t.regs| == |s.regs|
  {
    ExecFlows(trusted, m, fn, f, s);
    ExecKeepsTries(trusted, f, s);
    InstructionWidth(trusted, m, fn, f, s);
    hide Exec, IsHandler, Flows, FrameLabelled, HandlersLabelled, Carries, IsTryOpcode;
  }

  lemma ExecMoves(trusted: bool, m: Module, fn: Function, f: Frame, s: State)
    requires Carries(m, fn, f) && InCode(f, s) && |s.regs| == fn.regCount && HandlersLabelled(f.code, s.tries)
    ensures var e := Exec(trusted, f, s);
            match e
            case Go(t) => Moves(trusted, f, s, t)
            case Stop(_) => true
            case Raise(_, t) => HandlersLabelled(f.code, t.tries) && |t.regs| == |s.regs|
  {
    if IsTryOpcode(f.code[s.pc].op) {
      TryMoves(trusted, f, s);
    } else {
      PlainMoves(trusted, m, fn, f, s);
    }
    hide *;
  }

  lemma InstructionWidth(trusted: bool, m: Module, fn: Function, f: Frame, s: State)
    requires Carries(m, fn, f) && InCode(f, s) && |s.regs| == fn.regCount
    ensures InBounds(Exec(trusted, f, s), Exec(trusted, f, s), |s.regs|)
  {
    hide Exec;
    InstructionInBounds(m, fn, f, s);
  }

  lemma StepMoves(trusted: bool, m: Module, fn: Function, f: Frame, s: State)
    requires Carries(m, fn, f) && InCode(f, s) && |s.regs| == fn.regCount && HandlersLabelled(f.code, s.tries)
    ensures StepOf(trusted, f, s).Next? ==> Moves(trusted, f, s, StepOf(trusted, f, s).s)
  {
    hide Exec, IsHandler, FrameLabelled, Flows;
    ExecMoves(trusted, m, fn, f, s);
    var e := Exec(trusted, f, s);
    if e.Raise? { UnwindLabelled(f.code, e.fault, e.s); }
  }

  // So it either falls through or arrives at a label.
  ghost predicate StaysOrLabel(trusted: bool, f: Frame, s: State, t: State)
    requires InCode(f, s)
  {
    && |t.regs| == |s.regs| && HandlersLabelled(f.code, t.tries)
    && (IsLabel(f.code, t.pc) || (t.pc == s.pc + 1 && Exec(trusted, f, s) == Go(t)))
  }

  lemma StepStays(trusted: bool, m: Module, fn: Function, f: Frame, s: State)
    requires Carries(m, fn, f) && InCode(f, s) && |s.regs| == fn.regCount && HandlersLabelled(f.code, s.tries)
    ensures StepOf(trusted, f, s).Next? ==> StaysOrLabel(trusted, f, s, StepOf(trusted, f, s).s)
  {
    hide StepOf, Exec, IsHandler, FrameLabelled;
    StepMoves(trusted, m, fn, f, s);
    if StepOf(trusted, f, s).Next? {
      var t := StepOf(trusted, f, s).s;
      if IsHandler(f.code, t.pc) {
        HandlerIsLabel(f.code, t.pc);
      } else if IsRelativeJump(f.code[s.pc].op) {
        BranchFlows(trusted, m, fn, f, s);
        assert t.pc == s.pc + JumpDelta(f.code[s.pc]) ==> NamesTarget(f.code, s.pc, t.pc);
      }
    }
  }
}
