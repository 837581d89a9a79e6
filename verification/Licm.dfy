/** Loop-invariant code motion for the constant load at a loop header: the back edge is sent
    behind the load. */
module Licm {
  import opened Int64
  import opened Bytecode
  import opened Machines
  import opened Interpreter
  import opened Steps
  import opened Runs
  import opened Verifier
  import opened TrustedMode
  import opened KnownValues
  import opened Effects
  import opened Meanings
  import opened SteadyStrings
  import opened Relocation
  import opened Blocks
  import opened Passes

  // ---- What the pass does ---------------------------------------------------------------------

  ghost predicate IsPredecessors(code: seq<Instruction>, preds: seq<set<nat>>) {
    && |preds| == |code|
    && forall t, p :: 0 <= t < |code| && 0 <= p ==> (p in preds[t] <==> p < |code| && Flows(code, p, t))
  }

  function AddEdge(preds: seq<set<nat>>, from: nat, to: int): (r: seq<set<nat>>)
    ensures |r| == |preds|
  {
    if 0 <= to < |preds| then preds[to := preds[to] + {from}] else preds
  }

  method CollectPredecessors(code: seq<Instruction>) returns (preds: seq<set<nat>>)
    ensures IsPredecessors(code, preds)
  {
    hide IsRelativeJump, JumpDelta, IsTerminator;
    preds := seq(|code|, _ => {});
    for i := 0 to |code|
      invariant |preds| == |code|
      invariant forall t, p :: 0 <= t < |code| && 0 <= p ==> (p in preds[t] <==> p < i && Flows(code, p, t))
    {
      var inst := code[i];
      if IsRelativeJump(inst.op) { preds := AddEdge(preds, i, i + JumpDelta(inst)); }
      if inst.op != Jmp && !IsTerminator(inst.op) { preds := AddEdge(preds, i, i + 1); }
    }
  }

  // The loop from `h` to its back edge `b` loads a constant at its header that nothing else
  // in it overwrites, and is entered only from the place before it.
  predicate Hoistable(code: seq<Instruction>, preds: seq<set<nat>>, b: nat)
    requires b < |code| == |preds|
  {
    && IsRelativeJump(code[b].op)
    && var h := b + JumpDelta(code[b]);
       && 0 < h < b && preds[h] == {h - 1, b}
       && code[h].op == LoadK
       && forall k :: h < k <= b ==> !WritesReg(code[k], code[h].a)
  }

  function HoistedAt(code: seq<Instruction>, preds: seq<set<nat>>, b: nat): Instruction
    requires b < |code| == |preds|
  {
    if Hoistable(code, preds, b) && -0x8000_0000 <= JumpDelta(code[b]) + 1 < 0x8000_0000
    then WithJumpDelta(code[b], JumpDelta(code[b]) + 1)
    else code[b]
  }

  function Hoisted(code: seq<Instruction>, preds: seq<set<nat>>): (code': seq<Instruction>)
    requires |preds| == |code|
    ensures |code'| == |code|
  {
    seq(|code|, b requires 0 <= b < |code| => HoistedAt(code, preds, b))
  }

  // Retargeting a jump does not change what the instruction writes.
  lemma RetargetedWrites(i: Instruction, delta: int, r: int)
    requires -0x8000_0000 <= delta < 0x8000_0000
    ensures WritesReg(WithJumpDelta(i, delta), r) == WritesReg(i, r)
  {
  }

  // Jumps retargeted so far do not change whether a later loop qualifies.
  lemma HoistableLater(code: seq<Instruction>, current: seq<Instruction>, preds: seq<set<nat>>, b: nat)
    requires |code| == |current| == |preds| && b < |code|
    requires forall k :: b <= k < |code| ==> current[k] == code[k]
    requires forall k :: 0 <= k < b ==> current[k] == HoistedAt(code, preds, k)
    ensures Hoistable(current, preds, b) == Hoistable(code, preds, b)
  {
    forall k, r | 0 <= k < |code| ensures WritesReg(current[k], r) == WritesReg(code[k], r) {
      if current[k] != code[k] { RetargetedWrites(code[k], JumpDelta(code[k]) + 1, r); }
    }
    hide WritesReg, IsRelativeJump, JumpDelta;
    assert forall k :: 0 <= k < |code| ==> current[k].op == code[k].op;
    forall k | 0 <= k < |code| && code[k].op == LoadK ensures current[k] == code[k] {
      LoadIsNoJump(code, preds, k);
    }
  }

  lemma LoadIsNoJump(code: seq<Instruction>, preds: seq<set<nat>>, k: nat)
    requires k < |code| == |preds| && code[k].op == LoadK
    ensures HoistedAt(code, preds, k) == code[k]
  {
  }

  method Hoist(code: seq<Instruction>) returns (code': seq<Instruction>, changed: bool, ghost preds: seq<set<nat>>)
    ensures IsPredecessors(code, preds) && code' == Hoisted(code, preds) && (!changed ==> code' == code)
  {
    hide Hoistable, IsPredecessors, HoistedAt;
    var table := CollectPredecessors(code);
    preds := table;
    assert |preds| == |code| by { PredecessorsSize(code, preds); }
    code', changed := code, false;
    for b := 0 to |code|
      invariant |code'| == |code| && (!changed ==> code' == code)
      invariant forall k :: 0 <= k < b ==> code'[k] == HoistedAt(code, preds, k)
      invariant forall k :: b <= k < |code| ==> code'[k] == code[k]
    {
      HoistableLater(code, code', preds, b);
      HoistedCases(code, preds, b);
      if Hoistable(code', table, b) {
        var delta := JumpDelta(code'[b]) + 1;
        if -0x8000_0000 <= delta < 0x8000_0000 {
          code' := code'[b := WithJumpDelta(code'[b], delta)];
          changed := true;
        }
      }
    }
  }

  lemma PredecessorsSize(code: seq<Instruction>, preds: seq<set<nat>>)
    requires IsPredecessors(code, preds)
    ensures |preds| == |code|
  {
  }

  lemma HoistedCases(code: seq<Instruction>, preds: seq<set<nat>>, b: nat)
    requires b < |code| == |preds|
    ensures HoistedAt(code, preds, b) ==
            if Hoistable(code, preds, b) && -0x8000_0000 <= JumpDelta(code[b]) + 1 < 0x8000_0000
            then WithJumpDelta(code[b], JumpDelta(code[b]) + 1) else code[b]
  {
  }

  // ---- Loads that change nothing ----------------------------------------------------------------

  // Executing the load would only move the pc.
  predicate Idle(trusted: bool, f: Frame, i: Instruction, s: State) {
    ExecLoadK(trusted, f, i, s) == Go(s.(pc := s.pc + 1))
  }

  lemma {:induction false} FindStable(strings: seq<string>, more: seq<string>, x: string)
    requires strings <= more && x in strings
    ensures Find(more, x) == Find(strings, x)
    decreases |strings|
  {
    if strings[0] != x { FindStable(strings[1..], more[1..], x); }
  }

  lemma InternAgain(w: World, x: string)
    ensures Intern(Intern(w, x).1, x) == Intern(w, x)
  {
    hide Find;
    if x !in w.strings { NewlyFound(w.strings, x); }
  }

  // Loading a constant twice in a row is loading it once.
  lemma IdleAfterLoad(trusted: bool, f: Frame, i: Instruction, s: State)
    requires ExecLoadK(trusted, f, i, s).Go?
    ensures Idle(trusted, f, i, ExecLoadK(trusted, f, i, s).s)
  {
    hide Intern;
    if f.constants[i.b].Utf8Const? { InternAgain(s.world, f.constants[i.b].s); }
    var t := ExecLoadK(trusted, f, i, s).s;
    assert t.regs[i.a := t.regs[i.a]] == t.regs;
  }

  lemma {:induction false} NewlyFound(strings: seq<string>, x: string)
    requires x !in strings
    ensures Find(strings + [x], x) == |strings|
    decreases |strings|
  {
    if strings != [] {
      assert (strings + [x])[1..] == strings[1..] + [x];
      NewlyFound(strings[1..], x);
    }
  }

  predicate IsPlain(f: Frame, i: Instruction) { i.b < |f.constants| ==> !f.constants[i.b].Utf8Const? }

  lemma IdleKept(trusted: bool, f: Frame, i: Instruction, s: State, t: State)
    requires Idle(trusted, f, i, s) && |t.regs| == |s.regs| && i.a < |s.regs| && t.regs[i.a] == s.regs[i.a]
    requires IsPlain(f, i) || s.world.strings <= t.world.strings
    ensures Idle(trusted, f, i, t)
  {
    assert s.regs[i.a := s.regs[i.a]] == s.regs && t.regs[i.a := t.regs[i.a]] == t.regs;
    if f.constants[i.b].Utf8Const? {
      var x := f.constants[i.b].s;
      var (v, w) := Intern(s.world, x);
      assert w == s.world;
      assert x in s.world.strings;
      FindStable(s.world.strings, t.world.strings, x);
    }
    assert ExecLoadK(trusted, f, i, s).s.regs[i.a] == s.regs[i.a];
  }

  // ---- Runs -------------------------------------------------------------------------------------

  // Control enters h+1 .. b only from h .. b.
  ghost predicate SingleEntry(code: seq<Instruction>, h: int, b: int) {
    forall p, q :: 0 <= p < |code| && h < q <= b && Flows(code, p, q) ==> h <= p <= b
  }

  ghost predicate SideEntryFree(code: seq<Instruction>, preds: seq<set<nat>>)
    requires |preds| == |code|
  {
    forall b :: 0 <= b < |code| && Hoistable(code, preds, b) ==> SingleEntry(code, b + JumpDelta(code[b]), b)
  }

  // String constants at headers need an environment that keeps interned strings.
  ghost predicate HeadersStable(f: Frame, preds: seq<set<nat>>)
    requires |preds| == |f.code|
  {
    GrowsStrings(f.env) ||
    forall b :: 0 <= b < |f.code| && Hoistable(f.code, preds, b) ==>
      IsPlain(f, f.code[b + JumpDelta(f.code[b])])
  }

  // Inside a loop the load at its header has been done.
  ghost predicate Loaded(trusted: bool, f: Frame, preds: seq<set<nat>>, n: nat, s: State)
    requires |preds| == |f.code|
  {
    && |s.regs| == n && s.tries == []
    && forall b :: 0 <= b < |f.code| && Hoistable(f.code, preds, b) && b + JumpDelta(f.code[b]) < s.pc <= b ==>
         Idle(trusted, f, f.code[b + JumpDelta(f.code[b])], s)
  }

  lemma LoadStep(trusted: bool, f: Frame, s: State)
    requires InCode(f, s) && f.code[s.pc].op == LoadK && s.tries == []
    ensures StepOf(trusted, f, s) == Settle(ExecLoadK(trusted, f, f.code[s.pc], s))
    ensures StepOf(trusted, f, s).Next? ==>
              ExecLoadK(trusted, f, f.code[s.pc], s) == Go(StepOf(trusted, f, s).s)
  {
    hide ExecCompute, ExecBranch, ExecForeign, ExecString, ExecVarArg, ExecTry, ExecCall, ExecEnd;
  }

  lemma StepLoaded(trusted: bool, m: Module, fn: Function, f: Frame, preds: seq<set<nat>>, s: State)
    requires Carries(m, fn, f) && IsPredecessors(f.code, preds) && TryFree(f.code)
    requires SideEntryFree(f.code, preds) && HeadersStable(f, preds)
    requires Loaded(trusted, f, preds, fn.regCount, s) && InCode(f, s)
    ensures StepOf(trusted, f, s).Next? ==> Loaded(trusted, f, preds, fn.regCount, StepOf(trusted, f, s).s)
  {
    if StepOf(trusted, f, s).Next? {
      hide StepOf, Carries, Flows, Hoistable, ExecLoadK, IsPlain, InstructionOk;
      var t := StepOf(trusted, f, s).s;
      StepChanges(trusted, m, fn, f, s);
      StepFlows(trusted, m, fn, f, s);
      forall b | 0 <= b < |f.code| && Hoistable(f.code, preds, b) && b + JumpDelta(f.code[b]) < t.pc <= b
        ensures Idle(trusted, f, f.code[b + JumpDelta(f.code[b])], t)
      {
        assert SingleEntry(f.code, b + JumpDelta(f.code[b]), b);
        LoopKeepsLoad(trusted, m, fn, f, preds, s, b);
      }
    }
  }

  lemma LoopKeepsLoad(trusted: bool, m: Module, fn: Function, f: Frame, preds: seq<set<nat>>, s: State, b: nat)
    requires Carries(m, fn, f) && |preds| == |f.code| && TryFree(f.code) && HeadersStable(f, preds)
    requires Loaded(trusted, f, preds, fn.regCount, s) && InCode(f, s)
    requires b < |f.code| && Hoistable(f.code, preds, b) && b + JumpDelta(f.code[b]) <= s.pc <= b
    requires StepOf(trusted, f, s).Next?
    ensures Idle(trusted, f, f.code[b + JumpDelta(f.code[b])], StepOf(trusted, f, s).s)
  {
    hide StepOf, ExecLoadK, WritesReg, IsRelativeJump, JumpDelta, RegistersFit, TargetsFit, ReferencesFit;
    var h := b + JumpDelta(f.code[b]);
    var i, t := f.code[h], StepOf(trusted, f, s).s;
    if s.pc == h {
      LoadStep(trusted, f, s);
      IdleAfterLoad(trusted, f, i, s);
    } else {
      StepChanges(trusted, m, fn, f, s);
      assert InstructionOk(m, fn, i, h, |f.code|);
      LoadRegister(m, fn, i, h, |f.code|);
      IdleKept(trusted, f, i, s, t);
    }
  }

  lemma LoadRegister(m: Module, fn: Function, i: Instruction, pc: int, size: nat)
    requires InstructionOk(m, fn, i, pc, size) && i.op == LoadK
    ensures i.a < fn.regCount
  {
  }

  // ---- The runs correspond ------------------------------------------------------------------------

  // The new machine is where the old one is, or already past the load the old one stands on.
  ghost predicate Ahead(trusted: bool, f: Frame, preds: seq<set<nat>>, n: nat, t: State, u: State)
    requires |preds| == |f.code|
  {
    && Loaded(trusted, f, preds, n, u)
    && (t == u || (InCode(f, u) && f.code[u.pc].op == LoadK && StepOf(trusted, f, u) == Next(t)))
  }

  // The step of a retargeted back edge: elsewhere like the old one, at the header one further.
  lemma BackEdgeStep(trusted: bool, m: Module, fn: Function, f: Frame, f': Frame, preds: seq<set<nat>>, s: State)
    requires Carries(m, fn, f) && IsPredecessors(f.code, preds) && f' == f.(code := Hoisted(f.code, preds))
    requires InCode(f, s) && |s.regs| == fn.regCount && f'.code[s.pc] != f.code[s.pc]
    ensures Hoistable(f.code, preds, s.pc)
    ensures StepOf(trusted, f, s).Next? && StepOf(trusted, f', s).Next?
    ensures var h := s.pc + JumpDelta(f.code[s.pc]);
            var v := StepOf(trusted, f, s).s;
            StepOf(trusted, f', s).s == v || (v.pc == h && StepOf(trusted, f', s).s == v.(pc := h + 1))
  {
    hide StepOf, Carries, InstructionOk, Branch, BranchRegsOk, IsRelativeJump, JumpDelta, WithJumpDelta, WritesReg;
    var i, i' := f.code[s.pc], f'.code[s.pc];
    assert i' == HoistedAt(f.code, preds, s.pc);
    CarriedJump(m, fn, f, s.pc);
    JumpStep(trusted, m, fn, f, s);
    BranchRetargeted(i, i', s.regs);
    RetargetedOk(m, fn, i, i', s.pc, |f.code|);
    JumpStep(trusted, m, fn, f', s);
  }

  lemma CarriedJump(m: Module, fn: Function, f: Frame, p: nat)
    requires Carries(m, fn, f) && p < |f.code|
    ensures InstructionOk(m, fn, f.code[p], p, |f.code|)
  {
  }

  lemma RetargetedOk(m: Module, fn: Function, i: Instruction, i': Instruction, pc: int, size: nat)
    requires InstructionOk(m, fn, i, pc, size) && IsRelativeJump(i.op)
    requires -0x8000_0000 <= JumpDelta(i') < 0x8000_0000 && i' == WithJumpDelta(i, JumpDelta(i'))
    requires 0 <= pc + JumpDelta(i') < size
    ensures InstructionOk(m, fn, i', pc, size)
  {
    hide IsBound, IsSymbol, AcceptsCount, WindowFits;
  }

  lemma LevelMatch(
      trusted: bool, m: Module, fn: Function, f: Frame, f': Frame, preds: seq<set<nat>>,
      rel: (State, State) -> bool, s: State)
    requires Carries(m, fn, f) && IsPredecessors(f.code, preds) && TryFree(f.code)
    requires SideEntryFree(f.code, preds) && HeadersStable(f, preds)
    requires f' == f.(code := Hoisted(f.code, preds)) && Loaded(trusted, f, preds, fn.regCount, s)
    requires forall x, y :: rel(x, y) <==> Ahead(trusted, f, preds, fn.regCount, x, y)
    ensures Matched(Activation(trusted, f'), Activation(trusted, f), rel, s, s)
  {
    hide StepOf, Carries, IsPredecessors, SideEntryFree, HeadersStable, Loaded, Hoistable, HoistedAt;
    PredecessorsSize(f.code, preds);
    var old_ := Activation(trusted, f);
    ResultOfStep(old_, s);
    if InCode(f, s) {
      StepLoaded(trusted, m, fn, f, preds, s);
      if f'.code[s.pc] == f.code[s.pc] {
        KeptStep(trusted, m, fn, f, f', s);
        if StepOf(trusted, f, s).Next? {
          var t := StepOf(trusted, f, s).s;
          assert Run(old_, s, 1) == Running(t);
          assert rel(t, t);
        }
      } else {
        LoadedSize(trusted, f, preds, fn.regCount, s);
        BackEdgeStep(trusted, m, fn, f, f', preds, s);
        var v, t := StepOf(trusted, f, s).s, StepOf(trusted, f', s).s;
        assert Run(old_, s, 1) == Running(v);
        if t != v { HeaderLoad(trusted, m, fn, f, preds, s); }
        assert rel(t, v);
      }
    }
  }

  lemma LoadedSize(trusted: bool, f: Frame, preds: seq<set<nat>>, n: nat, s: State)
    requires |preds| == |f.code| && Loaded(trusted, f, preds, n, s)
    ensures |s.regs| == n && s.tries == []
  {
  }

  // Back at the header, the load the old machine repeats changes nothing.
  lemma HeaderLoad(trusted: bool, m: Module, fn: Function, f: Frame, preds: seq<set<nat>>, s: State)
    requires Carries(m, fn, f) && |preds| == |f.code| && TryFree(f.code) && HeadersStable(f, preds)
    requires Loaded(trusted, f, preds, fn.regCount, s) && InCode(f, s) && Hoistable(f.code, preds, s.pc)
    requires StepOf(trusted, f, s).Next? && StepOf(trusted, f, s).s.pc == s.pc + JumpDelta(f.code[s.pc])
    ensures var v := StepOf(trusted, f, s).s;
            InCode(f, v) && f.code[v.pc].op == LoadK && StepOf(trusted, f, v) == Next(v.(pc := v.pc + 1))
  {
    hide StepOf, ExecLoadK, WritesReg, IsRelativeJump, JumpDelta, RegistersFit, TargetsFit, ReferencesFit;
    var v := StepOf(trusted, f, s).s;
    StepChanges(trusted, m, fn, f, s);
    LoopKeepsLoad(trusted, m, fn, f, preds, s, s.pc);
    LoadStep(trusted, f, v);
  }

  lemma AheadMatch(
      trusted: bool, m: Module, fn: Function, f: Frame, f': Frame, preds: seq<set<nat>>,
      rel: (State, State) -> bool, t: State, u: State)
    requires Carries(m, fn, f) && IsPredecessors(f.code, preds) && TryFree(f.code)
    requires SideEntryFree(f.code, preds) && HeadersStable(f, preds)
    requires f' == f.(code := Hoisted(f.code, preds)) && Ahead(trusted, f, preds, fn.regCount, t, u)
    requires forall x, y :: rel(x, y) <==> Ahead(trusted, f, preds, fn.regCount, x, y)
    ensures Matched(Activation(trusted, f'), Activation(trusted, f), rel, t, u)
  {
    hide StepOf, Carries, IsPredecessors, SideEntryFree, HeadersStable, Loaded;
    var old_, new_ := Activation(trusted, f), Activation(trusted, f');
    if t == u {
      LevelMatch(trusted, m, fn, f, f', preds, rel, t);
    } else {
      StepLoaded(trusted, m, fn, f, preds, u);
      LevelMatch(trusted, m, fn, f, f', preds, rel, t);
      ResultOfStep(old_, u);
      if new_.running(t) && new_.step(t).Next? {
        var k: nat :| k > 0 && Run(old_, t, k).Running? && rel(new_.step(t).s, Run(old_, t, k).s);
        assert Run(old_, u, k + 1) == Run(old_, t, k);
      }
    }
  }

  // With single-entry loops and stable headers, every run is preserved, whichever and however
  // many back edges were retargeted.
  lemma HoistedRun(trusted: bool, m: Module, fn: Function, f: Frame, f': Frame, preds: seq<set<nat>>, s: State)
    requires Carries(m, fn, f) && IsPredecessors(f.code, preds) && TryFree(f.code)
    requires SideEntryFree(f.code, preds) && HeadersStable(f, preds)
    requires f' == f.(code := Hoisted(f.code, preds))
    requires s.pc == 0 && |s.regs| == fn.regCount && s.tries == []
    ensures Result(Activation(trusted, f'), s) == Result(Activation(trusted, f), s)
  {
    var rel := (t: State, u: State) => Ahead(trusted, f, preds, fn.regCount, t, u);
    forall t, u | rel(t, u) ensures Matched(Activation(trusted, f'), Activation(trusted, f), rel, t, u) {
      AheadMatch(trusted, m, fn, f, f', preds, rel, t, u);
    }
    assert Loaded(trusted, f, preds, fn.regCount, s);
    SimulatedResult(Activation(trusted, f'), Activation(trusted, f), rel, s, s);
  }

  // ---- The pass -----------------------------------------------------------------------------------

  lemma HoistedOk(m: Module, fn: Function, code: seq<Instruction>, preds: seq<set<nat>>)
    requires CodeOk(m, fn, code) && |preds| == |code|
    ensures CodeOk(m, fn, Hoisted(code, preds))
  {
    hide InstructionOk, IsRelativeJump, JumpDelta, WithJumpDelta, WritesReg;
    var code' := Hoisted(code, preds);
    forall b | 0 <= b < |code'| ensures InstructionOk(m, fn, code'[b], b, |code'|) {
      assert code'[b] == HoistedAt(code, preds, b);
      assert InstructionOk(m, fn, code[b], b, |code|);
      if code'[b] != code[b] { RetargetedOk(m, fn, code[b], code'[b], b, |code|); }
    }
  }

  // Alike in every environment that keeps interned strings.
  ghost predicate SameWithStrings(trusted: bool, m: Module, m': Module, fi: nat)
    requires fi < |m.functions| && fi < |m'.functions|
  {
    forall closure, varargs, env, args, w :: GrowsStrings(env) ==>
      Result(Activation(trusted, FrameOf(m, fi, closure, varargs, env)),
             EntryState(m.functions[fi].regCount, args, w))
      == Result(Activation(trusted, FrameOf(m', fi, closure, varargs, env)),
                EntryState(m'.functions[fi].regCount, args, w))
  }

  lemma HoistedFunction(trusted: bool, m: Module, m': Module, fi: nat, preds: seq<set<nat>>)
    requires Accepted(m) && fi < |m.functions| && TryFree(m.functions[fi].Code())
    requires IsPredecessors(m.functions[fi].Code(), preds) && |preds| == |m.functions[fi].Code()|
    requires SideEntryFree(m.functions[fi].Code(), preds)
    requires m' == m.(functions := m'.functions) && |m'.functions| == |m.functions|
    requires m'.functions[fi] == m.functions[fi].(blocks := m'.functions[fi].blocks)
    requires m'.functions[fi].Code() == Hoisted(m.functions[fi].Code(), preds)
    ensures SameWithStrings(trusted, m, m', fi)
  {
    hide SideEntryFree, IsPredecessors, HoistedAt;
    var fn := m.functions[fi];
    assert FunctionOk(m, fn);
    forall closure, varargs, env, args, w | GrowsStrings(env)
      ensures Result(Activation(trusted, FrameOf(m, fi, closure, varargs, env)), EntryState(fn.regCount, args, w))
           == Result(Activation(trusted, FrameOf(m', fi, closure, varargs, env)), EntryState(fn.regCount, args, w))
    {
      HoistedRun(trusted, m, fn, FrameOf(m, fi, closure, varargs, env), FrameOf(m', fi, closure, varargs, env), preds,
                 EntryState(fn.regCount, args, w));
    }
  }

  // No loop reloads a string.
  ghost predicate HeadersPlain(code: seq<Instruction>, constants: seq<Constant>, preds: seq<set<nat>>)
    requires |preds| == |code|
  {
    forall b :: 0 <= b < |code| && Hoistable(code, preds, b) ==>
      var i := code[b + JumpDelta(code[b])]; i.b < |constants| ==> !constants[i.b].Utf8Const?
  }

  // Then the environment need not keep strings.
  lemma HoistedPlainFunction(trusted: bool, m: Module, m': Module, fi: nat, preds: seq<set<nat>>)
    requires Accepted(m) && fi < |m.functions| && TryFree(m.functions[fi].Code())
    requires IsPredecessors(m.functions[fi].Code(), preds) && |preds| == |m.functions[fi].Code()|
    requires SideEntryFree(m.functions[fi].Code(), preds) && HeadersPlain(m.functions[fi].Code(), m.constants, preds)
    requires m' == m.(functions := m'.functions) && |m'.functions| == |m.functions|
    requires m'.functions[fi] == m.functions[fi].(blocks := m'.functions[fi].blocks)
    requires m'.functions[fi].Code() == Hoisted(m.functions[fi].Code(), preds)
    ensures SameFunction(trusted, m, m', fi)
  {
    hide SideEntryFree, IsPredecessors, HoistedAt, Hoistable;
    var fn := m.functions[fi];
    AcceptedFunction(m, fi);
    forall closure, varargs, env, args, w
      ensures Result(Activation(trusted, FrameOf(m, fi, closure, varargs, env)), EntryState(fn.regCount, args, w))
           == Result(Activation(trusted, FrameOf(m', fi, closure, varargs, env)), EntryState(fn.regCount, args, w))
    {
      HoistedRun(trusted, m, fn, FrameOf(m, fi, closure, varargs, env), FrameOf(m', fi, closure, varargs, env), preds,
                 EntryState(fn.regCount, args, w));
    }
  }

  // Where interned strings are kept, the program means what it meant, whatever the headers load.
  lemma HoistedMeaning(trusted: bool, m: Module, m': Module, fi: nat, preds: seq<set<nat>>)
    requires Accepted(m) && Accepted(m') && Recoded(m, m', fi) && m'.constants == m.constants
    requires m'.functions[fi].regCount == m.functions[fi].regCount
    requires IsPredecessors(m.functions[fi].Code(), preds) && |preds| == |m.functions[fi].Code()|
    requires TryFree(m.functions[fi].Code()) && SideEntryFree(m.functions[fi].Code(), preds)
    requires m'.functions[fi].Code() == Hoisted(m.functions[fi].Code(), preds)
    ensures SteadyMeaning(trusted, m, m')
  {
    hide Accepted, TryFree, SideEntryFree, IsPredecessors, Hoisted, GrowsStrings, SameIn, SameWithStrings, Execute,
         Meaning, EnvAt;
    HoistedFunction(trusted, m, m', fi, preds);
    forall env | GrowsStrings(env) ensures SameIn(trusted, m, m', fi, env) {
      SteadyIn(trusted, m, m', fi, env);
    }
    forall base, k: nat, args, closure, w | GrowsStrings(base)
      ensures Meaning(trusted, m, base, k, args, closure, w) == Meaning(trusted, m', base, k, args, closure, w)
    {
      forall d: nat { NestedGrows(trusted, m, base, d); }
      forall d: nat
        ensures Execute(trusted, m, base, d, k, args, closure, w) == Execute(trusted, m', base, d, k, args, closure, w)
      {
        RecodedExecutions(trusted, m, m', fi, base, e => GrowsStrings(e), d, k, args, closure, w);
      }
      SameExecutionsSameMeaning(trusted, m, m', base, k, args, closure, w);
    }
  }

  lemma SteadyIn(trusted: bool, m: Module, m': Module, fi: nat, env: Env)
    requires fi < |m.functions| && fi < |m'.functions| && SameWithStrings(trusted, m, m', fi) && GrowsStrings(env)
    ensures SameIn(trusted, m, m', fi, env)
  {
    hide Activation, Admit, EntryState, GrowsStrings;
  }

  method RunLicmHeaderLoadPass(ws: Workspace, fi: nat) returns (changed: bool, ghost preds: seq<set<nat>>)
    requires ws.Valid() && Accepted(ws.View()) && fi < |ws.functions|
    modifies ws`functions
    ensures ws.Valid() && Accepted(ws.View()) && Recoded(old(ws.View()), ws.View(), fi)
    ensures ws.functions[fi].regCount == old(ws.functions)[fi].regCount
    ensures IsPredecessors(old(ws.functions)[fi].Code(), preds) && |preds| == |old(ws.functions)[fi].Code()|
    ensures !TryFree(old(ws.functions)[fi].Code()) ==> ws.functions == old(ws.functions)
    ensures TryFree(old(ws.functions)[fi].Code()) ==>
              ws.functions[fi].Code() == Hoisted(old(ws.functions)[fi].Code(), preds)
    ensures SideEntryFree(old(ws.functions)[fi].Code(), preds) ==>
              forall trusted :: SameWithStrings(trusted, old(ws.View()), ws.View(), fi)
    ensures SideEntryFree(old(ws.functions)[fi].Code(), preds)
              && HeadersPlain(old(ws.functions)[fi].Code(), old(ws.constants), preds) ==>
              forall trusted :: SameFunction(trusted, old(ws.View()), ws.View(), fi)
  {
    hide SideEntryFree, HoistedAt, Accepted, HeadersPlain;
    ghost var m := ws.View();
    assert FunctionOk(m, m.functions[fi]) by { AcceptedFunction(m, fi); }
    var code;
    code, changed, preds := Hoist(ws.functions[fi].Code());
    PredecessorsSize(m.functions[fi].Code(), preds);
    if !TryFree(ws.functions[fi].Code()) {
      changed := false;
    } else if changed {
      HoistedOk(m, m.functions[fi], m.functions[fi].Code(), preds);
      ws.Install(fi, code);
      InstalledOk(m, ws.View(), fi, code);
      RecodedAccepted(m, ws.View(), fi);
    }
    if TryFree(m.functions[fi].Code()) && SideEntryFree(m.functions[fi].Code(), preds) {
      forall trusted ensures SameWithStrings(trusted, m, ws.View(), fi) {
        HoistedFunction(trusted, m, ws.View(), fi, preds);
      }
      if HeadersPlain(m.functions[fi].Code(), m.constants, preds) {
        forall trusted ensures SameFunction(trusted, m, ws.View(), fi) {
          HoistedPlainFunction(trusted, m, ws.View(), fi, preds);
        }
      }
    }
  }

  // ---- A loop with a side entry ---------------------------------------------------------------------

  // The first instruction may jump into the loop 2..3 behind its header.
  function SideEntered(): seq<Instruction> {
    [Make(JmpIfNotZero, 1, 3, 0), NOP, Make(LoadK, 0, 0, 0), Make(DecJnz, 1, 0xFFFF_FFFF, 0), Make(Ret, 0, 0, 0)]
  }

  // The verifier accepts that code.
  lemma SideEnteredOk(m: Module, fn: Function)
    requires fn.regCount > 1 && m.constants != []
    ensures CodeOk(m, fn, SideEntered())
  {
  }

  lemma SideEntryFlows()
    ensures forall p :: 0 <= p < 5 ==> (Flows(SideEntered(), p, 2) <==> p == 1 || p == 3)
    ensures Flows(SideEntered(), 0, 3)
  {
  }

  lemma HeaderPredecessors(preds: seq<set<nat>>)
    requires IsPredecessors(SideEntered(), preds) && |preds| == 5
    ensures preds[2] == {1, 3}
  {
    hide Flows;
    var code := SideEntered();
    SideEntryFlows();
    forall p: nat ensures p in preds[2] <==> p == 1 || p == 3 {
      assert p in preds[2] <==> p < |code| && Flows(code, p, 2);
    }
  }

  lemma OnlyBackEdge(preds: seq<set<nat>>)
    requires |preds| == 5 && preds[2] == {1, 3}
    ensures forall b :: 0 <= b < 5 ==> (Hoistable(SideEntered(), preds, b) <==> b == 3)
    ensures JumpDelta(SideEntered()[3]) == -1
  {
  }

  lemma SideEntryHoisted(preds: seq<set<nat>>)
    requires IsPredecessors(SideEntered(), preds) && |preds| == 5
    ensures Hoistable(SideEntered(), preds, 3)
    ensures Hoisted(SideEntered(), preds)[3] == Make(DecJnz, 1, 0, 0)
    ensures !SideEntryFree(SideEntered(), preds)
    ensures forall k :: 0 <= k < 5 && k != 3 ==> Hoisted(SideEntered(), preds)[k] == SideEntered()[k]
  {
    hide Flows, IsPredecessors, Hoistable;
    var code := SideEntered();
    HeaderPredecessors(preds);
    OnlyBackEdge(preds);
    assert !SingleEntry(code, 3 + JumpDelta(code[3]), 3) by { SideEntryFlows(); }
  }

  // Entered from the side with two rounds to go, the loop returns its constant; after the
  // pass it never loads it and returns the argument.
  lemma SideEntryMatters(trusted: bool, f: Frame, preds: seq<set<nat>>, w: World)
    requires f.code == SideEntered() && f.constants == [IntConst(7)] && f.returnType == AnyType
    requires IsPredecessors(f.code, preds) && |preds| == 5
    ensures !SideEntryFree(f.code, preds)
    ensures Result(Activation(trusted, f), EntryState(2, [NULL, IntValue(2)], w)) == Returned(IntValue(7), w)
    ensures Result(Activation(trusted, f.(code := Hoisted(f.code, preds))), EntryState(2, [NULL, IntValue(2)], w))
         == Returned(NULL, w)
  {
    var g := f.(code := Hoisted(f.code, preds));
    SideEntryHoisted(preds);
    SideEntryRuns(trusted, f, g, w);
  }

  // The counting jump at the end of the loop, when the counter is 2 or 1.
  lemma CountDown(trusted: bool, f: Frame, x: Value, n: I64, w: World, delta: int)
    requires |f.code| == 5 && 1 <= n <= 2 && -1 <= delta <= 0
    requires f.code[3] == WithJumpDelta(SideEntered()[3], delta)
    ensures Result(Activation(trusted, f), State(3, [x, IntValue(n)], [], w))
         == Result(Activation(trusted, f), State(if n == 2 then 3 + delta else 4, [x, IntValue(n - 1)], [], w))
  {
    hide StepOf;
    var s := State(3, [x, IntValue(n)], [], w);
    assert s.regs[1 := IntValue(n - 1)] == [x, IntValue(n - 1)];
    BranchStep(trusted, f, s);
    ResultOfStep(Activation(trusted, f), s);
  }

  lemma ReturnFirst(trusted: bool, f: Frame, x: Value, w: World)
    requires |f.code| == 5 && f.code[4] == SideEntered()[4] && f.returnType == AnyType
    ensures Result(Activation(trusted, f), State(4, [x, IntValue(0)], [], w)) == Returned(x, w)
  {
    hide StepOf;
    ReturnStep(trusted, f, State(4, [x, IntValue(0)], [], w));
    ResultOfStep(Activation(trusted, f), State(4, [x, IntValue(0)], [], w));
  }

  lemma SideEntryTaken(trusted: bool, f: Frame, w: World)
    requires |f.code| == 5 && f.code[0] == SideEntered()[0]
    ensures Result(Activation(trusted, f), EntryState(2, [NULL, IntValue(2)], w))
         == Result(Activation(trusted, f), State(3, [NULL, IntValue(2)], [], w))
  {
    hide StepOf;
    var s := EntryState(2, [NULL, IntValue(2)], w);
    assert s.regs == [NULL, IntValue(2)];
    BranchStep(trusted, f, s);
    ResultOfStep(Activation(trusted, f), s);
  }

  lemma HeaderLoadsSeven(trusted: bool, f: Frame, w: World)
    requires |f.code| == 5 && f.code[2] == SideEntered()[2] && f.constants == [IntConst(7)]
    ensures Result(Activation(trusted, f), State(2, [NULL, IntValue(1)], [], w))
         == Result(Activation(trusted, f), State(3, [IntValue(7), IntValue(1)], [], w))
  {
    hide StepOf;
    var s := State(2, [NULL, IntValue(1)], [], w);
    LoadIntStep(trusted, f, s, 0, 7);
    assert s.regs[0 := IntValue(7)] == [IntValue(7), IntValue(1)];
    ResultOfStep(Activation(trusted, f), s);
  }

  lemma SideEntryRuns(trusted: bool, f: Frame, g: Frame, w: World)
    requires f.code == SideEntered() && f.constants == [IntConst(7)] && f.returnType == AnyType
    requires g == f.(code := g.code) && g.code == f.code[3 := Make(DecJnz, 1, 0, 0)]
    ensures Result(Activation(trusted, f), EntryState(2, [NULL, IntValue(2)], w)) == Returned(IntValue(7), w)
    ensures Result(Activation(trusted, g), EntryState(2, [NULL, IntValue(2)], w)) == Returned(NULL, w)
  {
    hide Activation, EntryState;
    SideEntryTaken(trusted, f, w);
    SideEntryTaken(trusted, g, w);
    // The old code goes round through the header.
    CountDown(trusted, f, NULL, 2, w, -1);
    HeaderLoadsSeven(trusted, f, w);
    CountDown(trusted, f, IntValue(7), 1, w, -1);
    ReturnFirst(trusted, f, IntValue(7), w);
    // The new code goes round without it.
    CountDown(trusted, g, NULL, 2, w, 0);
    CountDown(trusted, g, NULL, 1, w, 0);
    ReturnFirst(trusted, g, NULL, w);
  }
}
