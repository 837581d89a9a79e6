/** One inlined call: the moves, the shifted body and the result move do what the call does. */
module CallSites {
  import opened Int64
  import opened Bytecode
  import opened Machines
  import opened Interpreter
  import opened Steps
  import opened Runs
  import opened Verifier
  import opened TrustedMode
  import opened Effects
  import opened Inline
  import opened Embedding
  import opened Blocks

  // ---- Which callees can be inlined faithfully ---------------------------------------------

  // d[p] are registers that hold an argument or have been written when control is at p; no
  // instruction reads another.
  ghost predicate Assigned(code: seq<Instruction>, params: nat, d: seq<set<int>>) {
    && |d| == |code|
    && (code != [] ==> forall r :: r in d[0] ==> 0 <= r < params)
    && (forall p :: 0 <= p < |code| ==> Reads(code[p]) <= d[p])
    && forall p, q :: 0 <= p < |code| && 0 <= q < |code| && Flows(code, p, q) ==>
         forall r :: r in d[q] ==> r in d[p] || WritesReg(code[p], r)
  }

  // A function that reads no register it was not given or has not written.
  ghost predicate SelfContained(f: Function) {
    exists d :: Assigned(f.Code(), f.paramCount, d)
  }

  // ---- The moves before the body -------------------------------------------------------------

  // Registers after the first k argument moves.
  function Moved(regs: seq<Value>, i: Instruction, base: nat, k: nat): (r: seq<Value>)
    requires i.a + k < base && base + k <= |regs|
    ensures |r| == |regs|
    ensures forall q :: 0 <= q < |regs| && !(base <= q < base + k) ==> r[q] == regs[q]
    ensures forall q :: base <= q < base + k ==> r[q] == regs[i.a + 1 + q - base]
  {
    if k == 0 then regs else Moved(regs, i, base, k - 1)[base + k - 1 := regs[i.a + k]]
  }

  lemma ArgMove(i: Instruction, base: nat, k: nat)
    requires k < i.c && i.a + i.c < base && base + i.c <= 0x1_0000
    ensures ArgMoves(i, base)[k] == Make(Mov, base + k, i.a + 1 + k, 0)
  {
  }

  lemma {:induction false} MovesRun(trusted: bool, f: Frame, i: Instruction, base: nat, t: State, k: nat)
    requires k <= i.c && i.a + i.c < base && base + i.c <= |t.regs| <= 0x1_0000
    requires 0 <= t.pc && t.pc + i.c <= |f.code|
    requires forall j :: 0 <= j < i.c ==> f.code[t.pc + j] == ArgMoves(i, base)[j]
    ensures Run(Activation(trusted, f), t, k) == Running(t.(pc := t.pc + k, regs := Moved(t.regs, i, base, k)))
    decreases k
  {
    hide StepOf, AddU32;
    if k == 0 {
      assert t.(pc := t.pc + 0, regs := Moved(t.regs, i, base, 0)) == t;
    } else {
      MovesRun(trusted, f, i, base, t, k - 1);
      var u := t.(pc := t.pc + (k - 1), regs := Moved(t.regs, i, base, k - 1));
      assert f.code[t.pc + (k - 1)] == ArgMoves(i, base)[k - 1];
      ArgMove(i, base, k - 1);
      assert ArgMoves(i, base)[k - 1] == Make(Mov, base + k - 1, i.a + k, 0);
      MoveStep(trusted, f, u, base + k - 1, i.a + k);
      RunSplit(Activation(trusted, f), t, k - 1, 1);
      assert Run(Activation(trusted, f), u, 1) == Running(Activation(trusted, f).step(u).s);
    }
  }

  // ---- The body ---------------------------------------------------------------------------------

  // The callee stands at u, the caller at v inside the expansion whose body starts at `at`.
  ghost predicate InBody(
      code: seq<Instruction>, d: seq<set<int>>, base: nat, n: nat, at: nat, around: seq<Value>, u: State, v: State)
  {
    && |d| == |code| && 0 <= u.pc < |code| && v.pc == at + u.pc
    && Mirrors(d[u.pc], base, n, u, v) && SameAround(base, n, around, v.regs)
  }

  ghost predicate BodyAt(code: seq<Instruction>, base: nat, at: nat, code': seq<Instruction>) {
    && code != [] && at + |code| <= |code'|
    && forall k :: 0 <= k < |code| - 1 ==> code'[at + k] == RemapRegs(code[k], base)
  }

  // Everything an inlined call of `fn` assumes.
  ghost predicate Setting(m: Module, fn: Function, f: Frame, f': Frame, d: seq<set<int>>, base: nat, at: nat) {
    && Carries(m, fn, f) && f.code == fn.Code() && f'.constants == m.constants && f.returnType == AnyType
    && InlineBody(f.code, fn.regCount) && Assigned(f.code, fn.paramCount, d) && BodyAt(f.code, base, at, f'.code)
    && base + fn.regCount <= 0x1_0000
  }

  lemma BodyInstruction(m: Module, fn: Function, f: Frame, p: nat)
    requires Carries(m, fn, f) && InlineBody(f.code, fn.regCount) && p < |f.code|
    ensures InstructionOk(m, fn, f.code[p], p, |f.code|) && IsInlineSafe(f.code[p].op) && !IsTryOpcode(f.code[p].op)
    ensures f.code[p].op == Ret <==> p == |f.code| - 1
    ensures IsRelativeJump(f.code[p].op) ==> 0 <= p + JumpDelta(f.code[p]) < |f.code|
  {
  }

  lemma FlowStays(m: Module, fn: Function, f: Frame, p: nat, q: int)
    requires Carries(m, fn, f) && InlineBody(f.code, fn.regCount) && p < |f.code| - 1 && Flows(f.code, p, q)
    ensures 0 <= q < |f.code|
  {
    BodyInstruction(m, fn, f, p);
  }

  lemma BodyPlace(m: Module, fn: Function, f: Frame, f': Frame, d: seq<set<int>>, base: nat, at: nat, p: nat)
    requires Setting(m, fn, f, f', d, base, at) && p < |f.code| - 1
    ensures InstructionOk(m, fn, f.code[p], p, |f.code|) && IsInlineSafe(f.code[p].op) && !IsTryOpcode(f.code[p].op)
    ensures f.code[p].op != Ret && |d| == |f.code| && Reads(f.code[p]) <= d[p] && at + |f.code| <= |f'.code|
    ensures f'.code[at + p] == RemapRegs(f.code[p], base) && f.constants == m.constants
    ensures IsRelativeJump(f.code[p].op) ==> 0 <= at + p + JumpDelta(f.code[p]) < |f'.code|
    ensures forall q :: Flows(f.code, p, q) ==>
              0 <= q < |f.code| && forall r :: r in d[q] ==> r in d[p] || WritesReg(f.code[p], r)
  {
    BodyInstruction(m, fn, f, p);
    forall q | Flows(f.code, p, q) ensures 0 <= q < |f.code| { FlowStays(m, fn, f, p, q); }
    hide InstructionOk, Carries, InlineBody, RemapRegs, Reads, WritesReg, IsInlineSafe, Flows, JumpDelta;
  }

  lemma BodyStep(
      trusted: bool, m: Module, fn: Function, f: Frame, f': Frame, d: seq<set<int>>, base: nat, at: nat,
      around: seq<Value>, u: State, v: State)
    requires Setting(m, fn, f, f', d, base, at)
    requires InBody(f.code, d, base, fn.regCount, at, around, u, v) && u.pc < |f.code| - 1
    ensures InCode(f, u) && InCode(f', v)
    ensures match StepOf(trusted, f, u)
            case Done(o) => o.Thrown? && StepOf(trusted, f', v) == Done(o)
            case Next(t) =>
              && StepOf(trusted, f', v).Next?
              && InBody(f.code, d, base, fn.regCount, at, around, t, StepOf(trusted, f', v).s)
  {
    hide StepOf, Mirrors, SameAround, InlineBody, Carries, Reads, WritesReg, IsInlineSafe, RemapRegs, InstructionOk,
         IsRelativeJump, IsTryOpcode, JumpDelta, BodyAt, Flows;
    var p := u.pc;
    BodyPlace(m, fn, f, f', d, base, at, p);
    ShiftedStep(trusted, m, fn, f, f', base, d[p], u, v);
    if StepOf(trusted, f, u).Next? {
      var t, t' := StepOf(trusted, f, u).s, StepOf(trusted, f', v).s;
      MirrorsTries(d[p], base, fn.regCount, u, v);
      StepFlows(trusted, m, fn, f, u);
      assert Flows(f.code, p, t.pc);
      FewerMirrored(d[p] + (set r: int | 0 <= r < fn.regCount && WritesReg(f.code[p], r)), d[t.pc],
                    base, fn.regCount, t, t');
      SameAroundTransitive(base, fn.regCount, around, v.regs, t'.regs);
    }
  }

  lemma MirrorsTries(d: set<int>, base: nat, n: nat, u: State, v: State)
    requires Mirrors(d, base, n, u, v)
    ensures u.tries == v.tries == [] && |u.regs| == n
  {
  }

  lemma FewerMirrored(d: set<int>, d': set<int>, base: nat, n: nat, u: State, v: State)
    requires Mirrors(d, base, n, u, v) && forall r :: r in d' && 0 <= r < n ==> r in d
    ensures Mirrors(d', base, n, u, v)
  {
  }

  lemma SameAroundTransitive(base: nat, n: nat, x: seq<Value>, y: seq<Value>, z: seq<Value>)
    requires SameAround(base, n, x, y) && SameAround(base, n, y, z)
    ensures SameAround(base, n, x, z)
  {
  }

  lemma BodyReturns(
      trusted: bool, m: Module, fn: Function, f: Frame, f': Frame, d: seq<set<int>>, base: nat, at: nat,
      around: seq<Value>, u: State, v: State)
    requires Setting(m, fn, f, f', d, base, at)
    requires InBody(f.code, d, base, fn.regCount, at, around, u, v) && u.pc == |f.code| - 1
    ensures var r := f.code[u.pc].a;
            && r < fn.regCount && base + r < |v.regs| && v.world == u.world
            && StepOf(trusted, f, u) == Done(Returned(v.regs[base + r], u.world))
  {
    BodyInstruction(m, fn, f, u.pc);
    assert f.code[u.pc].a in Reads(f.code[u.pc]);
    assert Reads(f.code[u.pc]) <= d[u.pc];
    hide ExecCompute, ExecBranch, ExecTry, ExecCall, ExecForeign, ExecVarArg, ExecString, ExecLoadK, Reads, RemapRegs,
         IsInlineSafe;
  }

  // The inlined body ends the way the callee does; `v'` is the caller in front of the result
  // move.
  lemma BodyRuns(
      trusted: bool, m: Module, fn: Function, f: Frame, f': Frame, d: seq<set<int>>, base: nat, at: nat,
      around: seq<Value>, u: State, v: State) returns (k: nat, v': State)
    requires Setting(m, fn, f, f', d, base, at) && InBody(f.code, d, base, fn.regCount, at, around, u, v)
    ensures match Result(Activation(trusted, f), u)
            case Returned(x, w) =>
              && Run(Activation(trusted, f'), v, k) == Running(v') && v'.pc == at + |f.code| - 1
              && v'.tries == [] && v'.world == w && SameAround(base, fn.regCount, around, v'.regs)
              && var r := f.code[|f.code| - 1].a; base + r < |v'.regs| && v'.regs[base + r] == x
            case Thrown(_, _) => Result(Activation(trusted, f'), v) == Result(Activation(trusted, f), u)
            case Diverges => Result(Activation(trusted, f'), v) == Diverges
            case _ => false
  {
    hide StepOf, Setting, Mirrors, SameAround;
    var n, c, c' := fn.regCount, Activation(trusted, f), Activation(trusted, f');
    var rel := (x: State, y: State) => InBody(f.code, d, base, n, at, around, x, y);
    BodyAccompanied(trusted, m, fn, f, f', d, base, at, around);
    k, v' := 0, v;
    if j: nat :| Run(c, u, j).Finished? {
      var u';
      k, u', v' := AccompaniedToEnd(c, c', rel, u, v, j);
      ResultIs(c, u, j);
      ResultAfter(c', v, k);
      ResultOfStep(c', v');
      MirrorsTries(d[u'.pc], base, n, u', v');
      if u'.pc == |f.code| - 1 {
        BodyReturns(trusted, m, fn, f, f', d, base, at, around, u', v');
      } else {
        BodyStep(trusted, m, fn, f, f', d, base, at, around, u', v');
      }
    } else {
      forall j: nat ensures Run(c', v, j).Running? { AccompaniedForever(c, c', rel, u, v, j); }
      NeverEnds(c', v);
    }
  }

  lemma BodyAccompanied(
      trusted: bool, m: Module, fn: Function, f: Frame, f': Frame, d: seq<set<int>>, base: nat, at: nat,
      around: seq<Value>)
    requires Setting(m, fn, f, f', d, base, at)
    ensures Accompanies(Activation(trusted, f), Activation(trusted, f'),
              (x: State, y: State) => InBody(f.code, d, base, fn.regCount, at, around, x, y))
  {
    hide StepOf, Setting, Mirrors, SameAround;
    forall x: State, y: State | InBody(f.code, d, base, fn.regCount, at, around, x, y)
      ensures InCode(f, x)
      ensures StepOf(trusted, f, x).Next? ==>
                && InCode(f', y) && StepOf(trusted, f', y).Next?
                && InBody(f.code, d, base, fn.regCount, at, around, StepOf(trusted, f, x).s, StepOf(trusted, f', y).s)
    {
      if x.pc == |f.code| - 1 {
        BodyReturns(trusted, m, fn, f, f', d, base, at, around, x, y);
      } else {
        BodyStep(trusted, m, fn, f, f', d, base, at, around, x, y);
      }
    }
  }

  // ---- The whole expansion --------------------------------------------------------------------

  // `f'` has the expansion of call `i` to `fn` at `at`.
  ghost predicate ExpandedAt(i: Instruction, fn: Function, base: nat, at: nat, f': Frame) {
    && fn.Code() != [] && at + i.c + |fn.Code()| <= |f'.code|
    && (forall j :: 0 <= j < i.c ==> f'.code[at + j] == ArgMoves(i, base)[j])
    && BodyAt(fn.Code(), base, at + i.c, f'.code)
    && f'.code[at + i.c + |fn.Code()| - 1] == Make(Mov, i.a, AddU32(fn.Code()[|fn.Code()| - 1].a, base), 0)
  }

  // Entering the body: the moves have put the arguments where the callee's first registers
  // are mirrored.
  lemma {:induction false} BodyEntered(
      m: Module, fn: Function, f: Frame, f': Frame, d: seq<set<int>>, i: Instruction, s: State, t: State)
    requires 0 <= t.pc && Setting(m, fn, f, f', d, |s.regs|, t.pc + i.c)
    requires s.tries == t.tries == [] && s.world == t.world && s.regs <= t.regs
    requires i.c == fn.paramCount <= fn.regCount && i.a + i.c < |s.regs|
    requires |s.regs| + fn.regCount <= |t.regs| <= 0x1_0000
    ensures WindowOk(AddU32(i.a, 1), i.c, |s.regs|)
    ensures InBody(f.code, d, |s.regs|, fn.regCount, t.pc + i.c, t.regs,
                   EntryState(fn.regCount, Window(AddU32(i.a, 1), i.c, s.regs), s.world),
                   t.(pc := t.pc + i.c, regs := Moved(t.regs, i, |s.regs|, i.c)))
  {
    var base := |s.regs|;
    SettingCode(m, fn, f, f', d, base, t.pc + i.c);
    hide Setting;
    WindowsFit(i.a, i.c, base);
    ArgumentsMirrored(d[0], fn.paramCount, fn.regCount, i, s, t);
    assert SameAround(base, fn.regCount, t.regs, Moved(t.regs, i, base, i.c));
  }

  lemma WindowAt(regs: seq<Value>, i: Instruction, r: nat)
    requires r < i.c && i.a + i.c < |regs| <= 0x1_0000 && WindowOk(AddU32(i.a, 1), i.c, |regs|)
    ensures |Window(AddU32(i.a, 1), i.c, regs)| == i.c && Window(AddU32(i.a, 1), i.c, regs)[r] == regs[i.a + 1 + r]
  {
  }

  lemma {:induction false} ArgumentsMirrored(d: set<int>, params: nat, n: nat, i: Instruction, s: State, t: State)
    requires s.tries == t.tries == [] && s.world == t.world && s.regs <= t.regs
    requires i.c == params <= n && i.a + i.c < |s.regs| && |s.regs| + n <= |t.regs| <= 0x1_0000
    requires WindowOk(AddU32(i.a, 1), i.c, |s.regs|) && forall r :: r in d ==> 0 <= r < params
    ensures Mirrors(d, |s.regs|, n, EntryState(n, Window(AddU32(i.a, 1), i.c, s.regs), s.world),
                    t.(pc := t.pc + i.c, regs := Moved(t.regs, i, |s.regs|, i.c)))
  {
    hide Moved, Window, WindowOk;
    var base := |s.regs|;
    var args := Window(AddU32(i.a, 1), i.c, s.regs);
    forall r | r in d ensures Moved(t.regs, i, base, i.c)[base + r] == EntryRegs(n, args)[r] {
      WindowAt(s.regs, i, r);
    }
  }

  // The caller at the expansion of a call behaves as if the callee had been called.
  lemma CallRuns(
      trusted: bool, m: Module, fn: Function, f: Frame, f': Frame, d: seq<set<int>>, i: Instruction, s: State, t: State)
      returns (k: nat, t': State)
    requires 0 <= t.pc && Setting(m, fn, f, f', d, |s.regs|, t.pc + i.c) && ExpandedAt(i, fn, |s.regs|, t.pc, f')
    requires s.tries == t.tries == [] && s.world == t.world && s.regs <= t.regs
    requires i.c == fn.paramCount <= fn.regCount && i.a + i.c < |s.regs|
    requires |s.regs| + fn.regCount <= |t.regs| <= 0x1_0000
    requires WindowOk(AddU32(i.a, 1), i.c, |s.regs|)
    ensures var o := Result(Activation(trusted, f),
                            EntryState(fn.regCount, Window(AddU32(i.a, 1), i.c, s.regs), s.world));
            match o
            case Returned(x, w) =>
              && k > 0 && Run(Activation(trusted, f'), t, k) == Running(t')
              && t'.pc == t.pc + i.c + |f.code| && t'.world == w && t'.tries == []
              && |t'.regs| == |t.regs| && s.regs[i.a := x] <= t'.regs
            case Thrown(_, _) => Result(Activation(trusted, f'), t) == o
            case Diverges => Result(Activation(trusted, f'), t) == Diverges
            case _ => false
  {
    hide StepOf, Setting, Mirrors, InBody, BodyAt, ArgMoves, SameAround, Window, EntryState, WindowOk, Moved,
         Activation, Run, Result, Bytecode.Function.Code;
    SettingCode(m, fn, f, f', d, |s.regs|, t.pc + i.c);
    var base, c' := |s.regs|, Activation(trusted, f');
    var u := EntryState(fn.regCount, Window(AddU32(i.a, 1), i.c, s.regs), s.world);
    MovesRun(trusted, f', i, base, t, i.c);
    var v := t.(pc := t.pc + i.c, regs := Moved(t.regs, i, base, i.c));
    ResultAfter(c', t, i.c);
    BodyEntered(m, fn, f, f', d, i, s, t);
    var j, v' := BodyRuns(trusted, m, fn, f, f', d, base, t.pc + i.c, t.regs, u, v);
    k, t' := 0, t;
    if Result(Activation(trusted, f), u).Returned? {
      var r := f.code[|f.code| - 1].a;
      ResultMoveRuns(trusted, f', i, base, r, fn.regCount, t, v', s.regs);
      t' := v'.(pc := v'.pc + 1, regs := v'.regs[i.a := v'.regs[base + r]]);
      k := i.c + (j + 1);
      RunSplit(c', v, j, 1);
      RunSplit(c', t, i.c, j + 1);
    }
  }

  lemma {:induction false} ResultMoveRuns(
      trusted: bool, f': Frame, i: Instruction, base: nat, r: nat, n: nat, t: State, v': State, low: seq<Value>)
    requires r < n && InCode(f', v') && base + n <= 0x1_0000 && f'.code[v'.pc] == Make(Mov, i.a, AddU32(r, base), 0)
    requires |low| == base && base + n <= |t.regs| <= 0x1_0000 && low <= t.regs && i.a < base
    requires SameAround(base, n, t.regs, v'.regs)
    ensures |v'.regs| == |t.regs| && low[i.a := v'.regs[base + r]] <= v'.regs[i.a := v'.regs[base + r]]
    ensures Run(Activation(trusted, f'), v', 1)
         == Running(v'.(pc := v'.pc + 1, regs := v'.regs[i.a := v'.regs[base + r]]))
  {
    hide StepOf;
    MoveStep(trusted, f', v', i.a, base + r);
    ResultMoved(t.regs, i, base, n, v'.regs, low, v'.regs[base + r]);
    assert Run(Activation(trusted, f'), v', 1) == Running(Activation(trusted, f').step(v').s);
  }

  lemma SettingCode(m: Module, fn: Function, f: Frame, f': Frame, d: seq<set<int>>, base: nat, at: nat)
    requires Setting(m, fn, f, f', d, base, at)
    ensures f.code == fn.Code() && f.code != [] && f.code[|f.code| - 1].a < fn.regCount
    ensures base + fn.regCount <= 0x1_0000 && |d| == |f.code| && forall r :: r in d[0] ==> 0 <= r < fn.paramCount
  {
  }

  lemma ResultMoved(
      before: seq<Value>, i: Instruction, base: nat, n: nat, after: seq<Value>, low: seq<Value>, x: Value)
    requires SameAround(base, n, before, after) && |low| == base <= |before| && low <= before && i.a < base
    ensures |after| == |before| && low[i.a := x] <= after[i.a := x]
  {
    assert forall q :: 0 <= q < base ==> after[q] == low[q];
  }
}
