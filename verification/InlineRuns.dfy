/** Inlining preserves results: the expanded caller runs abreast of the original one, whose
    calls of the inlined functions are real calls. */
module InlineRuns {
  import opened Int64
  import opened Bytecode
  import opened Machines
  import opened Interpreter
  import opened Runs
  import opened Verifier
  import opened TrustedMode
  import opened Relocation
  import opened Blocks
  import opened IntTags
  import opened Inline
  import opened Widening
  import opened CallSites
  import opened CallTypes

  // What the pass knows of the functions it inlines.
  ghost predicate Inlinable(m: Module, can: seq<bool>) {
    && BodiesExist(m, can)
    && forall g :: 0 <= g < |can| && can[g] ==>
         var fn := m.functions[g];
         !fn.isVararg && InlineBody(fn.Code(), fn.regCount)
  }

  // A function that keeps to its own registers and certainly returns what it declares.
  ghost predicate Plainspoken(m: Module, fn: Function) { SelfContained(fn) && ResultAssured(m, fn) }

  ghost predicate AllPlainspoken(m: Module, can: seq<bool>)
    requires |can| == |m.functions|
  {
    forall g :: 0 <= g < |can| && can[g] ==> Plainspoken(m, m.functions[g])
  }

  // The registers `d` assure what the inlined calls in `code` ask of their arguments.
  ghost predicate ArgsIn(m: Module, can: seq<bool>, code: seq<Instruction>, d: seq<set<int>>)
    requires |can| == |m.functions|
  {
    |d| == |code| && forall p :: 0 <= p < |code| && Site(m, can, code[p]) ==>
      code[p].b < |m.functions| && ArgsAssured(m.functions[code[p].b], code[p], d[p])
  }

  // The caller certainly calls the inlined functions with what they ask for.
  ghost predicate ArgumentsTyped(m: Module, can: seq<bool>, fn: Function)
    requires |can| == |m.functions|
  {
    exists d :: Integers(fn.Code(), m.constants, IntParams(fn), d) && ArgsIn(m, can, fn.Code(), d)
  }

  // The environment answers a call of an inlined function by running it.
  ghost predicate RealAnswer(trusted: bool, m: Module, e: Env, g: nat, args: seq<Value>, w: World) {
    exists e' :: e.ask(CallFunction(g, args, None), w) == Activate(trusted, m, e', g, args, None, w)
  }

  ghost predicate CallsReal(trusted: bool, m: Module, can: seq<bool>, e: Env) {
    forall g: nat, args, w :: g < |can| && can[g] ==> RealAnswer(trusted, m, e, g, args, w)
  }

  // The frames of the caller before and after, as code of `fn` and `fn'`.
  ghost predicate Expanded(m: Module, can: seq<bool>, fn: Function, fn': Function, f: Frame, f': Frame) {
    && BodiesExist(m, can) && Carries(m, fn, f) && Carries(m, fn', f') && TryFree(f.code)
    && f' == f.(code := InlinedCode(m, can, fn.regCount, f.code))
    && |f'.code| < 0x8000_0000 && fn.regCount <= fn'.regCount
    && forall p :: 0 <= p < |f.code| && Site(m, can, f.code[p]) ==>
         fn.regCount + m.functions[f.code[p].b].regCount <= fn'.regCount
  }

  ghost predicate Abreast(m: Module, can: seq<bool>, code: seq<Instruction>, n: nat, n': nat, s: State, t: State)
    requires BodiesExist(m, can)
  {
    && 0 <= s.pc <= |code| && t.pc == Start(m, can, code, s.pc)
    && |s.regs| == n && |t.regs| == n' && s.regs <= t.regs
    && s.tries == t.tries == [] && s.world == t.world
  }

  lemma AbreastWide(m: Module, can: seq<bool>, code: seq<Instruction>, n: nat, n': nat, s: State, t: State)
    requires BodiesExist(m, can) && Abreast(m, can, code, n, n', s, t)
    ensures t == Wide(s, t.regs[n..], t.pc)
  {
  }

  // ---- Everything but calls -------------------------------------------------------------------

  lemma OwnPlace(m: Module, can: seq<bool>, fn: Function, fn': Function, f: Frame, f': Frame, p: nat)
    requires Expanded(m, can, fn, fn', f, f') && p < |f.code| && !Site(m, can, f.code[p])
    ensures Start(m, can, f.code, p) < |f'.code| && Start(m, can, f.code, p + 1) == Start(m, can, f.code, p) + 1
    ensures f'.code[Start(m, can, f.code, p)] ==
              if IsRelativeJump(f.code[p].op) then Redirected(m, can, f.code, p) else f.code[p]
    ensures InstructionOk(m, fn, f.code[p], p, |f.code|) && !IsTryOpcode(f.code[p].op)
  {
    hide Redirected, IsRelativeJump, InstructionOk, Start, InlinedCode, ExpandedCall, Site, BodiesExist;
    PlainWidth(m, can, f.code[p]);
    InlinedAt(m, can, fn.regCount, f.code, p, 0);
    CarriedAt(m, fn, f, p);
    hide Carries;
  }

  lemma PlainWidth(m: Module, can: seq<bool>, i: Instruction)
    requires BodiesExist(m, can) && !Site(m, can, i)
    ensures Width(m, can, i) == 1
  {
  }

  lemma CarriedAt(m: Module, fn: Function, f: Frame, p: nat)
    requires Carries(m, fn, f) && p < |f.code|
    ensures InstructionOk(m, fn, f.code[p], p, |f.code|)
    ensures IsRelativeJump(f.code[p].op) ==> 0 <= p + JumpDelta(f.code[p]) < |f.code|
  {
  }

  lemma {:induction false} AbreastAgain(
      m: Module, can: seq<bool>, code: seq<Instruction>, n: nat, n': nat, s: State, t: State, s': State)
    requires BodiesExist(m, can) && Abreast(m, can, code, n, n', s, t) && s.pc < |code|
    requires s'.pc == s.pc + 1 && s'.tries == [] && |s'.regs| == n
    requires Start(m, can, code, s.pc + 1) == Start(m, can, code, s.pc) + 1
    ensures Abreast(m, can, code, n, n', s', Wide(s', t.regs[n..], t.pc + 1))
  {
    hide Start, BodiesExist;
  }

  // An instruction that goes on does the same over the longer register file.
  lemma OrdinaryStep(
      trusted: bool, m: Module, fn: Function, f: Frame, f': Frame, s: State, t: State, tail: seq<Value>)
    requires Carries(m, fn, f) && InCode(f, s) && |s.regs| == fn.regCount && s.tries == []
    requires InstructionOk(m, fn, f.code[s.pc], s.pc, |f.code|) && f' == f.(code := f'.code)
    requires InCode(f', t) && t == Wide(s, tail, t.pc) && f'.code[t.pc] == f.code[s.pc]
    requires !IsRelativeJump(f.code[s.pc].op) && !IsTryOpcode(f.code[s.pc].op)
    ensures match StepOf(trusted, f, s)
            case Done(o) => StepOf(trusted, f', t) == Done(o)
            case Next(s') =>
              && s'.pc == s.pc + 1 && s'.tries == [] && |s'.regs| == fn.regCount
              && StepOf(trusted, f', t) == Next(Wide(s', tail, t.pc + 1))
  {
    hide *;
    InsideMeans(f, s);
    InsideMeans(f', t);
    StepWidened(trusted, m, fn, f, f', s, tail, t.pc);
    StepKeepsSize(trusted, m, fn, f, s);
  }

  lemma OrdinaryMatch(
      trusted: bool, m: Module, can: seq<bool>, fn: Function, fn': Function, f: Frame, f': Frame, s: State, t: State)
    requires Expanded(m, can, fn, fn', f, f') && Abreast(m, can, f.code, fn.regCount, fn'.regCount, s, t)
    requires InCode(f, s) && !Site(m, can, f.code[s.pc]) && !IsRelativeJump(f.code[s.pc].op)
    ensures InCode(f', t)
    ensures match StepOf(trusted, f, s)
            case Done(o) => StepOf(trusted, f', t) == Done(o)
            case Next(s') =>
              && StepOf(trusted, f', t).Next?
              && Abreast(m, can, f.code, fn.regCount, fn'.regCount, s', StepOf(trusted, f', t).s)
  {
    hide *;
    var code, n, n' := f.code, fn.regCount, fn'.regCount;
    ExpandedFrames(m, can, fn, fn', f, f');
    InsideMeans(f, s);
    InsideMeans(f', t);
    AbreastMeans(m, can, code, n, n', s, t);
    OwnPlace(m, can, fn, fn', f, f', s.pc);
    AbreastWide(m, can, code, n, n', s, t);
    OrdinaryStep(trusted, m, fn, f, f', s, t, t.regs[n..]);
    if StepOf(trusted, f, s).Next? { AbreastAgain(m, can, code, n, n', s, t, StepOf(trusted, f, s).s); }
  }

  lemma ExpandedFrames(m: Module, can: seq<bool>, fn: Function, fn': Function, f: Frame, f': Frame)
    requires Expanded(m, can, fn, fn', f, f')
    ensures f' == f.(code := f'.code) && Carries(m, fn, f) && Carries(m, fn', f') && BodiesExist(m, can)
    ensures f'.code == InlinedCode(m, can, fn.regCount, f.code) && |f'.code| < 0x8000_0000
  {
    hide BodiesExist, Carries, InlinedCode, Site;
  }

  lemma AbreastMeans(m: Module, can: seq<bool>, code: seq<Instruction>, n: nat, n': nat, s: State, t: State)
    requires BodiesExist(m, can)
    ensures Abreast(m, can, code, n, n', s, t) <==>
              && 0 <= s.pc <= |code| && t.pc == Start(m, can, code, s.pc)
              && |s.regs| == n <= |t.regs| == n' && t.regs == s.regs + t.regs[n..]
              && s.tries == t.tries == [] && s.world == t.world
  {
    hide Start, BodiesExist;
    if |s.regs| == n <= |t.regs| { assert s.regs <= t.regs <==> t.regs == s.regs + t.regs[n..]; }
  }

  lemma InsideMeans(f: Frame, s: State)
    ensures InCode(f, s) <==> 0 <= s.pc < |f.code|
  {
  }

  lemma JumpMatch(
      trusted: bool, m: Module, can: seq<bool>, fn: Function, fn': Function, f: Frame, f': Frame, s: State, t: State)
    requires Expanded(m, can, fn, fn', f, f') && Abreast(m, can, f.code, fn.regCount, fn'.regCount, s, t)
    requires InCode(f, s) && IsRelativeJump(f.code[s.pc].op)
    ensures InCode(f', t) && StepOf(trusted, f, s).Next? && StepOf(trusted, f', t).Next?
    ensures Abreast(m, can, f.code, fn.regCount, fn'.regCount, StepOf(trusted, f, s).s, StepOf(trusted, f', t).s)
  {
    hide *;
    var code, n, n' := f.code, fn.regCount, fn'.regCount;
    ExpandedFrames(m, can, fn, fn', f, f');
    AbreastMeans(m, can, code, n, n', s, t);
    InsideMeans(f, s);
    InsideMeans(f', t);
    JumpPlace(m, can, fn, fn', f, f', s.pc);
    var i, i' := code[s.pc], f'.code[t.pc];
    JumpStep(trusted, m, fn, f, s);
    JumpStep(trusted, m, fn', f', t);
    BranchWidened(i, i', s.regs, t.regs[n..]);
    AbreastMeans(m, can, code, n, n', StepOf(trusted, f, s).s, StepOf(trusted, f', t).s);
  }

  lemma RedirectedFits(m: Module, can: seq<bool>, code: seq<Instruction>, p: nat)
    requires BodiesExist(m, can) && p < |code| && IsRelativeJump(code[p].op) && 0 <= p + JumpDelta(code[p]) < |code|
    requires Start(m, can, code, p) < 0x8000_0000 && Start(m, can, code, p + JumpDelta(code[p])) < 0x8000_0000
    ensures var d := Start(m, can, code, p + JumpDelta(code[p])) - Start(m, can, code, p);
            && -0x8000_0000 <= d < 0x8000_0000 && Redirected(m, can, code, p) == WithJumpDelta(code[p], d)
            && JumpDelta(Redirected(m, can, code, p)) == d
  {
    hide BodiesExist, Start, IsRelativeJump, JumpDelta, WithJumpDelta;
  }

  // A redirected jump goes from the start of its expansion to that of its target.
  lemma JumpPlace(m: Module, can: seq<bool>, fn: Function, fn': Function, f: Frame, f': Frame, p: nat)
    requires Expanded(m, can, fn, fn', f, f') && p < |f.code| && IsRelativeJump(f.code[p].op)
    ensures InstructionOk(m, fn, f.code[p], p, |f.code|) && 0 <= p + JumpDelta(f.code[p]) < |f.code|
    ensures Start(m, can, f.code, p + 1) == Start(m, can, f.code, p) + 1
    ensures var q := Start(m, can, f.code, p);
            && q < |f'.code| && InstructionOk(m, fn', f'.code[q], q, |f'.code|)
            && JumpDelta(f'.code[q]) == Start(m, can, f.code, p + JumpDelta(f.code[p])) - q
            && -0x8000_0000 <= JumpDelta(f'.code[q]) < 0x8000_0000
            && f'.code[q] == WithJumpDelta(f.code[p], JumpDelta(f'.code[q]))
  {
    hide *;
    ExpandedFrames(m, can, fn, fn', f, f');
    CarriedAt(m, fn, f, p);
    var q, t := Start(m, can, f.code, p), p + JumpDelta(f.code[p]);
    JumpIsNoSite(m, can, f.code[p]);
    OwnPlace(m, can, fn, fn', f, f', p);
    CarriedAt(m, fn', f', q);
    StartInside(m, can, fn.regCount, f.code, p);
    StartInside(m, can, fn.regCount, f.code, t);
    RedirectedFits(m, can, f.code, p);
  }

  lemma {:induction false} StartInside(m: Module, can: seq<bool>, base: nat, code: seq<Instruction>, p: nat)
    requires BodiesExist(m, can) && p <= |code|
    ensures Start(m, can, code, p) <= |InlinedCode(m, can, base, code)|
  {
    InlinedPrefix(m, can, base, code, p, |code|);
  }

  // ---- Calls ---------------------------------------------------------------------------------------

  lemma SiteFacts(m: Module, can: seq<bool>, base: nat, code: seq<Instruction>, p: nat)
    requires BodiesExist(m, can) && p < |code| && Site(m, can, code[p])
    ensures code[p].b < |m.functions| && m.functions[code[p].b].Code() != []
    ensures Expansion(m, can, base, code, p) == ExpandedCall(m, code[p], base)
    ensures Width(m, can, code[p]) == |ExpandedCall(m, code[p], base)| == code[p].c + |m.functions[code[p].b].Code()|
  {
    hide RemapRegs, Start, AddU32;
  }

  lemma CalleeFits(m: Module, can: seq<bool>, fn: Function, fn': Function, f: Frame, f': Frame, p: nat)
    requires Expanded(m, can, fn, fn', f, f') && p < |f.code| && Site(m, can, f.code[p])
    ensures f.code[p].b < |m.functions| && fn.regCount + m.functions[f.code[p].b].regCount <= fn'.regCount
  {
    hide BodiesExist, Carries, InlinedCode;
  }

  lemma SitePlace(m: Module, can: seq<bool>, fn: Function, fn': Function, f: Frame, f': Frame, p: nat)
    requires Expanded(m, can, fn, fn', f, f') && p < |f.code| && Site(m, can, f.code[p])
    ensures f.code[p].b < |m.functions| && fn.regCount + m.functions[f.code[p].b].regCount <= fn'.regCount
    ensures ExpandedAt(f.code[p], m.functions[f.code[p].b], fn.regCount, Start(m, can, f.code, p), f')
    ensures Start(m, can, f.code, p + 1)
         == Start(m, can, f.code, p) + f.code[p].c + |m.functions[f.code[p].b].Code()|
  {
    hide *;
    ExpandedFrames(m, can, fn, fn', f, f');
    var i, base, at := f.code[p], fn.regCount, Start(m, can, f.code, p);
    SiteFacts(m, can, base, f.code, p);
    CalleeFits(m, can, fn, fn', f, f', p);
    var piece := ExpandedCall(m, i, base);
    InlinedAt(m, can, base, f.code, p, |piece| - 1);
    forall k | 0 <= k < |piece| ensures f'.code[at + k] == piece[k] {
      InlinedAt(m, can, base, f.code, p, k);
    }
    PieceExpanded(m, i, base, at, f');
  }

  lemma PieceExpanded(m: Module, i: Instruction, base: nat, at: nat, f': Frame)
    requires i.b < |m.functions| && m.functions[i.b].Code() != []
    requires var piece := ExpandedCall(m, i, base);
             at + |piece| <= |f'.code| && forall k :: 0 <= k < |piece| ==> f'.code[at + k] == piece[k]
    ensures ExpandedAt(i, m.functions[i.b], base, at, f')
  {
    hide RemapRegs, AddU32;
    var code, piece := m.functions[i.b].Code(), ExpandedCall(m, i, base);
    forall j | 0 <= j < i.c ensures f'.code[at + j] == ArgMoves(i, base)[j] {
      assert f'.code[at + j] == piece[j];
    }
    forall j | 0 <= j < |code| - 1 ensures f'.code[at + i.c + j] == RemapRegs(code[j], base) {
      assert f'.code[at + (i.c + j)] == piece[i.c + j] == BodyOf(code, base)[j];
    }
    assert f'.code[at + (i.c + |code| - 1)] == piece[i.c + |code| - 1];
  }

  // A call of a plainspoken function with what it asks for is a run of its code that checks
  // no result.
  lemma RealCall(trusted: bool, m: Module, can: seq<bool>, e: Env, g: nat, args: seq<Value>, w: World)
    returns (frame: Frame)
    requires Accepted(m) && Inlinable(m, can) && g < |can| && can[g] && Plainspoken(m, m.functions[g])
    requires RealAnswer(trusted, m, e, g, args, w) && |args| == m.functions[g].paramCount
    requires ArgsMatch(m.functions[g], args)
    ensures frame.code == m.functions[g].Code() && frame.constants == m.constants && frame.returnType == AnyType
    ensures Carries(m, m.functions[g], frame)
    ensures e.ask(CallFunction(g, args, None), w)
         == Result(Activation(trusted, frame), EntryState(m.functions[g].regCount, args, w))
  {
    hide Activation, EntryState, ResultAssured, SelfContained, IsInlineSafe, JumpDelta, IsRelativeJump, TryFree;
    var fn := m.functions[g];
    assert FunctionOk(m, fn);
    hide Accepted;
    var e' :| e.ask(CallFunction(g, args, None), w) == Activate(trusted, m, e', g, args, None, w);
    assert Admit(m, g, args).None?;
    frame := Unchecked(FrameOf(m, g, None, [], e'));
    ResultMatches(trusted, m, g, frame, args, w);
    TypesExact(trusted, m, e', g, args, w);
  }

  lemma WindowTyped(fn: Function, i: Instruction, ints: set<int>, regs: seq<Value>)
    requires ArgsAssured(fn, i, ints) && IntsHold(ints, regs)
    requires i.a + i.c < |regs| <= 0x1_0000 && WindowOk(AddU32(i.a, 1), i.c, |regs|)
    ensures ArgsMatch(fn, Window(AddU32(i.a, 1), i.c, regs))
  {
    hide Window, WindowOk;
    var args := Window(AddU32(i.a, 1), i.c, regs);
    forall k | 0 <= k < |fn.paramTypes| && k < |args| ensures Matches(args[k], fn.paramTypes[k]) {
      WindowSize(regs, i);
      WindowAt(regs, i, k);
    }
  }

  lemma WindowSize(regs: seq<Value>, i: Instruction)
    requires WindowOk(AddU32(i.a, 1), i.c, |regs|)
    ensures |Window(AddU32(i.a, 1), i.c, regs)| == i.c
  {
  }

  lemma SiteSetting(
      m: Module, can: seq<bool>, fn: Function, fn': Function, f: Frame, f': Frame, p: nat, g: Frame)
      returns (d: seq<set<int>>)
    requires Expanded(m, can, fn, fn', f, f') && p < |f.code| && Site(m, can, f.code[p])
    requires Inlinable(m, can) && SelfContained(m.functions[f.code[p].b])
    requires g.code == m.functions[f.code[p].b].Code() && g.constants == m.constants && g.returnType == AnyType
    requires Carries(m, m.functions[f.code[p].b], g)
    ensures Setting(m, m.functions[f.code[p].b], g, f', d, fn.regCount, Start(m, can, f.code, p) + f.code[p].c)
  {
    hide Start, InlineBody, Assigned, ArgMoves, BodyAt, Carries, InlinedCode, Expanded;
    SitePlace(m, can, fn, fn', f, f', p);
    ExpandedFrames(m, can, fn, fn', f, f');
    var callee := m.functions[f.code[p].b];
    d :| Assigned(callee.Code(), callee.paramCount, d);
    CarriedConstants(m, fn, f);
  }

  lemma CarriedConstants(m: Module, fn: Function, f: Frame)
    requires Carries(m, fn, f)
    ensures f.constants == m.constants
  {
  }

  // What an accepted call of a candidate looks like.
  lemma SiteCall(m: Module, can: seq<bool>, fn: Function, fn': Function, f: Frame, f': Frame, p: nat)
    requires Accepted(m) && Expanded(m, can, fn, fn', f, f') && p < |f.code| && Site(m, can, f.code[p])
    requires Inlinable(m, can)
    ensures var i := f.code[p];
            && i.op == Call && i.b < |m.functions| && i.b < |can| && can[i.b] && i.a + i.c < fn.regCount
            && i.c == m.functions[i.b].paramCount <= m.functions[i.b].regCount
            && fn.regCount + m.functions[i.b].regCount <= fn'.regCount
            && WindowOk(AddU32(i.a, 1), i.c, fn.regCount)
  {
    var i := f.code[p];
    ExpandedFrames(m, can, fn, fn', f, f');
    assert InstructionOk(m, fn, i, p, |f.code|) && FunctionOk(m, m.functions[i.b]);
    WindowsFit(i.a, i.c, fn.regCount);
  }

  lemma CallStep(trusted: bool, f: Frame, s: State)
    requires InCode(f, s) && f.code[s.pc].op == Call && f.code[s.pc].a < |s.regs| && s.tries == []
    requires var i := f.code[s.pc]; WindowOk(AddU32(i.a, 1), i.c, |s.regs|)
    ensures var i := f.code[s.pc];
            StepOf(trusted, f, s) ==
              match f.env.ask(CallFunction(i.b, Window(AddU32(i.a, 1), i.c, s.regs), None), s.world)
              case Returned(x, w) => Next(s.(pc := s.pc + 1, regs := s.regs[i.a := x], world := w))
              case o => Done(o)
  {
    hide ExecCompute, ExecBranch, ExecTry, ExecForeign, ExecVarArg, ExecString, ExecLoadK, ExecEnd, Window;
  }

  lemma PlainspokenContained(m: Module, can: seq<bool>, g: nat)
    requires BodiesExist(m, can) && AllPlainspoken(m, can) && g < |can| && can[g]
    ensures Plainspoken(m, m.functions[g]) && SelfContained(m.functions[g])
  {
  }

  // The expansion of a call ends the way the unchecked body of the callee does, and that is
  // the way the call ends if and only if the arguments match the parameter types and a
  // returned value matches the return type.
  lemma ExpansionExact(
      trusted: bool, m: Module, can: seq<bool>, fn: Function, fn': Function, f: Frame, f': Frame, e: Env,
      s: State, t: State) returns (o: Outcome, steps: nat, t': State)
    requires Accepted(m) && Inlinable(m, can) && Expanded(m, can, fn, fn', f, f')
    requires Abreast(m, can, f.code, fn.regCount, fn'.regCount, s, t)
    requires InCode(f, s) && Site(m, can, f.code[s.pc])
    requires f.code[s.pc].b < |m.functions| && SelfContained(m.functions[f.code[s.pc].b])
    requires WindowOk(AddU32(f.code[s.pc].a, 1), f.code[s.pc].c, |s.regs|) && f.code[s.pc].a < |s.regs|
    ensures match o
            case Returned(x, w) =>
              && steps > 0 && Run(Activation(trusted, f'), t, steps) == Running(t')
              && Abreast(m, can, f.code, fn.regCount, fn'.regCount,
                         s.(pc := s.pc + 1, regs := s.regs[f.code[s.pc].a := x], world := w), t')
            case _ => Result(Activation(trusted, f'), t) == o
    ensures var i := f.code[s.pc];
            var callee, args := m.functions[i.b], Window(AddU32(i.a, 1), i.c, s.regs);
            Activate(trusted, m, e, i.b, args, None, s.world) == o <==>
              ArgsMatch(callee, args) && (o.Returned? ==> Matches(o.value, callee.returnType))
  {
    hide StepOf, Activation, Run, Result, EntryState, WindowOk, Start, BodiesExist, InlinedCode, Activate,
         Setting, ExpandedAt, Carries, Expanded, Accepted, Inlinable, ArgsMatch, SelfContained, Bytecode.Function.Code;
    var i := f.code[s.pc];
    ExpandedFrames(m, can, fn, fn', f, f');
    SiteCall(m, can, fn, fn', f, f', s.pc);
    var callee := m.functions[i.b];
    var args := Window(AddU32(i.a, 1), i.c, s.regs);
    var g := BodyFrame(m, can, i.b, e);
    var held := SiteSetting(m, can, fn, fn', f, f', s.pc, g);
    SitePlace(m, can, fn, fn', f, f', s.pc);
    SettingCode(m, callee, g, f', held, fn.regCount, t.pc + i.c);
    WindowSize(s.regs, i);
    hide Site;
    steps, t' := CallRuns(trusted, m, callee, g, f', held, i, s, t);
    o := Result(Activation(trusted, g), EntryState(callee.regCount, args, s.world));
    TypesExact(trusted, m, e, i.b, args, s.world);
  }

  // The frame in which a callee runs, without the check of its result.
  lemma BodyFrame(m: Module, can: seq<bool>, g: nat, e: Env) returns (frame: Frame)
    requires Accepted(m) && Inlinable(m, can) && g < |can| && can[g]
    ensures g < |m.functions| && frame == Unchecked(FrameOf(m, g, None, [], e))
    ensures frame.code == m.functions[g].Code() && frame.constants == m.constants && frame.returnType == AnyType
    ensures Carries(m, m.functions[g], frame) && !m.functions[g].isVararg && AllInlineSafe(m.functions[g].Code())
  {
    hide IsInlineSafe, JumpDelta, IsRelativeJump, TryFree;
    assert FunctionOk(m, m.functions[g]);
    frame := Unchecked(FrameOf(m, g, None, [], e));
  }

  lemma SiteMatch(
      trusted: bool, m: Module, can: seq<bool>, fn: Function, fn': Function, f: Frame, f': Frame,
      d: seq<set<int>>, s: State, t: State) returns (steps: nat, t': State)
    requires Accepted(m) && Inlinable(m, can) && AllPlainspoken(m, can) && CallsReal(trusted, m, can, f.env)
    requires Expanded(m, can, fn, fn', f, f') && ArgsIn(m, can, f.code, d)
    requires Abreast(m, can, f.code, fn.regCount, fn'.regCount, s, t)
    requires InCode(f, s) && Site(m, can, f.code[s.pc]) && IntsHold(d[s.pc], s.regs)
    ensures match StepOf(trusted, f, s)
            case Done(o) => Result(Activation(trusted, f'), t) == o
            case Next(s') =>
              && steps > 0 && Run(Activation(trusted, f'), t, steps) == Running(t')
              && Abreast(m, can, f.code, fn.regCount, fn'.regCount, s', t')
  {
    hide StepOf, Activation, Run, Result, EntryState, WindowOk, Start, BodiesExist, InlinedCode,
         Setting, ExpandedAt, Carries, Expanded, Accepted, Plainspoken, Inlinable, RealAnswer, ArgsAssured,
         ArgsMatch, IntsHold, SelfContained,
         Bytecode.Function.Code;
    var i := f.code[s.pc];
    ExpandedFrames(m, can, fn, fn', f, f');
    SiteCall(m, can, fn, fn', f, f', s.pc);
    var callee := m.functions[i.b];
    var args := Window(AddU32(i.a, 1), i.c, s.regs);
    CallStep(trusted, f, s);
    assert RealAnswer(trusted, m, f.env, i.b, args, s.world);
    WindowTyped(callee, i, d[s.pc], s.regs);
    var g := RealCall(trusted, m, can, f.env, i.b, args, s.world);
    PlainspokenContained(m, can, i.b);
    var held := SiteSetting(m, can, fn, fn', f, f', s.pc, g);
    SitePlace(m, can, fn, fn', f, f', s.pc);
    SettingCode(m, callee, g, f', held, fn.regCount, t.pc + i.c);
    hide Site, AllPlainspoken, CallsReal;
    steps, t' := CallRuns(trusted, m, callee, g, f', held, i, s, t);
  }

  // ---- Whole runs ---------------------------------------------------------------------------------

  // Both callers abreast, with integers where the original certainly has them.
  ghost predicate Beside(
      m: Module, can: seq<bool>, fn: Function, n': nat, f: Frame, d: seq<set<int>>, s: State, t: State)
    requires BodiesExist(m, can)
  {
    Abreast(m, can, f.code, fn.regCount, n', s, t) && Tagged(f, fn.regCount, d, s)
  }

  lemma InlinedMatch(
      trusted: bool, m: Module, can: seq<bool>, fn: Function, fn': Function, f: Frame, f': Frame,
      given: set<int>, d: seq<set<int>>, s: State, t: State)
    requires Accepted(m) && Inlinable(m, can) && AllPlainspoken(m, can) && CallsReal(trusted, m, can, f.env)
    requires Expanded(m, can, fn, fn', f, f')
    requires Integers(f.code, f.constants, given, d) && ArgsIn(m, can, f.code, d)
    requires Beside(m, can, fn, fn'.regCount, f, d, s, t)
    ensures Matched(Activation(trusted, f), Activation(trusted, f'),
              (x: State, y: State) => Beside(m, can, fn, fn'.regCount, f, d, x, y), s, t)
  {
    hide StepOf, Start, BodiesExist, InlinedCode, Accepted, Inlinable, AllPlainspoken, CallsReal, Site, IsRelativeJump,
         Carries, ArgsIn, Integers, HandlersLabelled, IntsHold;
    var c, c' := Activation(trusted, f), Activation(trusted, f');
    ResultOfStep(c', t);
    if s.pc == |f.code| {
      InlinedSize(m, can, fn.regCount, f.code);
    } else {
      ExpandedFrames(m, can, fn, fn', f, f');
      StepTagged(trusted, m, fn, f, given, d, s);
      if Site(m, can, f.code[s.pc]) {
        var steps, t' := SiteMatch(trusted, m, can, fn, fn', f, f', d, s, t);
      } else if IsRelativeJump(f.code[s.pc].op) {
        JumpMatch(trusted, m, can, fn, fn', f, f', s, t);
        hide Expanded, Abreast, Tagged;
        assert Run(c', t, 1) == Running(c'.step(t).s);
      } else {
        OrdinaryMatch(trusted, m, can, fn, fn', f, f', s, t);
        hide Expanded, Abreast, Tagged;
        if StepOf(trusted, f', t).Next? { assert Run(c', t, 1) == Running(c'.step(t).s); }
      }
    }
  }

  lemma {:induction false} InlinedSize(m: Module, can: seq<bool>, base: nat, code: seq<Instruction>)
    requires BodiesExist(m, can)
    ensures |InlinedCode(m, can, base, code)| == Start(m, can, code, |code|)
  {
  }

  // The main result for one activation: the expanded caller returns, throws or diverges
  // exactly as the original does.
  lemma InlinedRun(
      trusted: bool, m: Module, can: seq<bool>, fn: Function, fn': Function, f: Frame, f': Frame,
      given: set<int>, d: seq<set<int>>, args: seq<Value>, w: World)
    requires Accepted(m) && Inlinable(m, can) && AllPlainspoken(m, can) && CallsReal(trusted, m, can, f.env)
    requires Expanded(m, can, fn, fn', f, f')
    requires Integers(f.code, f.constants, given, d) && ArgsIn(m, can, f.code, d)
    requires Tagged(f, fn.regCount, d, EntryState(fn.regCount, args, w))
    ensures Result(Activation(trusted, f), EntryState(fn.regCount, args, w))
         == Result(Activation(trusted, f'), EntryState(fn'.regCount, args, w))
  {
    hide Accepted, Inlinable, AllPlainspoken, CallsReal, Carries, InlinedCode, StepOf, BodiesExist, ArgsIn, Integers,
         Tagged;
    var rel := (x: State, y: State) => Beside(m, can, fn, fn'.regCount, f, d, x, y);
    forall s: State, t: State | rel(s, t)
      ensures Matched(Activation(trusted, f), Activation(trusted, f'), rel, s, t)
    {
      InlinedMatch(trusted, m, can, fn, fn', f, f', given, d, s, t);
    }
    assert EntryRegs(fn.regCount, args) <= EntryRegs(fn'.regCount, args);
    SimulatedResult(Activation(trusted, f), Activation(trusted, f'), rel,
                    EntryState(fn.regCount, args, w), EntryState(fn'.regCount, args, w));
  }
}
