/** RunInlineSmallPass: every caller of the module in turn, and what it means for whole
    programs. */
module InlinePass {
  import opened Int64
  import opened Bytecode
  import opened Machines
  import opened Interpreter
  import opened Runs
  import opened Verifier
  import opened TrustedMode
  import opened Passes
  import opened IntTags
  import opened Inline
  import opened InlineOk
  import opened CallSites
  import opened CallTypes
  import opened InlineRuns
  import opened Meanings

  // ---- One caller --------------------------------------------------------------------------------

  // `m'` is `m` with the calls in function `fi` expanded.
  ghost predicate CallerExpanded(m: Module, m': Module, can: seq<bool>, fi: nat) {
    && Recoded(m, m', fi) && m'.constants == m.constants && BodiesExist(m, can) && !can[fi]
    && var fn, fn' := m.functions[fi], m'.functions[fi];
       && TryFree(fn.Code()) && fn'.Code() == InlinedCode(m, can, fn.regCount, fn.Code())
       && forall p :: 0 <= p < |fn.Code()| && Site(m, can, fn.Code()[p]) ==>
            fn.regCount + m.functions[fn.Code()[p].b].regCount <= fn'.regCount
  }

  // What the expanded caller refers to was there before.
  lemma CodeBack(m: Module, m': Module, fi: nat, code: seq<Instruction>)
    requires Recoded(m, m', fi) && m'.constants == m.constants && CodeOk(m', m'.functions[fi], code)
    ensures CodeOk(m, m'.functions[fi], code)
  {
    hide InstructionOk;
    forall p | 0 <= p < |code| ensures InstructionOk(m, m'.functions[fi], code[p], p, |code|) {
      InstructionBack(m, m', fi, code[p], p, |code|);
    }
  }

  lemma InstructionBack(m: Module, m': Module, fi: nat, i: Instruction, pc: int, size: nat)
    requires Recoded(m, m', fi) && m'.constants == m.constants && InstructionOk(m', m'.functions[fi], i, pc, size)
    ensures InstructionOk(m, m'.functions[fi], i, pc, size)
  {
    hide RegistersFit, TargetsFit;
    assert forall k :: 0 <= k < |m.functions| ==>
        m'.functions[k].isVararg == m.functions[k].isVararg
        && m'.functions[k].paramCount == m.functions[k].paramCount
        && m'.functions[k].upvalueCount == m.functions[k].upvalueCount;
    assert IsSymbol(m', i.b) ==> IsSymbol(m, i.b);
    assert m'.ffiBindings == m.ffiBindings;
  }

  lemma FramesExpanded(
      m: Module, m': Module, can: seq<bool>, fi: nat, closure: Option<I64>, varargs: seq<Value>, e: Env)
    requires Accepted(m) && Accepted(m') && CallerExpanded(m, m', can, fi) && |m'.functions[fi].Code()| < 0x8000_0000
    ensures |can| == |m.functions|
    ensures Expanded(m, can, m.functions[fi], m'.functions[fi],
                     FrameOf(m, fi, closure, varargs, e), FrameOf(m', fi, closure, varargs, e))
  {
    hide Accepted, InlinedCode, Site, CodeOk, SignatureOk, TryFree;
    AcceptedFunction(m, fi);
    AcceptedFunction(m', fi);
    CodeBack(m, m', fi, m'.functions[fi].Code());
  }

  lemma ExpandedRun(
      trusted: bool, m: Module, m': Module, can: seq<bool>, fi: nat, e: Env, args: seq<Value>,
      closure: Option<I64>, varargs: seq<Value>, w: World)
    requires Accepted(m) && Accepted(m') && CallerExpanded(m, m', can, fi) && |m'.functions[fi].Code()| < 0x8000_0000
    requires Inlinable(m, can) && AllPlainspoken(m, can) && CallsReal(trusted, m, can, e)
    requires ArgumentsTyped(m, can, m.functions[fi]) && Admit(m, fi, args).None?
    ensures Result(Activation(trusted, FrameOf(m, fi, closure, varargs, e)),
            EntryState(m.functions[fi].regCount, args, w))
         == Result(Activation(trusted, FrameOf(m', fi, closure, varargs, e)),
             EntryState(m'.functions[fi].regCount, args, w))
  {
    var fn, fn' := m.functions[fi], m'.functions[fi];
    FramesExpanded(m, m', can, fi, closure, varargs, e);
    hide Inlinable, AllPlainspoken, CallsReal, Activation, EntryState, Integers, ArgsIn, Tagged, Accepted, Admit,
         Expanded, CallerExpanded;
    var f, f' := FrameOf(m, fi, closure, varargs, e), FrameOf(m', fi, closure, varargs, e);
    var d :| Integers(fn.Code(), m.constants, IntParams(fn), d) && ArgsIn(m, can, fn.Code(), d);
    EntryTagged(m, fi, args, d, f, w);
    InlinedRun(trusted, m, can, fn, fn', f, f', IntParams(fn), d, args, w);
  }

  lemma ExpandedActivation(
      trusted: bool, m: Module, m': Module, can: seq<bool>, fi: nat, e: Env, k: nat, args: seq<Value>,
      closure: Option<I64>, w: World)
    requires Accepted(m) && Accepted(m') && CallerExpanded(m, m', can, fi) && |m'.functions[fi].Code()| < 0x8000_0000
    requires Inlinable(m, can) && AllPlainspoken(m, can) && CallsReal(trusted, m, can, e)
    requires ArgumentsTyped(m, can, m.functions[fi])
    ensures Activate(trusted, m, e, k, args, closure, w) == Activate(trusted, m', e, k, args, closure, w)
  {
    hide Inlinable, AllPlainspoken, ArgumentsTyped, CallsReal, InlinedCode, Activation, Site, BodiesExist, EntryState;
    if k < |m.functions| {
      var fn, fn' := m.functions[k], m'.functions[k];
      AcceptedFunction(m, k);
      AcceptedFunction(m', k);
      hide CodeOk, SignatureOk, Accepted;
      assert Admit(m, k, args) == Admit(m', k, args);
      if k == fi && Admit(m, k, args).None? {
        var varargs := if fn.isVararg then args[fn.paramCount..] else [];
        ExpandedRun(trusted, m, m', can, fi, e, args, closure, varargs, w);
      }
    }
  }

  lemma NestedCall(trusted: bool, m: Module, base: Env, d: nat, g: nat, args: seq<Value>, w: World)
    requires d > 0
    ensures EnvAt(trusted, m, base, d).ask(CallFunction(g, args, None), w)
         == Activate(trusted, m, EnvAt(trusted, m, base, d - 1), g, args, None, w)
  {
    hide Activate;
    assert EnvAt(trusted, m, base, d).ask(CallFunction(g, args, None), w)
        == Execute(trusted, m, base, d, g, args, None, w);
  }

  // An environment that runs calls in either module answers calls of the callees for real.
  lemma {:induction false} NestedCallsReal(
      trusted: bool, m: Module, m': Module, can: seq<bool>, fi: nat, base: Env, d: nat)
    requires CallerExpanded(m, m', can, fi) && d > 0
    ensures CallsReal(trusted, m, can, EnvAt(trusted, m, base, d))
    ensures CallsReal(trusted, m, can, EnvAt(trusted, m', base, d))
  {
    hide InlinedCode, Activation, Site, EntryState, Execute, EnvAt;
    forall g: nat, args, w | g < |can| && can[g]
      ensures RealAnswer(trusted, m, EnvAt(trusted, m, base, d), g, args, w)
      ensures RealAnswer(trusted, m, EnvAt(trusted, m', base, d), g, args, w)
    {
      NestedCall(trusted, m, base, d, g, args, w);
      NestedCall(trusted, m', base, d, g, args, w);
      assert Admit(m, g, args) == Admit(m', g, args);
      assert Activate(trusted, m', EnvAt(trusted, m', base, d - 1), g, args, None, w)
          == Activate(trusted, m, EnvAt(trusted, m', base, d - 1), g, args, None, w);
    }
  }

  // Both modules catch up with each other one call deeper.
  lemma {:induction false} ExpandedCaught(
      trusted: bool, m: Module, m': Module, can: seq<bool>, fi: nat, base: Env, d: nat, k: nat, args: seq<Value>,
      closure: Option<I64>, w: World)
    requires Accepted(m) && Accepted(m') && CallerExpanded(m, m', can, fi) && |m'.functions[fi].Code()| < 0x8000_0000
    requires Inlinable(m, can) && AllPlainspoken(m, can) && ArgumentsTyped(m, can, m.functions[fi])
    ensures var o := Execute(trusted, m, base, d, k, args, closure, w);
            o == Diverges || Execute(trusted, m', base, d + 1, k, args, closure, w) == o
    ensures var o := Execute(trusted, m', base, d, k, args, closure, w);
            o == Diverges || Execute(trusted, m, base, d + 1, k, args, closure, w) == o
    decreases d, 0
  {
    hide Activate, Inlinable, AllPlainspoken, ArgumentsTyped, CallsReal, CallerExpanded, Accepted, Refines, EnvAt;
    if d > 0 {
      var e, e' := EnvAt(trusted, m, base, d), EnvAt(trusted, m', base, d);
      var inner, inner' := EnvAt(trusted, m, base, d - 1), EnvAt(trusted, m', base, d - 1);
      ExpandedRefined(trusted, m, m', can, fi, base, d - 1);
      NestedCallsReal(trusted, m, m', can, fi, base, d);
      BothRefined(trusted, m, m', can, fi, e, e', inner, inner', k, args, closure, w);
    }
  }

  lemma ExpandedRefined(trusted: bool, m: Module, m': Module, can: seq<bool>, fi: nat, base: Env, d: nat)
    requires Accepted(m) && Accepted(m') && CallerExpanded(m, m', can, fi) && |m'.functions[fi].Code()| < 0x8000_0000
    requires Inlinable(m, can) && AllPlainspoken(m, can) && ArgumentsTyped(m, can, m.functions[fi])
    ensures Refines(EnvAt(trusted, m, base, d), EnvAt(trusted, m', base, d + 1))
    ensures Refines(EnvAt(trusted, m', base, d), EnvAt(trusted, m, base, d + 1))
    decreases d, 1
  {
    hide Execute, Inlinable, AllPlainspoken, ArgumentsTyped, CallerExpanded, Accepted, EnvAt, Refines;
    forall k: nat, args: seq<Value>, closure: Option<I64>, v: World
      ensures CaughtAt(trusted, m, m', base, d, k, args, closure, v)
      ensures CaughtAt(trusted, m', m, base, d, k, args, closure, v)
    {
      ExpandedCaught(trusted, m, m', can, fi, base, d, k, args, closure, v);
    }
    EnvironmentRefined(trusted, m, m', base, d);
    EnvironmentRefined(trusted, m', m, base, d);
  }

  lemma EnvironmentRefined(trusted: bool, m: Module, m': Module, base: Env, d: nat)
    requires forall k: nat, args, closure, w :: CaughtAt(trusted, m, m', base, d, k, args, closure, w)
    ensures Refines(EnvAt(trusted, m, base, d), EnvAt(trusted, m', base, d + 1))
  {
    hide Execute;
    forall q: Request, w: World
      ensures EnvAt(trusted, m, base, d).ask(q, w) == Diverges
           || EnvAt(trusted, m, base, d).ask(q, w) == EnvAt(trusted, m', base, d + 1).ask(q, w)
    {
      if q.CallFunction? { assert CaughtAt(trusted, m, m', base, d, q.callee, q.args, q.closure, w); }
    }
  }

  lemma BothRefined(
      trusted: bool, m: Module, m': Module, can: seq<bool>, fi: nat, e: Env, e': Env, inner: Env, inner': Env,
      k: nat, args: seq<Value>, closure: Option<I64>, w: World)
    requires Accepted(m) && Accepted(m') && CallerExpanded(m, m', can, fi) && |m'.functions[fi].Code()| < 0x8000_0000
    requires Inlinable(m, can) && AllPlainspoken(m, can) && ArgumentsTyped(m, can, m.functions[fi])
    requires CallsReal(trusted, m, can, e) && CallsReal(trusted, m, can, e')
    requires Refines(inner, e') && Refines(inner', e)
    ensures var o := Activate(trusted, m, inner, k, args, closure, w);
            o == Diverges || Activate(trusted, m', e', k, args, closure, w) == o
    ensures var o := Activate(trusted, m', inner', k, args, closure, w);
            o == Diverges || Activate(trusted, m, e, k, args, closure, w) == o
  {
    hide Activate, Inlinable, AllPlainspoken, ArgumentsTyped, CallsReal, CallerExpanded, Accepted, Refines;
    ActivateRefines(trusted, m, inner, e', k, args, closure, w);
    ActivateRefines(trusted, m', inner', e, k, args, closure, w);
    ExpandedActivation(trusted, m, m', can, fi, e, k, args, closure, w);
    ExpandedActivation(trusted, m, m', can, fi, e', k, args, closure, w);
  }

  // Expanding one caller changes the meaning of no function of the module.
  lemma ExpandedMeaning(trusted: bool, m: Module, m': Module, can: seq<bool>, fi: nat)
    requires Accepted(m) && Accepted(m') && CallerExpanded(m, m', can, fi) && |m'.functions[fi].Code()| < 0x8000_0000
    requires Inlinable(m, can) && AllPlainspoken(m, can) && ArgumentsTyped(m, can, m.functions[fi])
    ensures SameMeaning(trusted, m, m')
  {
    hide Execute, Inlinable, AllPlainspoken, ArgumentsTyped, CallerExpanded, Accepted;
    forall base, d: nat, k: nat, args, closure, w
      ensures CaughtAt(trusted, m, m', base, d, k, args, closure, w)
      ensures CaughtAt(trusted, m', m, base, d, k, args, closure, w)
    {
      ExpandedCaught(trusted, m, m', can, fi, base, d, k, args, closure, w);
    }
    CaughtBothWays(trusted, m, m');
  }

  // ---- The pass ----------------------------------------------------------------------------------

  // The largest register file of the callees inlined into the first `p` instructions.
  function CalleeRegs(m: Module, can: seq<bool>, code: seq<Instruction>, p: nat): (k: U16)
    requires p <= |code|
    ensures forall q :: 0 <= q < p && Site(m, can, code[q]) ==> m.functions[code[q].b].regCount <= k
    ensures k == 0 || exists q :: 0 <= q < p && Site(m, can, code[q]) && m.functions[code[q].b].regCount == k
  {
    if p == 0 then 0
    else
      var k := CalleeRegs(m, can, code, p - 1);
      if Site(m, can, code[p - 1]) && m.functions[code[p - 1].b].regCount > k
      then m.functions[code[p - 1].b].regCount else k
  }

  // A caller after the pass: unchanged if it has handlers, no call to inline, or too few
  // register numbers left for the callees' registers.
  function InlinedFunction(m: Module, can: seq<bool>, fn: Function): Function
    requires BodiesExist(m, can)
  {
    var code := fn.Code();
    var k := CalleeRegs(m, can, code, |code|);
    if !TryFree(code) || k == 0 || fn.regCount + k > 0xFFFF then fn
    else Rebuild(fn, InlinedCode(m, can, fn.regCount, code)).(regCount := fn.regCount + k)
  }

  ghost predicate IsCandidates(m: Module, maxInst: nat, can: seq<bool>) {
    |can| == |m.functions| && forall g :: 0 <= g < |can| ==> (can[g] <==> Candidate(m, g, maxInst))
  }

  lemma CandidatesInlinable(m: Module, maxInst: nat, can: seq<bool>)
    requires IsCandidates(m, maxInst, can)
    ensures Inlinable(m, can)
  {
    hide IsInlineSafe, IsRelativeJump, JumpDelta, IsTryOpcode, CallsItself;
  }

  lemma CandidateCallsNothing(m: Module, maxInst: nat, can: seq<bool>, g: nat, p: nat)
    requires IsCandidates(m, maxInst, can) && g < |can| && can[g] && p < |m.functions[g].Code()|
    ensures !Site(m, can, m.functions[g].Code()[p])
  {
    assert Candidate(m, g, maxInst);
    assert IsInlineSafe(m.functions[g].Code()[p].op);
  }

  // Modules with the same callees expand a caller alike.
  ghost predicate SameCallees(m: Module, m': Module, can: seq<bool>) {
    |m.functions| == |m'.functions| == |can| && forall g :: 0 <= g < |can| && can[g] ==>
        m.functions[g] == m'.functions[g]
  }

  lemma SameSite(m: Module, m': Module, can: seq<bool>, base: nat, i: Instruction)
    requires BodiesExist(m, can) && BodiesExist(m', can) && SameCallees(m, m', can)
    ensures Site(m, can, i) == Site(m', can, i) && Width(m, can, i) == Width(m', can, i)
    ensures Site(m, can, i) ==>
              && i.b < |m.functions| && m.functions[i.b] == m'.functions[i.b] && m.functions[i.b].Code() != []
              && ExpandedCall(m, i, base) == ExpandedCall(m', i, base)
  {
    hide ArgMoves, BodyOf;
  }

  lemma {:induction false} SameExpansion(
      m: Module, m': Module, can: seq<bool>, base: nat, code: seq<Instruction>, p: nat)
    requires BodiesExist(m, can) && BodiesExist(m', can) && SameCallees(m, m', can) && p <= |code|
    ensures Start(m, can, code, p) == Start(m', can, code, p)
    ensures CalleeRegs(m, can, code, p) == CalleeRegs(m', can, code, p)
    decreases p
  {
    hide Site, Width, SameCallees, BodiesExist, ExpandedCall;
    if p > 0 {
      SameExpansion(m, m', can, base, code, p - 1);
      SameSite(m, m', can, base, code[p - 1]);
    }
  }

  lemma SameExpansionAt(m: Module, m': Module, can: seq<bool>, base: nat, code: seq<Instruction>, p: nat)
    requires BodiesExist(m, can) && BodiesExist(m', can) && SameCallees(m, m', can) && p < |code|
    ensures Expansion(m, can, base, code, p) == Expansion(m', can, base, code, p)
  {
    hide Start, Site, Width, SameCallees, BodiesExist, ExpandedCall, CalleeRegs, IsRelativeJump, JumpDelta,
         WithJumpDelta;
    SameSite(m, m', can, base, code[p]);
    var t := p + JumpDelta(code[p]);
    if 0 <= t < |code| { SameExpansion(m, m', can, base, code, t); }
    SameExpansion(m, m', can, base, code, p);
  }

  lemma {:induction false} SameInlined(
      m: Module, m': Module, can: seq<bool>, base: nat, code: seq<Instruction>, p: nat)
    requires BodiesExist(m, can) && BodiesExist(m', can) && SameCallees(m, m', can) && p <= |code|
    ensures Inlined(m, can, base, code, p) == Inlined(m', can, base, code, p)
    decreases p
  {
    hide Expansion, Start, SameCallees, BodiesExist;
    if p > 0 {
      SameInlined(m, m', can, base, code, p - 1);
      SameExpansionAt(m, m', can, base, code, p - 1);
    }
  }

  lemma SameInlinedFunction(m: Module, m': Module, can: seq<bool>, fn: Function)
    requires BodiesExist(m, can) && BodiesExist(m', can) && SameCallees(m, m', can)
    ensures InlinedFunction(m, can, fn) == InlinedFunction(m', can, fn)
  {
    hide BodiesExist, SameCallees, Inlined, CalleeRegs, Start, TryFree, Bytecode.Function.Code;
    SameExpansion(m, m', can, fn.regCount, fn.Code(), |fn.Code()|);
    SameInlined(m, m', can, fn.regCount, fn.Code(), |fn.Code()|);
  }

  // The module once the first `k` callers have been treated.
  ghost predicate Halfway(m: Module, m': Module, can: seq<bool>, k: nat)
    requires BodiesExist(m, can)
  {
    && m' == m.(functions := m'.functions) && |m'.functions| == |m.functions| == |can|
    && (forall j :: 0 <= j < |can| ==>
         m'.functions[j] == if j < k then InlinedFunction(m, can, m.functions[j]) else m.functions[j])
  }

  // Callees contain no calls, so they stay as they were.
  lemma CalleesStay(m: Module, m': Module, maxInst: nat, can: seq<bool>, k: nat)
    requires IsCandidates(m, maxInst, can) && BodiesExist(m, can) && Halfway(m, m', can, k)
    ensures SameCallees(m, m', can) && BodiesExist(m', can)
    ensures Inlinable(m', can) && (AllPlainspoken(m, can) ==> AllPlainspoken(m', can))
  {
    hide InlinedCode, Candidate, InlineBody, SelfContained, Integers, Site;
    CandidatesInlinable(m, maxInst, can);
    forall g | 0 <= g < |can| && can[g] ensures m'.functions[g] == m.functions[g] {
      var code := m.functions[g].Code();
      if k: nat :| k < |code| && Site(m, can, code[k]) { CandidateCallsNothing(m, maxInst, can, g, k); }
      assert CalleeRegs(m, can, code, |code|) == 0;
    }
  }

  lemma SameArguments(m: Module, m': Module, can: seq<bool>, fn: Function)
    requires SameCallees(m, m', can) && m'.constants == m.constants && ArgumentsTyped(m, can, fn)
    ensures ArgumentsTyped(m', can, fn)
  {
    hide Integers, ArgsAssured;
    var d :| Integers(fn.Code(), m.constants, IntParams(fn), d) && ArgsIn(m, can, fn.Code(), d);
    forall p | 0 <= p < |fn.Code()| && Site(m', can, fn.Code()[p])
      ensures ArgsAssured(m'.functions[fn.Code()[p].b], fn.Code()[p], d[p])
    {
      CalleeUnchanged(m, m', can, fn.Code()[p]);
    }
    assert ArgsIn(m', can, fn.Code(), d);
  }

  // One caller of the loop: acceptable again, and the same program.
  lemma CallerTreated(m: Module, now: Module, next: Module, maxInst: nat, can: seq<bool>, k: nat)
    requires Accepted(now) && IsCandidates(m, maxInst, can) && BodiesExist(m, can) && BodiesExist(now, can)
    requires Halfway(m, now, can, k) && k < |can|
    requires next == now.(functions := now.functions[k := InlinedFunction(now, can, now.functions[k])])
    ensures Accepted(next) && Halfway(m, next, can, k + 1)
    ensures AllPlainspoken(m, can) && ArgumentsTyped(m, can, m.functions[k])
              && |next.functions[k].Code()| < 0x8000_0000 ==>
              forall trusted :: SameMeaning(trusted, now, next)
  {
    hide InlinedFunction, Accepted, AllPlainspoken, ArgumentsTyped, IsCandidates, BodiesExist, SameMeaning;
    CalleesStay(m, now, maxInst, can, k);
    SameInlinedFunction(m, now, can, now.functions[k]);
    if InlinedFunction(now, can, now.functions[k]) == now.functions[k] {
      assert next == now;
      forall trusted ensures SameMeaning(trusted, now, next) { MeaningReflexive(trusted, now); }
    } else {
      CallerChanged(m, now, next, maxInst, can, k);
      if AllPlainspoken(m, can) && ArgumentsTyped(m, can, m.functions[k]) && |next.functions[k].Code()| < 0x8000_0000 {
        SameArguments(m, now, can, m.functions[k]);
        forall trusted ensures SameMeaning(trusted, now, next) { ExpandedMeaning(trusted, now, next, can, k); }
      }
    }
  }

  lemma MeaningReflexive(trusted: bool, m: Module)
    ensures SameMeaning(trusted, m, m)
  {
    hide Meaning;
  }

  lemma CallerChanged(m: Module, now: Module, next: Module, maxInst: nat, can: seq<bool>, k: nat)
    requires Accepted(now) && IsCandidates(m, maxInst, can) && BodiesExist(now, can)
    requires |can| == |now.functions| && k < |can| && now.functions[k] == m.functions[k] && SameCallees(m, now, can)
    requires Inlinable(now, can) && InlinedFunction(now, can, now.functions[k]) != now.functions[k]
    requires next == now.(functions := now.functions[k := InlinedFunction(now, can, now.functions[k])])
    ensures CallerExpanded(now, next, can, k) && Accepted(next)
  {
    hide InlinedCode, Accepted, CodeOk, Site, BodiesExist, Inlinable, IsCandidates, InlinedFunction, SameCallees;
    var fn, fn' := now.functions[k], next.functions[k];
    var code := fn.Code();
    NonEmpty(now, k);
    var q := FunctionChanged(now, can, fn);
    CalleeUnchanged(m, now, can, code[q]);
    if can[k] { CandidateCallsNothing(m, maxInst, can, k, q); }
    ExpandedAccepted(now, next, can, k);
  }

  lemma FunctionChanged(m: Module, can: seq<bool>, fn: Function) returns (q: nat)
    requires BodiesExist(m, can) && InlinedFunction(m, can, fn) != fn && fn.Code() != []
    ensures var fn', code := InlinedFunction(m, can, fn), fn.Code();
            && fn' == fn.(blocks := fn'.blocks, regCount := fn'.regCount) && TryFree(code)
            && fn'.Code() == InlinedCode(m, can, fn.regCount, code) && q < |code| && Site(m, can, code[q])
            && fn.regCount <= fn'.regCount
            && forall p :: 0 <= p < |code| && Site(m, can, code[p]) ==>
                 fn.regCount + m.functions[code[p].b].regCount <= fn'.regCount
  {
    hide InlinedCode, Site;
    StillNotEmpty(m, can, fn.regCount, fn.Code());
    q :| q < |fn.Code()| && Site(m, can, fn.Code()[q]);
  }

  lemma CalleeUnchanged(m: Module, now: Module, can: seq<bool>, i: Instruction)
    requires SameCallees(m, now, can)
    ensures Site(m, can, i) == Site(now, can, i)
  {
  }

  lemma ExpandedAccepted(m: Module, m': Module, can: seq<bool>, fi: nat)
    requires Accepted(m) && CallerExpanded(m, m', can, fi) && Inlinable(m, can)
    ensures Accepted(m')
  {
    var fn, fn' := m.functions[fi], m'.functions[fi];
    assert FunctionOk(m, fn);
    var code' := fn'.Code();
    hide Accepted, InlinedCode, Site, InlineBody, InstructionOk;
    assert forall g :: 0 <= g < |can| && can[g] ==> InlineBody(m.functions[g].Code(), m.functions[g].regCount);
    forall q | 0 <= q < |code'| ensures InstructionOk(m', fn', code'[q], q, |code'|) {
      InlinedOk(m, can, fn, fn', fn.Code(), q);
      RecodedInstruction(m, m', fi, fn', code'[q], q, |code'|);
    }
    StillNotEmpty(m, can, fn.regCount, fn.Code());
    RecodedAccepted(m, m', fi);
  }

  lemma StillNotEmpty(m: Module, can: seq<bool>, base: nat, code: seq<Instruction>)
    requires BodiesExist(m, can) && code != []
    ensures InlinedCode(m, can, base, code) != []
  {
    InlinedPrefix(m, can, base, code, 0, |code|);
  }

  method FindCandidates(m: Module, maxInst: nat) returns (can: seq<bool>)
    ensures IsCandidates(m, maxInst, can)
  {
    hide Candidate;
    can := [];
    for g := 0 to |m.functions|
      invariant |can| == g && forall j :: 0 <= j < g ==> (can[j] <==> Candidate(m, j, maxInst))
    {
      var ok := IsInlineCandidate(m, g, maxInst);
      can := can + [ok];
    }
  }

  method LargestCallee(m: Module, can: seq<bool>, code: seq<Instruction>) returns (k: U16)
    requires BodiesExist(m, can)
    ensures k == CalleeRegs(m, can, code, |code|)
  {
    hide BodiesExist, Site;
    k := 0;
    for p := 0 to |code|
      invariant k == CalleeRegs(m, can, code, p)
    {
      if Site(m, can, code[p]) {
        SiteBody(m, can, code[p]);
        if m.functions[code[p].b].regCount > k { k := m.functions[code[p].b].regCount; }
      }
    }
  }

  // The caller of the loop, expanded if it can be.
  method InlineCaller(m: Module, can: seq<bool>, fn: Function) returns (fn': Function)
    requires BodiesExist(m, can) && fn.Code() != []
    ensures fn' == InlinedFunction(m, can, fn)
  {
    hide BodiesExist, Site, InlinedCode, CalleeRegs;
    var code := fn.Code();
    if !TryFree(code) { return fn; }
    var k := LargestCallee(m, can, code);
    if k == 0 || fn.regCount + k > 0xFFFF { return fn; }
    var plain, starts := ExpandCode(m, can, fn.regCount, code);
    var code' := RedirectJumps(m, can, fn.regCount, code, plain, starts);
    fn' := Rebuild(fn, code').(regCount := fn.regCount + k);
  }

  // Inlining is faithful: the callees are plainspoken, their callers give them what they ask
  // for, and what comes out is within the reach of a jump.
  ghost predicate Faithful(m: Module, now: Module, can: seq<bool>, k: nat)
    requires |can| == |m.functions| == |now.functions| && k <= |can|
  {
    && AllPlainspoken(m, can)
    && forall j :: 0 <= j < k ==> ArgumentsTyped(m, can, m.functions[j]) && |now.functions[j].Code()| < 0x8000_0000
  }

  // What has been treated so far is acceptable, and the same program if inlining is faithful.
  lemma {:induction false} HalfwayMeaning(trusted: bool, m: Module, now: Module, maxInst: nat, can: seq<bool>, k: nat)
    requires Accepted(m) && IsCandidates(m, maxInst, can) && BodiesExist(m, can) && Halfway(m, now, can, k)
    requires k <= |can|
    ensures Accepted(now)
    ensures Faithful(m, now, can, k) ==> SameMeaning(trusted, m, now)
    decreases k
  {
    hide IsCandidates, BodiesExist, AllPlainspoken, ArgumentsTyped, SameMeaning, InlinedFunction, Accepted;
    if k == 0 {
      assert now.functions == m.functions;
      MeaningReflexive(trusted, m);
    } else {
      var before := now.(functions := now.functions[k - 1 := m.functions[k - 1]]);
      HalfwayMeaning(trusted, m, before, maxInst, can, k - 1);
      CalleesStay(m, before, maxInst, can, k - 1);
      SameInlinedFunction(m, before, can, m.functions[k - 1]);
      var next := InlinedFunction(before, can, before.functions[k - 1]);
      assert now == before.(functions := before.functions[k - 1 := next]);
      CallerTreated(m, before, now, maxInst, can, k - 1);
      if Faithful(m, now, can, k) {
        assert forall j :: 0 <= j < k - 1 ==> before.functions[j] == now.functions[j];
        SameMeaningTransitive(trusted, m, before, now);
      }
    }
  }

  // Inlines small functions everywhere.  The module stays acceptable whatever it inlines;
  // the program means the same if the types the inlined functions check are certain to match,
  // they read only what they were given or wrote, and the code keeps within the reach of a jump.
  method RunInlineSmallPass(ws: Workspace, maxInst: nat) returns (ghost can: seq<bool>)
    requires ws.Valid() && Accepted(ws.View())
    modifies ws`functions
    ensures ws.Valid() && Accepted(ws.View()) && IsCandidates(old(ws.View()), maxInst, can)
    ensures BodiesExist(old(ws.View()), can) && |ws.functions| == |can|
    ensures Halfway(old(ws.View()), ws.View(), can, |can|)
    ensures Faithful(old(ws.View()), ws.View(), can, |can|) ==>
              forall trusted :: SameMeaning(trusted, old(ws.View()), ws.View())
  {
    hide IsCandidates, BodiesExist, Faithful, SameMeaning, InlinedFunction, Accepted;
    ghost var m := ws.View();
    var flags := FindCandidates(ws.rest.(functions := ws.functions, constants := ws.constants), maxInst);
    can := flags;
    BodiesFound(m, maxInst, can);
    for k := 0 to |ws.functions|
      invariant ws.Valid() && |ws.functions| == |can| && Halfway(m, ws.View(), can, k)
    {
      CalleesStay(m, ws.View(), maxInst, can, k);
      NonEmpty(m, k);
      SameInlinedFunction(m, ws.View(), can, m.functions[k]);
      var fn := InlineCaller(ws.rest.(functions := ws.functions, constants := ws.constants), flags, ws.functions[k]);
      ws.functions := ws.functions[k := fn];
    }
    HalfwayMeaning(true, m, ws.View(), maxInst, can, |can|);
    forall trusted | Faithful(m, ws.View(), can, |can|)
      ensures SameMeaning(trusted, m, ws.View())
    {
      HalfwayMeaning(trusted, m, ws.View(), maxInst, can, |can|);
    }
  }

  lemma BodiesFound(m: Module, maxInst: nat, can: seq<bool>)
    requires IsCandidates(m, maxInst, can)
    ensures BodiesExist(m, can) && |can| == |m.functions|
  {
    CandidatesInlinable(m, maxInst, can);
  }

  lemma NonEmpty(m: Module, k: nat)
    requires Accepted(m) && k < |m.functions|
    ensures m.functions[k].Code() != []
  {
    AcceptedFunction(m, k);
  }
}
