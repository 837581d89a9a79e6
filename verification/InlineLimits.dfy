/** Why inlining needs plainspoken callees and typed arguments: two small programs that it
    changes. */
module InlineLimits {
  import opened Int64
  import opened Bytecode
  import opened Machines
  import opened Interpreter
  import opened Steps
  import opened Runs
  import opened IntTags
  import opened Inline
  import opened InlineRuns
  import opened CallSites
  import opened Embedding
  import opened InlinePass
  import opened Meanings

  // A function without parameters or types, and a module whose first function is one.
  predicate IsThunk(fn: Function, code: seq<Instruction>, regs: nat) {
    && fn.Code() == code && fn.regCount == regs && fn.paramCount == 0 && !fn.isVararg && fn.paramTypes == []
    && fn.returnType == AnyType
  }

  // The module after the first function has been expanded.
  function WithFirst(m: Module, can: seq<bool>): Module
    requires BodiesExist(m, can) && m.functions != []
  {
    m.(functions := m.functions[0 := InlinedFunction(m, can, m.functions[0])])
  }

  // Its run starts on null registers.
  lemma ThunkRuns(trusted: bool, m: Module, base: Env, d: nat, g: nat, code: seq<Instruction>, regs: nat, w: World)
    returns (f: Frame)
    requires d > 0 && g < |m.functions| && IsThunk(m.functions[g], code, regs) && code != []
    ensures f.code == code && f.returnType == AnyType && f.env == EnvAt(trusted, m, base, d - 1)
    ensures Execute(trusted, m, base, d, g, [], None, w)
         == Result(Activation(trusted, f), State(0, seq(regs, _ => NULL), [], w))
  {
    hide StepOf, EnvAt;
    f := FrameOf(m, g, None, [], EnvAt(trusted, m, base, d - 1));
    assert EntryRegs(regs, []) == seq(regs, _ => NULL);
  }

  lemma {:induction false} ThunkExpanded(m: Module, can: seq<bool>, code: seq<Instruction>, n: nat)
    requires BodiesExist(m, can) && m.functions != [] && IsThunk(m.functions[0], code, n) && TryFree(code)
    requires var k := CalleeRegs(m, can, code, |code|); 0 < k && n + k <= 0xFFFF
    requires InlinedCode(m, can, n, code) != []
    ensures IsThunk(InlinedFunction(m, can, m.functions[0]), InlinedCode(m, can, n, code),
                    n + CalleeRegs(m, can, code, |code|))
  {
    hide BodiesExist, InlinedCode, CalleeRegs;
  }

  // ---- Types that are no longer checked ------------------------------------------------------

  // main() calls id(int64) with a null.
  predicate CallsTyped(m: Module, can: seq<bool>) {
    && |m.functions| == |can| >= 2 && BodiesExist(m, can) && can[1]
    && IsThunk(m.functions[0], [Make(Call, 0, 1, 1), Make(Ret, 0, 0, 0)], 2)
    && var id := m.functions[1];
       && id.Code() == [Make(Ret, 0, 0, 0)] && id.regCount == 1 && id.paramCount == 1 && !id.isVararg
       && id.paramTypes == [Exactly(TInt64)]
  }

  lemma TypedFacts(m: Module, can: seq<bool>)
    requires CallsTyped(m, can)
    ensures BodiesExist(m, can) && |m.functions| >= 2
    ensures var code := m.functions[0].Code();
            && code == [Make(Call, 0, 1, 1), Make(Ret, 0, 0, 0)] && TryFree(code)
            && IsThunk(m.functions[0], code, 2) && CalleeRegs(m, can, code, 2) == 1
  {
    var code := m.functions[0].Code();
    assert Site(m, can, code[0]) && !Site(m, can, code[1]);
    hide Site, BodiesExist;
    assert CalleeRegs(m, can, code, 1) == 1;
  }

  lemma TypedCode(m: Module, can: seq<bool>)
    requires CallsTyped(m, can)
    ensures InlinedCode(m, can, 2, m.functions[0].Code())
         == [Make(Mov, 2, 1, 0), Make(Mov, 0, 2, 0), Make(Ret, 0, 0, 0)]
  {
    var code, base := m.functions[0].Code(), 2;
    assert Site(m, can, code[0]) && !Site(m, can, code[1]);
    assert ExpandedCall(m, code[0], base) == [Make(Mov, 2, 1, 0), Make(Mov, 0, 2, 0)];
    hide ExpandedCall, Site, BodiesExist, Start, Width, Redirected;
    assert Inlined(m, can, base, code, 1) == Inlined(m, can, base, code, 0) + Expansion(m, can, base, code, 0)
        == ExpandedCall(m, code[0], base);
    assert Expansion(m, can, base, code, 1) == [Make(Ret, 0, 0, 0)];
  }

  lemma TypedInlined(m: Module, can: seq<bool>)
    requires CallsTyped(m, can)
    ensures IsThunk(InlinedFunction(m, can, m.functions[0]),
                    [Make(Mov, 2, 1, 0), Make(Mov, 0, 2, 0), Make(Ret, 0, 0, 0)], 3)
  {
    hide *;
    TypedFacts(m, can);
    TypedCode(m, can);
    ThunkExpanded(m, can, m.functions[0].Code(), 2);
  }

  lemma NullRefused(trusted: bool, m: Module, can: seq<bool>, e: Env, w: World)
    requires CallsTyped(m, can)
    ensures Activate(trusted, m, e, 1, [NULL], None, w) == Failed(ArgumentType, w)
  {
    hide BodiesExist;
    assert !Matches([NULL][0], m.functions[1].paramTypes[0]);
  }

  lemma CallFails(trusted: bool, f: Frame, w: World)
    requires f.code == [Make(Call, 0, 1, 1), Make(Ret, 0, 0, 0)]
    requires f.env.ask(CallFunction(1, [NULL], None), w) == Failed(ArgumentType, w)
    ensures Result(Activation(trusted, f), State(0, seq(2, _ => NULL), [], w)) == Failed(ArgumentType, w)
  {
    hide StepOf, Activation;
    var s := State(0, seq(2, _ => NULL), [], w);
    assert Window(AddU32(0, 1), 1, s.regs) == [NULL];
    CallStep(trusted, f, s);
    ResultDone(trusted, f, s, Failed(ArgumentType, w));
  }

  lemma {:induction false} TypedFails(trusted: bool, m: Module, can: seq<bool>, base: Env, w: World)
    requires CallsTyped(m, can)
    ensures Execute(trusted, m, base, 2, 0, [], None, w) == Failed(ArgumentType, w)
  {
    hide *;
    TypedFacts(m, can);
    var f := ThunkRuns(trusted, m, base, 2, 0, m.functions[0].Code(), 2, w);
    NullRefused(trusted, m, can, EnvAt(trusted, m, base, 0), w);
    NestedCall(trusted, m, base, 1, 1, [NULL], w);
    CallFails(trusted, f, w);
  }

  lemma MovesReturn(trusted: bool, f: Frame, w: World)
    requires f.code == [Make(Mov, 2, 1, 0), Make(Mov, 0, 2, 0), Make(Ret, 0, 0, 0)] && f.returnType == AnyType
    ensures Result(Activation(trusted, f), State(0, seq(3, _ => NULL), [], w)) == Returned(NULL, w)
  {
    hide StepOf, Activation;
    var s := State(0, seq(3, _ => NULL), [], w);
    assert s.regs[2 := s.regs[1]] == s.regs == s.regs[0 := s.regs[2]];
    MoveStep(trusted, f, s, 2, 1);
    MoveStep(trusted, f, s.(pc := 1), 0, 2);
    ReturnStep(trusted, f, s.(pc := 2));
    ResultNext(trusted, f, s, s.(pc := 1));
    ResultNext(trusted, f, s.(pc := 1), s.(pc := 2));
    ResultDone(trusted, f, s.(pc := 2), Returned(NULL, w));
  }

  lemma {:induction false} UntypedReturns(trusted: bool, m: Module, base: Env, w: World)
    requires m.functions != []
    requires IsThunk(m.functions[0], [Make(Mov, 2, 1, 0), Make(Mov, 0, 2, 0), Make(Ret, 0, 0, 0)], 3)
    ensures Execute(trusted, m, base, 2, 0, [], None, w) == Returned(NULL, w)
  {
    hide *;
    var code := [Make(Mov, 2, 1, 0), Make(Mov, 0, 2, 0), Make(Ret, 0, 0, 0)];
    var f := ThunkRuns(trusted, m, base, 2, 0, code, 3, w);
    MovesReturn(trusted, f, w);
  }

  // The call of a typed function fails on its argument; the inlined body never looks.
  lemma TypesAreForgotten(trusted: bool, m: Module, can: seq<bool>, base: Env, w: World)
    requires CallsTyped(m, can)
    ensures Meaning(trusted, m, base, 0, [], None, w) == Failed(ArgumentType, w)
    ensures Meaning(trusted, WithFirst(m, can), base, 0, [], None, w) == Returned(NULL, w)
    ensures !ArgumentsTyped(m, can, m.functions[0])
  {
    hide Meaning, Execute;
    TypedInlined(m, can);
    TypedFails(trusted, m, can, base, w);
    UntypedReturns(trusted, WithFirst(m, can), base, w);
    MeaningIs(trusted, m, base, 2, 0, [], None, w);
    MeaningIs(trusted, WithFirst(m, can), base, 2, 0, [], None, w);
    NeverTyped(m, can);
  }

  lemma NeverTyped(m: Module, can: seq<bool>)
    requires CallsTyped(m, can)
    ensures !ArgumentsTyped(m, can, m.functions[0])
  {
    var fn := m.functions[0];
    forall d ensures !(Integers(fn.Code(), m.constants, IntParams(fn), d) && ArgsIn(m, can, fn.Code(), d)) {
      assert Site(m, can, fn.Code()[0]);
      assert m.functions[1].paramTypes[0] == Exactly(TInt64);
    }
  }

  // ---- Registers that are no longer fresh ----------------------------------------------------

  // main() calls count() twice; count reads its second register before it writes it.
  predicate CallsCounter(m: Module, can: seq<bool>) {
    && |m.functions| == |can| >= 2 && BodiesExist(m, can) && can[1]
    && IsThunk(m.functions[0], [Make(Call, 0, 1, 0), Make(Call, 0, 1, 0), Make(Ret, 0, 0, 0)], 1)
    && IsThunk(m.functions[1], [Make(Mov, 0, 1, 0), Make(Inc, 1, 0, 0), Make(Ret, 0, 0, 0)], 2)
  }

  function CounterBody(): seq<Instruction> { [Make(Mov, 1, 2, 0), Make(Inc, 2, 0, 0), Make(Mov, 0, 1, 0)] }

  lemma CounterInlined(m: Module, can: seq<bool>)
    requires CallsCounter(m, can)
    ensures IsThunk(InlinedFunction(m, can, m.functions[0]),
                    CounterBody() + CounterBody() + [Make(Ret, 0, 0, 0)], 3)
  {
    hide *;
    CounterFacts(m, can);
    CounterCode(m, can);
    CounterRegs(m, can);
    ThunkExpanded(m, can, m.functions[0].Code(), 1);
  }

  lemma CounterFacts(m: Module, can: seq<bool>)
    requires CallsCounter(m, can)
    ensures BodiesExist(m, can) && m.functions != []
    ensures var code := m.functions[0].Code(); IsThunk(m.functions[0], code, 1) && TryFree(code) && |code| == 3
  {
    hide BodiesExist;
  }

  lemma {:induction false} CounterRegs(m: Module, can: seq<bool>)
    requires CallsCounter(m, can)
    ensures CalleeRegs(m, can, m.functions[0].Code(), 3) == 2
  {
    var code, i := m.functions[0].Code(), Make(Call, 0, 1, 0);
    assert Site(m, can, i) && !Site(m, can, code[2]);
    hide Site, BodiesExist;
    assert CalleeRegs(m, can, code, 1) == 2 == CalleeRegs(m, can, code, 2);
  }

  lemma CounterCode(m: Module, can: seq<bool>)
    requires CallsCounter(m, can)
    ensures InlinedCode(m, can, 1, m.functions[0].Code()) == CounterBody() + CounterBody() + [Make(Ret, 0, 0, 0)]
  {
    var code, base, i := m.functions[0].Code(), 1, Make(Call, 0, 1, 0);
    assert code[0] == code[1] == i && Site(m, can, i) && !Site(m, can, code[2]);
    CounterExpanded(m, can);
    hide ExpandedCall, Site, BodiesExist, Redirected, CallsCounter, Start, Width;
    assert Inlined(m, can, base, code, 1) == Inlined(m, can, base, code, 0) + Expansion(m, can, base, code, 0)
        == CounterBody();
    assert Inlined(m, can, base, code, 2) == Inlined(m, can, base, code, 1) + Expansion(m, can, base, code, 1)
        == CounterBody() + CounterBody();
    assert Expansion(m, can, base, code, 2) == [Make(Ret, 0, 0, 0)];
  }

  lemma CounterExpanded(m: Module, can: seq<bool>)
    requires CallsCounter(m, can)
    ensures ExpandedCall(m, Make(Call, 0, 1, 0), 1) == CounterBody()
  {
  }

  // Every call of count() starts on null registers.
  lemma {:induction false} CounterCalled(trusted: bool, m: Module, can: seq<bool>, base: Env, w: World)
    requires CallsCounter(m, can)
    ensures Execute(trusted, m, base, 1, 1, [], None, w) == Returned(NULL, w)
  {
    hide StepOf, BodiesExist;
    var f, s := FrameOf(m, 1, None, [], EnvAt(trusted, m, base, 0)), EntryState(2, [], w);
    assert EntryRegs(2, []) == [NULL, NULL];
    MoveStep(trusted, f, s, 0, 1);
    assert s.regs[0 := s.regs[1]] == s.regs;
    var one := IntValue(Int64.Add(NULL.bits, 1));
    IncStep(trusted, f, s.(pc := 1), 1);
    ReturnStep(trusted, f, s.(pc := 2, regs := [NULL, one]));
    assert s.regs[1 := one] == [NULL, one];
    ResultOfStep(Activation(trusted, f), s);
    ResultOfStep(Activation(trusted, f), s.(pc := 1));
    ResultOfStep(Activation(trusted, f), s.(pc := 2, regs := [NULL, one]));
  }

  lemma {:induction false} CounterReturnsNull(trusted: bool, m: Module, can: seq<bool>, base: Env, w: World)
    requires CallsCounter(m, can)
    ensures Execute(trusted, m, base, 2, 0, [], None, w) == Returned(NULL, w)
  {
    hide StepOf, BodiesExist, EnvAt;
    var e := EnvAt(trusted, m, base, 1);
    assert EntryRegs(1, []) == [NULL];
    NestedCall(trusted, m, base, 1, 1, [], w);
    CounterCalled(trusted, m, can, base, w);
    CallsTwice(trusted, FrameOf(m, 0, None, [], e), w);
  }

  lemma CallsTwice(trusted: bool, f: Frame, w: World)
    requires f.code == [Make(Call, 0, 1, 0), Make(Call, 0, 1, 0), Make(Ret, 0, 0, 0)] && f.returnType == AnyType
    requires f.env.ask(CallFunction(1, [], None), w) == Returned(NULL, w)
    ensures Result(Activation(trusted, f), State(0, [NULL], [], w)) == Returned(NULL, w)
  {
    hide StepOf;
    var s := State(0, [NULL], [], w);
    assert Window(AddU32(0, 1), 0, s.regs) == [];
    CallStep(trusted, f, s);
    CallStep(trusted, f, s.(pc := 1));
    ReturnStep(trusted, f, s.(pc := 2));
    assert s.regs[0 := NULL] == s.regs;
    ResultOfStep(Activation(trusted, f), s);
    ResultOfStep(Activation(trusted, f), s.(pc := 1));
    ResultOfStep(Activation(trusted, f), s.(pc := 2));
  }

  // One inlined round: the counter is returned, then raised.
  lemma CounterRound(trusted: bool, f: Frame, p: nat, x: Value, y: Value, z: Value, w: World)
    requires p + 3 <= |f.code| && f.code[p..p + 3] == CounterBody()
    ensures Result(Activation(trusted, f), State(p, [x, y, z], [], w))
         == Result(Activation(trusted, f), State(p + 3, [z, z, IntValue(Int64.Add(z.bits, 1))], [], w))
  {
    hide StepOf;
    var s0, s1 := State(p, [x, y, z], [], w), State(p + 1, [x, z, z], [], w);
    var next := IntValue(Int64.Add(z.bits, 1));
    var s2 := State(p + 2, [x, z, next], [], w);
    assert s0.regs[1 := z] == s1.regs && s1.regs[2 := next] == s2.regs && s2.regs[0 := z] == [z, z, next];
    assert f.code[p] == CounterBody()[0] && f.code[p + 1] == CounterBody()[1] && f.code[p + 2] == CounterBody()[2];
    MoveStep(trusted, f, s0, 1, 2);
    IncStep(trusted, f, s1, 2);
    MoveStep(trusted, f, s2, 0, 1);
    ResultOfStep(Activation(trusted, f), s0);
    ResultOfStep(Activation(trusted, f), s1);
    ResultOfStep(Activation(trusted, f), s2);
  }

  lemma CountedTwice(trusted: bool, f: Frame, w: World)
    requires f.code == CounterBody() + CounterBody() + [Make(Ret, 0, 0, 0)] && f.returnType == AnyType
    ensures Result(Activation(trusted, f), State(0, seq(3, _ => NULL), [], w)) == Returned(IntValue(1), w)
  {
    hide StepOf, Activation;
    assert f.code[0..3] == CounterBody() && f.code[3..6] == CounterBody() && f.code[6] == Make(Ret, 0, 0, 0);
    assert seq(3, _ => NULL) == [NULL, NULL, NULL];
    var one, two := IntValue(1), IntValue(2);
    assert Int64.Add(0, 1) == 1 && Int64.Add(1, 1) == 2;
    CounterRound(trusted, f, 0, NULL, NULL, NULL, w);
    CounterRound(trusted, f, 3, NULL, NULL, one, w);
    var end := State(6, [one, one, two], [], w);
    ReturnStep(trusted, f, end);
    ResultDone(trusted, f, end, Returned(one, w));
  }

  lemma {:induction false} CounterReturnsOne(trusted: bool, m: Module, base: Env, w: World)
    requires m.functions != []
    requires IsThunk(m.functions[0], CounterBody() + CounterBody() + [Make(Ret, 0, 0, 0)], 3)
    ensures Execute(trusted, m, base, 2, 0, [], None, w) == Returned(IntValue(1), w)
  {
    hide *;
    var f := ThunkRuns(trusted, m, base, 2, 0, CounterBody() + CounterBody() + [Make(Ret, 0, 0, 0)], 3, w);
    CountedTwice(trusted, f, w);
  }

  // The second call finds what the first left in the scratch registers.
  lemma RegistersAreReused(trusted: bool, m: Module, can: seq<bool>, base: Env, w: World)
    requires CallsCounter(m, can)
    ensures Meaning(trusted, m, base, 0, [], None, w) == Returned(NULL, w)
    ensures Meaning(trusted, WithFirst(m, can), base, 0, [], None, w) == Returned(IntValue(1), w)
    ensures !Plainspoken(m, m.functions[1])
  {
    hide Meaning, Execute;
    CounterInlined(m, can);
    CounterReturnsNull(trusted, m, can, base, w);
    CounterReturnsOne(trusted, WithFirst(m, can), base, w);
    MeaningIs(trusted, m, base, 2, 0, [], None, w);
    MeaningIs(trusted, WithFirst(m, can), base, 2, 0, [], None, w);
    NeverAssigned(m.functions[1]);
  }

  lemma NeverAssigned(fn: Function)
    requires IsThunk(fn, [Make(Mov, 0, 1, 0), Make(Inc, 1, 0, 0), Make(Ret, 0, 0, 0)], 2)
    ensures !SelfContained(fn)
  {
    forall d ensures !Assigned(fn.Code(), 0, d) {
      assert 1 in Reads(fn.Code()[0]);
    }
  }
}
