/** What every optimizer pass works on, and how a rewritten function is carried back into
    its module. */
module Passes {
  import opened Int64
  import opened Bytecode
  import opened Machines
  import opened Interpreter
  import opened Runs
  import opened Verifier
  import opened TrustedMode
  import opened KnownValues

  // `m'` is `m` with function `fi` recoded (perhaps over more registers) and constants
  // appended.
  ghost predicate Recoded(m: Module, m': Module, fi: nat) {
    && fi < |m.functions|
    && m' == m.(functions := m'.functions, constants := m'.constants)
    && |m'.functions| == |m.functions| && m.constants <= m'.constants
    && (forall k :: 0 <= k < |m.functions| && k != fi ==> m'.functions[k] == m.functions[k])
    && var f, f' := m.functions[fi], m'.functions[fi];
       f' == f.(blocks := f'.blocks, regCount := f'.regCount) && f.regCount <= f'.regCount
  }

  // The new code of function `fi` behaves like the old one, whatever the arguments it admits,
  // the world and the environment.
  ghost predicate SameFunction(trusted: bool, m: Module, m': Module, fi: nat)
    requires fi < |m.functions| && fi < |m'.functions|
  {
    forall closure, varargs, env, args, w :: Admit(m, fi, args).None? ==>
      Result(Activation(trusted, FrameOf(m, fi, closure, varargs, env)),
             EntryState(m.functions[fi].regCount, args, w))
      == Result(Activation(trusted, FrameOf(m', fi, closure, varargs, env)),
                EntryState(m'.functions[fi].regCount, args, w))
  }

  lemma RecodedInstruction(m: Module, m': Module, fi: nat, fn: Function, i: Instruction, pc: int, size: nat)
    requires Recoded(m, m', fi) && InstructionOk(m, fn, i, pc, size)
    ensures InstructionOk(m', fn, i, pc, size)
  {
    assert forall k :: 0 <= k < |m.functions| ==>
        m'.functions[k].isVararg == m.functions[k].isVararg
        && m'.functions[k].paramCount == m.functions[k].paramCount
        && m'.functions[k].upvalueCount == m.functions[k].upvalueCount;
    assert IsSymbol(m, i.b) ==> IsSymbol(m', i.b) && m'.constants[i.b] == m.constants[i.b];
    assert m'.ffiBindings == m.ffiBindings;
    hide RegistersFit, TargetsFit;
  }

  // Acceptability looks at a function's registers, upvalues and variadicity only.
  lemma SameSignatureOk(m: Module, fn: Function, fn': Function, i: Instruction, pc: int, size: nat)
    requires InstructionOk(m, fn, i, pc, size)
    requires fn'.regCount == fn.regCount && fn'.upvalueCount == fn.upvalueCount && fn'.isVararg == fn.isVararg
    ensures InstructionOk(m, fn', i, pc, size)
  {
  }

  // Recoding a function with acceptable code leaves the whole module acceptable.
  lemma RecodedAccepted(m: Module, m': Module, fi: nat)
    requires Accepted(m) && Recoded(m, m', fi)
    requires CodeOk(m', m'.functions[fi], m'.functions[fi].Code())
    ensures Accepted(m')
  {
    assert forall k :: 0 <= k < |m.functions| ==>
        m'.functions[k].isVararg == m.functions[k].isVararg
        && m'.functions[k].paramCount == m.functions[k].paramCount
        && m'.functions[k].isExported == m.functions[k].isExported
        && m'.functions[k].name == m.functions[k].name;
    forall k | 0 <= k < |m'.functions| ensures FunctionOk(m', m'.functions[k]) {
      assert FunctionOk(m, m.functions[k]);
      if k != fi {
        var code := m.functions[k].Code();
        forall pc | 0 <= pc < |code| ensures InstructionOk(m', m'.functions[k], code[pc], pc, |code|) {
          RecodedInstruction(m, m', fi, m.functions[k], code[pc], pc, |code|);
        }
      }
    }
    forall k | 0 <= k < |m'.classes| ensures ClassOk(m', m'.classes[k]) {
      assert ClassOk(m, m.classes[k]);
      var c := m.classes[k];
      forall j | 0 <= j < |c.bases| ensures IsClass(m', c.bases[j]) { assert IsClass(m, c.bases[j]); }
      forall j | 0 <= j < |c.methods| ensures MethodOk(m', c.methods[j]) { assert MethodOk(m, c.methods[j]); }
    }
    forall k | 0 <= k < |m'.ffiBindings| ensures BindingOk(m', m'.ffiBindings[k]) {
      assert BindingOk(m, m.ffiBindings[k]);
    }
  }

  lemma AcceptedFunction(m: Module, fi: nat)
    requires Accepted(m) && fi < |m.functions|
    ensures FunctionOk(m, m.functions[fi])
  {
  }

  // Code accepted for a function is accepted for its recoded successor.
  lemma InstalledOk(m: Module, m': Module, fi: nat, code: seq<Instruction>)
    requires Recoded(m, m', fi) && m'.functions[fi].regCount == m.functions[fi].regCount
    requires CodeOk(m, m.functions[fi], code)
    ensures CodeOk(m', m'.functions[fi], code)
  {
    forall pc | 0 <= pc < |code| ensures InstructionOk(m', m'.functions[fi], code[pc], pc, |code|) {
      assert InstructionOk(m, m.functions[fi], code[pc], pc, |code|);
      RecodedInstruction(m, m', fi, m.functions[fi], code[pc], pc, |code|);
      SameSignatureOk(m', m.functions[fi], m'.functions[fi], code[pc], pc, |code|);
    }
  }

  // Code that is kept behaves as it did, over the extended constants.
  lemma KeptRun(trusted: bool, m: Module, fn: Function, f: Frame, f': Frame, s: State)
    requires Carries(m, fn, f) && Recodes(f, f') && f'.code == f.code
    ensures Result(Activation(trusted, f), s) == Result(Activation(trusted, f'), s)
  {
    forall t | InCode(f, t) ensures StepOf(trusted, f, t) == StepOf(trusted, f', t) {
      KeptStep(trusted, m, fn, f, f', t);
    }
    AgreeingResults(Activation(trusted, f), Activation(trusted, f'), t => true, s);
  }

  // The same in one environment.
  ghost predicate SameIn(trusted: bool, m: Module, m': Module, fi: nat, env: Env)
    requires fi < |m.functions| && fi < |m'.functions|
  {
    forall closure, varargs, args, w :: Admit(m, fi, args).None? ==>
      Result(Activation(trusted, FrameOf(m, fi, closure, varargs, env)),
             EntryState(m.functions[fi].regCount, args, w))
      == Result(Activation(trusted, FrameOf(m', fi, closure, varargs, env)),
                EntryState(m'.functions[fi].regCount, args, w))
  }

  lemma SameFunctionIn(trusted: bool, m: Module, m': Module, fi: nat, env: Env)
    requires fi < |m.functions| && fi < |m'.functions| && SameFunction(trusted, m, m', fi)
    ensures SameIn(trusted, m, m', fi, env)
  {
    hide Activation, Admit, EntryState;
  }

  lemma RecodedActivation(
      trusted: bool, m: Module, m': Module, fi: nat, env: Env, k: nat, args: seq<Value>, closure: Option<I64>, w: World)
    requires Accepted(m) && Accepted(m') && Recoded(m, m', fi) && SameIn(trusted, m, m', fi, env)
    ensures Activate(trusted, m, env, k, args, closure, w) == Activate(trusted, m', env, k, args, closure, w)
  {
    hide Accepted, Activation, Matches;
    if k < |m.functions| {
      AcceptedFunction(m, k);
      AcceptedFunction(m', k);
      hide CodeOk;
      var fn := m.functions[k];
      assert Admit(m, k, args) == Admit(m', k, args);
      if Admit(m, k, args).None? && k != fi {
        var varargs := if fn.isVararg then args[fn.paramCount..] else [];
        KeptRun(trusted, m, fn, FrameOf(m, k, closure, varargs, env), FrameOf(m', k, closure, varargs, env),
                EntryState(fn.regCount, args, w));
      }
    }
  }

  // A function that behaves alike makes a module that behaves alike.
  lemma RecodedActivations(trusted: bool, m: Module, m': Module, fi: nat)
    requires Accepted(m) && Accepted(m') && Recoded(m, m', fi) && SameFunction(trusted, m, m', fi)
    ensures SameActivations(trusted, m, trusted, m')
  {
    hide Accepted, FunctionOk, CodeOk, Activation, SameFunction;
    forall env, k: nat, args, closure, w
      ensures Activate(trusted, m, env, k, args, closure, w) == Activate(trusted, m', env, k, args, closure, w)
    {
      SameFunctionIn(trusted, m, m', fi, env);
      RecodedActivation(trusted, m, m', fi, env, k, args, closure, w);
    }
  }

  // Whole executions are alike if the function behaves alike in the environments they meet.
  lemma {:induction false} RecodedExecutions(
      trusted: bool, m: Module, m': Module, fi: nat, base: Env, ok: Env -> bool, d: nat,
      k: nat, args: seq<Value>, closure: Option<I64>, w: World)
    requires Accepted(m) && Accepted(m') && Recoded(m, m', fi)
    requires forall j: nat :: ok(EnvAt(trusted, m, base, j))
    requires forall env :: ok(env) ==> SameIn(trusted, m, m', fi, env)
    ensures Execute(trusted, m, base, d, k, args, closure, w) == Execute(trusted, m', base, d, k, args, closure, w)
    decreases d
  {
    hide Activate, Accepted, SameIn, Recoded;
    if d > 0 {
      var e, e' := EnvAt(trusted, m, base, d - 1), EnvAt(trusted, m', base, d - 1);
      forall q: Request, v: World ensures e.ask(q, v) == e'.ask(q, v) {
        if q.CallFunction? {
          RecodedExecutions(trusted, m, m', fi, base, ok, d - 1, q.callee, q.args, q.closure, v);
        }
      }
      RecodedActivation(trusted, m, m', fi, e, k, args, closure, w);
      ActivateRefines(trusted, m', e, e', k, args, closure, w);
      ActivateRefines(trusted, m', e', e, k, args, closure, w);
    }
  }

  // Code that is left alone.
  lemma SameCode(trusted: bool, m: Module, m': Module, fi: nat)
    requires Accepted(m) && Recoded(m, m', fi) && m'.functions[fi].regCount == m.functions[fi].regCount
    requires m'.functions[fi].Code() == m.functions[fi].Code()
    ensures SameFunction(trusted, m, m', fi)
  {
    var fn := m.functions[fi];
    AcceptedFunction(m, fi);
    forall closure, varargs, env, args, w
      ensures Result(Activation(trusted, FrameOf(m, fi, closure, varargs, env)), EntryState(fn.regCount, args, w))
           == Result(Activation(trusted, FrameOf(m', fi, closure, varargs, env)), EntryState(fn.regCount, args, w))
    {
      KeptRun(trusted, m, fn, FrameOf(m, fi, closure, varargs, env), FrameOf(m', fi, closure, varargs, env),
              EntryState(fn.regCount, args, w));
    }
  }

  // ---- The module being optimized ---------------------------------------------------------

  // The optimizer's working state: the module's functions and constant pool, changed in
  // place, and the cache from integers to their constant's index.
  class Workspace {
    const rest: Module
    var functions: seq<Function>
    var constants: seq<Constant>
    var int64Cache: map<I64, U32>

    ghost function View(): Module
      reads this
    {
      rest.(functions := functions, constants := constants)
    }

    ghost predicate Valid()
      reads this
    {
      forall v :: v in int64Cache ==>
        int64Cache[v] < |constants| && (Indexable(constants) ==> constants[int64Cache[v]] == IntConst(v))
    }

    constructor (m: Module)
      requires Indexable(m.constants)
      ensures Valid() && View() == m
    {
      rest := m;
      functions := m.functions;
      constants := m.constants;
      int64Cache := map[];
      new;
      for i := 0 to |constants|
        invariant Valid() && functions == m.functions && constants == m.constants
        modifies this
      {
        if constants[i].IntConst? { int64Cache := int64Cache[constants[i].v := i]; }
      }
    }

    // The index of an integer constant, appended to the pool if the cache has none.
    method GetOrAddInt64Constant(v: I64) returns (index: U32)
      requires Valid()
      modifies this`constants, this`int64Cache
      ensures Valid() && old(constants) <= constants && |constants| <= old(|constants|) + 1
      ensures index < |constants| && (Indexable(constants) ==> constants[index] == IntConst(v))
    {
      if v in int64Cache { return int64Cache[v]; }
      constants := constants + [IntConst(v)];
      index := (|constants| - 1) % 0x1_0000_0000;
      int64Cache := int64Cache[v := index];
    }

    // Carries out one rewrite.
    method Apply(r: Rewrite, i: Instruction) returns (i': Instruction)
      requires Valid()
      modifies this`constants, this`int64Cache
      ensures Valid() && old(constants) <= constants && |constants| <= old(|constants|) + 1
      ensures Realizes(r, i, i', constants)
    {
      match r
      case Keep => i' := i;
      case LoadInt(v) =>
        var index := GetOrAddInt64Constant(v);
        i' := Make(LoadK, i.a, index, 0);
      case AlwaysJump => i' := Make(Jmp, i.b, 0, 0);
      case NeverJump => i' := NOP;
    }

    // Puts new code in a function.
    method Install(fi: nat, code: seq<Instruction>)
      requires fi < |functions| && code != []
      modifies this`functions
      ensures functions == old(functions)[fi := Rebuild(old(functions)[fi], code)]
    {
      functions := functions[fi := Rebuild(functions[fi], code)];
    }
  }

  lemma RealizedLater(r: Rewrite, i: Instruction, i': Instruction, constants: seq<Constant>, constants': seq<Constant>)
    requires Realizes(r, i, i', constants) && constants <= constants'
    ensures Realizes(r, i, i', constants')
  {
  }
}
