/** Calls of functions that only forward to a foreign function become foreign calls. */
module FfiBypass {
  import opened Int64
  import opened Bytecode
  import opened Machines
  import opened Interpreter
  import opened Steps
  import opened Verifier
  import opened Passes
  import opened CallTypes

  // Moves every parameter up by one, calls a foreign symbol and returns its result.
  predicate Forwards(m: Module, g: nat)
    requires g < |m.functions|
  {
    var fn := m.functions[g];
    var code, n := fn.Code(), fn.paramCount;
    && !fn.isExported && !fn.isVararg && fn.upvalueCount == 0
    && |code| == n + 2 && TryFree(code)
    && (forall k :: 0 <= k < n ==> code[k].op == Mov && code[k].a == k + 1 && code[k].b == k)
    && code[n].op == FfiCall && code[n].a == 0 && code[n].c == n && IsSymbol(m, code[n].b)
    && code[n + 1].op == Ret && code[n + 1].a == 0
  }

  predicate Bypassable(m: Module, i: Instruction) {
    i.op == Call && i.b < |m.functions| && Forwards(m, i.b) && i.c == m.functions[i.b].paramCount
  }

  function Bypassed(m: Module, i: Instruction): Instruction {
    if Bypassable(m, i) then Make(FfiCall, i.a, m.functions[i.b].Code()[i.c].b, i.c) else i
  }

  function BypassedCode(m: Module, code: seq<Instruction>): (code': seq<Instruction>)
    ensures |code'| == |code|
  {
    seq(|code|, p requires 0 <= p < |code| => Bypassed(m, code[p]))
  }

  // A caller after the pass; the forwarders are those of the module as it was.
  function BypassedFunction(m: Module, fn: Function): Function {
    var code := BypassedCode(m, fn.Code());
    if code == fn.Code() then fn else Rebuild(fn, code)
  }

  lemma ForwardedSymbol(m: Module, m': Module, fn: Function, g: Function, p: nat, a: U32, c: U32)
    requires FunctionOk(m, g) && p < |g.Code()| && g.Code()[p].op == FfiCall
    requires m'.constants == m.constants && m'.ffiBindings == m.ffiBindings
    ensures ReferencesFit(m', fn, Make(FfiCall, a, g.Code()[p].b, c))
  {
    hide SignatureOk;
    assert InstructionOk(m, g, g.Code()[p], p, |g.Code()|);
    if m.ffiBindings != [] {
      var symbol := m.constants[g.Code()[p].b].s;
      var k :| 0 <= k < |m.ffiBindings| && m.ffiBindings[k].vmSymbol == symbol;
      assert m'.ffiBindings[k].vmSymbol == symbol;
    }
  }

  // The symbol of the forwarder is as good in the caller.
  lemma BypassedOk(m: Module, m': Module, fn: Function, i: Instruction, p: int, size: nat)
    requires Accepted(m) && InstructionOk(m', fn, i, p, size) && m'.constants == m.constants
    requires m'.ffiBindings == m.ffiBindings
    ensures InstructionOk(m', fn, Bypassed(m, i), p, size)
  {
    hide Accepted, FunctionOk, Bytecode.Function.Code, SignedU32, ReferencesFit, IsSymbol;
    if Bypassable(m, i) {
      AcceptedFunction(m, i.b);
      ForwardedSymbol(m, m', fn, m.functions[i.b], i.c, i.a, i.c);
    }
  }

  // The module once the first `k` callers have been treated.
  ghost predicate PartlyBypassed(m: Module, m': Module, k: nat) {
    && m' == m.(functions := m'.functions) && |m'.functions| == |m.functions|
    && forall j :: 0 <= j < |m.functions| ==>
         m'.functions[j] == if j < k then BypassedFunction(m, m.functions[j]) else m.functions[j]
  }

  lemma CallerBypassed(m: Module, now: Module, next: Module, k: nat)
    requires Accepted(m) && Accepted(now) && PartlyBypassed(m, now, k) && k < |m.functions|
    requires next == now.(functions := now.functions[k := BypassedFunction(m, m.functions[k])])
    ensures Accepted(next) && PartlyBypassed(m, next, k + 1)
  {
    hide Accepted, Bypassed, InstructionOk;
    var fn, code := m.functions[k], m.functions[k].Code();
    AcceptedFunction(now, k);
    if BypassedFunction(m, fn) == fn {
      assert next == now;
    } else {
      assert Recoded(now, next, k);
      forall p | 0 <= p < |code| ensures InstructionOk(now, fn, BypassedCode(m, code)[p], p, |code|) {
        assert InstructionOk(now, fn, code[p], p, |code|);
        BypassedOk(m, now, fn, code[p], p, |code|);
      }
      InstalledOk(now, next, k, BypassedCode(m, code));
      RecodedAccepted(now, next, k);
    }
  }

  method FindForwarders(m: Module) returns (forwards: seq<bool>)
    ensures |forwards| == |m.functions| && forall g :: 0 <= g < |m.functions| ==> (forwards[g] <==> Forwards(m, g))
  {
    hide Forwards;
    forwards := [];
    for g := 0 to |m.functions|
      invariant |forwards| == g && forall j :: 0 <= j < g ==> (forwards[j] <==> Forwards(m, j))
    {
      forwards := forwards + [Forwards(m, g)];
    }
  }

  method BypassCode(
      m: Module, forwards: seq<bool>, code: seq<Instruction>) returns (code': seq<Instruction>, changed: bool)
    requires |forwards| == |m.functions| && forall g :: 0 <= g < |m.functions| ==> (forwards[g] <==> Forwards(m, g))
    ensures code' == BypassedCode(m, code) && (!changed ==> code' == code)
  {
    hide Forwards;
    code', changed := code, false;
    for p := 0 to |code|
      invariant |code'| == |code| && (!changed ==> code' == code)
      invariant forall k :: 0 <= k < p ==> code'[k] == Bypassed(m, code[k])
      invariant forall k :: p <= k < |code| ==> code'[k] == code[k]
    {
      var i := code'[p];
      if i.op == Call && i.b < |forwards| && forwards[i.b] && i.c == m.functions[i.b].paramCount {
        ForwarderCalls(m, i.b);
        code' := code'[p := Make(FfiCall, i.a, m.functions[i.b].Code()[i.c].b, i.c)];
        changed := true;
      }
    }
    assert code' == BypassedCode(m, code);
  }

  lemma ForwarderCalls(m: Module, g: nat)
    requires g < |m.functions| && Forwards(m, g)
    ensures m.functions[g].paramCount < |m.functions[g].Code()|
  {
  }

  // Whatever it bypasses, the module stays acceptable.
  method RunFfiForwarderBypassPass(ws: Workspace)
    requires ws.Valid() && Accepted(ws.View())
    modifies ws`functions
    ensures ws.Valid() && Accepted(ws.View())
    ensures PartlyBypassed(old(ws.View()), ws.View(), |ws.functions|)
  {
    hide Accepted, Forwards, BypassedFunction;
    var m := ws.rest.(functions := ws.functions, constants := ws.constants);
    var forwards := FindForwarders(m);
    for k := 0 to |ws.functions|
      invariant ws.Valid() && Accepted(ws.View()) && PartlyBypassed(m, ws.View(), k)
    {
      ghost var now := ws.View();
      AcceptedFunction(now, k);
      var code, changed := BypassCode(m, forwards, ws.functions[k].Code());
      if changed && code != ws.functions[k].Code() {
        ws.Install(k, code);
      }
      assert ws.functions == now.functions[k := BypassedFunction(m, m.functions[k])] by {
        BypassedDefinition(m, m.functions[k]);
      }
      CallerBypassed(m, now, ws.View(), k);
    }
  }

  lemma BypassedDefinition(m: Module, fn: Function)
    ensures BypassedFunction(m, fn) ==
      if BypassedCode(m, fn.Code()) == fn.Code() then fn else Rebuild(fn, BypassedCode(m, fn.Code()))
  {
  }

  // ---- What a forwarder passes on -----------------------------------------------------------------

  // Each move copies what the move before has written: every argument becomes the first.
  function Repeated(args: seq<Value>): seq<Value> { seq(|args|, _ requires args != [] => args[0]) }

  function ForwardedSymbolOf(m: Module, g: nat): string
    requires g < |m.functions| && Forwards(m, g)
  {
    m.constants[m.functions[g].Code()[m.functions[g].paramCount].b].s
  }

  // The first `k` moves done.
  function Spread(regs: seq<Value>, k: nat): (r: seq<Value>)
    requires regs != []
    ensures |r| == |regs|
  {
    seq(|regs|, r requires 0 <= r < |regs| => if 1 <= r <= k then regs[0] else regs[r])
  }

  lemma SpreadMore(regs: seq<Value>, k: nat)
    requires k + 1 < |regs|
    ensures Spread(regs, k)[k + 1 := Spread(regs, k)[k]] == Spread(regs, k + 1) && Spread(regs, 0) == regs
  {
  }

  lemma {:induction false} MovesForward(trusted: bool, f: Frame, n: nat, regs: seq<Value>, w: World, k: nat)
    requires k <= n < |f.code| && n < |regs|
    requires forall j :: 0 <= j < n ==> f.code[j].op == Mov && f.code[j].a == j + 1 && f.code[j].b == j
    ensures Result(Activation(trusted, f), State(0, regs, [], w))
         == Result(Activation(trusted, f), State(k, Spread(regs, k), [], w))
  {
    hide StepOf, Activation;
    if k == 0 {
      assert Spread(regs, 0) == regs;
    } else {
      MovesForward(trusted, f, n, regs, w, k - 1);
      var s := State(k - 1, Spread(regs, k - 1), [], w);
      SpreadMore(regs, k - 1);
      ComputeStep(trusted, f, s);
      ResultNext(trusted, f, s, State(k, Spread(regs, k), [], w));
    }
  }

  lemma ForeignStep(trusted: bool, f: Frame, s: State, o: Outcome)
    requires InCode(f, s) && s.tries == [] && s.regs != []
    requires var i := f.code[s.pc];
             && i.op == FfiCall && i.a == 0
             && Symbol(f, i.b).Some? && WindowOk(AddU32(0, 1), i.c, |s.regs|)
             && o == f.env.ask(CallNative(f.functionIndex, Symbol(f, i.b).value, Window(AddU32(0, 1), i.c, s.regs)),
                 s.world)
    ensures StepOf(trusted, f, s) ==
              if o.Returned? then Next(s.(pc := s.pc + 1, regs := s.regs[0 := o.value], world := o.world)) else Done(o)
  {
    hide Exec, ExecCompute, ExecBranch, ExecTry, ExecCall, ExecLoadK, ExecString, ExecVarArg, ExecEnd, StepOf, Window,
         WindowOk, Symbol;
    ExecGroups(trusted, f, s);
    StepIs(trusted, f, s);
  }

  // A foreign call and the return behind it.
  lemma CallThenReturn(trusted: bool, f: Frame, s: State, o: Outcome)
    requires 0 <= s.pc && s.pc + 1 < |f.code| && s.tries == [] && s.regs != []
    requires var i, j := f.code[s.pc], f.code[s.pc + 1];
             && i.op == FfiCall && i.a == 0 && j.op == Ret && j.a == 0
             && Symbol(f, i.b).Some? && WindowOk(AddU32(0, 1), i.c, |s.regs|)
             && o == f.env.ask(CallNative(f.functionIndex, Symbol(f, i.b).value, Window(AddU32(0, 1), i.c, s.regs)),
                 s.world)
    ensures Result(Activation(trusted, f), s) == Checked(o, f.returnType)
  {
    hide StepOf, Activation, Window, WindowOk, Symbol, Matches;
    ForeignStep(trusted, f, s, o);
    match o {
      case Returned(v, w) =>
        var t := s.(pc := s.pc + 1, regs := s.regs[0 := v], world := w);
        ResultNext(trusted, f, s, t);
        ReturnStep(trusted, f, t);
        ResultDone(trusted, f, t, Checked(o, f.returnType));
      case _ => ResultDone(trusted, f, s, o);
    }
  }

  lemma ForwarderShape(m: Module, g: nat)
    requires Accepted(m) && g < |m.functions| && Forwards(m, g)
    ensures m.functions[g].paramCount < m.functions[g].regCount
  {
    hide Accepted;
    AcceptedFunction(m, g);
    var fn := m.functions[g];
    assert InstructionOk(m, fn, fn.Code()[fn.paramCount], fn.paramCount, |fn.Code()|);
  }

  // An admitted call of a forwarder is answered as its foreign function answers it, asked with
  // the first argument in every place.
  lemma ForwarderAnswers(trusted: bool, m: Module, e: Env, g: nat, args: seq<Value>, w: World)
    requires Accepted(m) && g < |m.functions| && Forwards(m, g) && Admit(m, g, args).None?
    ensures Activate(trusted, m, e, g, args, None, w)
         == Checked(e.ask(CallNative(g, ForwardedSymbolOf(m, g), Repeated(args)), w), m.functions[g].returnType)
  {
    hide Activation, StepOf, Accepted, Checked, Spread, Window, WindowOk;
    ForwarderShape(m, g);
    var fn, n := m.functions[g], m.functions[g].paramCount;
    var f, regs := FrameOf(m, g, None, [], e), EntryRegs(fn.regCount, args);
    MovesForward(trusted, f, n, regs, w, n);
    SpreadWindow(args, n, fn.regCount);
    CallThenReturn(trusted, f, State(n, Spread(regs, n), [], w),
                   e.ask(CallNative(g, ForwardedSymbolOf(m, g), Repeated(args)), w));
  }

  lemma SpreadWindow(args: seq<Value>, n: nat, regCount: nat)
    requires |args| == n < regCount
    ensures WindowOk(AddU32(0, 1), n, regCount)
    ensures Window(AddU32(0, 1), n, Spread(EntryRegs(regCount, args), n)) == Repeated(args)
  {
  }

  // Foreign functions that answer whoever asks.
  ghost predicate AnswersAnyone(e: Env) {
    forall fi: nat, g: nat, symbol, args, w ::
      e.ask(CallNative(fi, symbol, args), w) == e.ask(CallNative(g, symbol, args), w)
  }

  // One that tells one list of arguments from all others.
  function Telling(symbol: string, args: seq<Value>): Env {
    Env((q: Request, w: World) =>
          Returned(if q.CallNative? && q.symbol == symbol && q.args == args then IntValue(1) else NULL, w),
        (_, _) => None)
  }

  // Bypassing an untyped forwarder, with foreign functions that answer whoever asks, gives the
  // answer of the call if and only if the arguments are all the same.  None or one always are.
  lemma BypassExact(trusted: bool, m: Module, fi: nat, g: nat, args: seq<Value>, w: World)
    requires Accepted(m) && g < |m.functions| && Forwards(m, g) && Admit(m, g, args).None?
    requires m.functions[g].returnType == AnyType
    ensures (forall e :: AnswersAnyone(e) ==>
               Activate(trusted, m, e, g, args, None, w) == e.ask(CallNative(fi, ForwardedSymbolOf(m, g), args), w))
        <==> args == Repeated(args)
    ensures |args| <= 1 ==> args == Repeated(args)
  {
    hide Accepted, Activate, Forwards, Admit;
    var symbol := ForwardedSymbolOf(m, g);
    forall e ensures Activate(trusted, m, e, g, args, None, w) == e.ask(CallNative(g, symbol, Repeated(args)), w) {
      ForwarderAnswers(trusted, m, e, g, args, w);
    }
    if args != Repeated(args) {
      var e := Telling(symbol, args);
      assert AnswersAnyone(e);
      assert e.ask(CallNative(fi, symbol, args), w) == Returned(IntValue(1), w);
      assert e.ask(CallNative(g, symbol, Repeated(args)), w) == Returned(NULL, w);
    }
  }
}
