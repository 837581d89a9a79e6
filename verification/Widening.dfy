/** More registers than an instruction needs make no difference to it. */
module Widening {
  import opened Int64
  import opened Bytecode
  import opened Machines
  import opened Interpreter
  import opened Runs
  import opened Verifier
  import opened TrustedMode
  import opened Relocation

  // An effect over a longer register file, seen from another place.
  function Widened(e: Effect, tail: seq<Value>, next: int, here: int): Effect {
    match e
    case Go(t) => Go(t.(pc := next, regs := t.regs + tail))
    case Stop(o) => e
    case Raise(fault, t) => Raise(fault, t.(pc := here, regs := t.regs + tail))
  }

  function Wide(u: State, tail: seq<Value>, p: int): State { u.(pc := p, regs := u.regs + tail) }

  lemma WriteWidened(trusted: bool, u: State, tail: seq<Value>, p: int, r: U32, x: Value)
    requires r < |u.regs|
    ensures Write(trusted, Wide(u, tail, p), r, x) == Widened(Write(trusted, u, r, x), tail, p + 1, p)
  {
    assert (u.regs + tail)[r := x] == u.regs[r := x] + tail;
  }

  lemma ReceiveWidened(trusted: bool, u: State, tail: seq<Value>, p: int, r: U32, o: Outcome)
    requires r < |u.regs|
    ensures Receive(trusted, Wide(u, tail, p), r, o) == Widened(Receive(trusted, u, r, o), tail, p + 1, p)
  {
    if o.Returned? { WriteWidened(trusted, u.(world := o.world), tail, p, r, o.value); }
    hide Write;
  }

  lemma WindowWidened(base: U32, count: nat, regs: seq<Value>, tail: seq<Value>)
    requires WindowOk(base, count, |regs|)
    ensures WindowOk(base, count, |regs + tail|)
    ensures Window(base, count, regs + tail) == Window(base, count, regs)
  {
    forall k | 0 <= k < count ensures Window(base, count, regs + tail)[k] == Window(base, count, regs)[k] {
      assert AddU32(base, k) < |regs|;
    }
  }

  lemma ComputeWidened(trusted: bool, i: Instruction, u: State, tail: seq<Value>, p: int)
    requires IsCompute(i.op) && RegistersFit(i, |u.regs|)
    ensures ExecCompute(trusted, i, Wide(u, tail, p)) == Widened(ExecCompute(trusted, i, u), tail, p + 1, p)
  {
    hide Compute;
    var r := Compute(i, u.regs[Operand1(i)], u.regs[Operand2(i)]);
    if r.Some? { WriteWidened(trusted, u, tail, p, i.a, r.value); }
    hide Write;
  }

  lemma LoadWidened(trusted: bool, f: Frame, f': Frame, i: Instruction, u: State, tail: seq<Value>, p: int)
    requires i.op == LoadK && i.a < |u.regs| && f'.constants == f.constants
    ensures ExecLoadK(trusted, f', i, Wide(u, tail, p)) == Widened(ExecLoadK(trusted, f, i, u), tail, p + 1, p)
  {
    hide Intern;
    if i.b < |f.constants| {
      match f.constants[i.b] {
        case IntConst(v) => WriteWidened(trusted, u, tail, p, i.a, IntValue(v));
        case FloatConst(bits) => WriteWidened(trusted, u, tail, p, i.a, Value(TFloat64, bits));
        case Utf8Const(str) =>
          var (v, w) := Intern(u.world, str);
          WriteWidened(trusted, u.(world := w), tail, p, i.a, v);
      }
    }
    hide Write;
  }

  lemma StringWidened(trusted: bool, i: Instruction, u: State, tail: seq<Value>, p: int)
    requires (i.op == StrLen || i.op == StrConcat) && RegistersFit(i, |u.regs|)
    ensures ExecString(trusted, i, Wide(u, tail, p)) == Widened(ExecString(trusted, i, u), tail, p + 1, p)
  {
    hide Intern, Resolve;
    var x := Resolve(u.world, u.regs[i.b]);
    if x.Some? {
      if i.op == StrLen {
        WriteWidened(trusted, u, tail, p, i.a, IntValue(Wrap(|x.value|)));
      } else {
        var y := Resolve(u.world, u.regs[i.c]);
        if y.Some? {
          var (s, w) := Intern(u.world, x.value + y.value);
          WriteWidened(trusted, u.(world := w), tail, p, i.a, s);
        }
      }
    }
    hide Write;
  }

  lemma CallWidened(trusted: bool, f: Frame, f': Frame, i: Instruction, u: State, tail: seq<Value>, p: int)
    requires IsCall(i.op) && RegistersFit(i, |u.regs|) && f' == f.(code := f'.code)
    ensures ExecCall(trusted, f', i, Wide(u, tail, p)) == Widened(ExecCall(trusted, f, i, u), tail, p + 1, p)
  {
    WindowsFit(i.a, i.c, |u.regs|);
    WindowWidened(AddU32(i.a, 1), i.c, u.regs, tail);
    forall o: Outcome
      ensures Receive(trusted, Wide(u, tail, p), i.a, o) == Widened(Receive(trusted, u, i.a, o), tail, p + 1, p)
    {
      ReceiveWidened(trusted, u, tail, p, i.a, o);
    }
    hide Receive, Window;
  }

  lemma ForeignWidened(trusted: bool, f: Frame, f': Frame, i: Instruction, u: State, tail: seq<Value>, p: int)
    requires IsForeign(i.op) && RegistersFit(i, |u.regs|) && f' == f.(code := f'.code)
    ensures ExecForeign(trusted, f', i, Wide(u, tail, p)) == Widened(ExecForeign(trusted, f, i, u), tail, p + 1, p)
  {
    if i.op == Closure {
      CapturesFit(i.c, i.flags, |u.regs|);
      WindowWidened(i.c, i.flags, u.regs, tail);
    } else if i.op == FfiCall || i.op == Invoke {
      WindowsFit(i.a, i.c, |u.regs|);
      WindowWidened(AddU32(i.a, 1), i.c, u.regs, tail);
    }
    forall o: Outcome
      ensures Receive(trusted, Wide(u, tail, p), i.a, o) == Widened(Receive(trusted, u, i.a, o), tail, p + 1, p)
    {
      ReceiveWidened(trusted, u, tail, p, i.a, o);
    }
    hide Receive, Window;
  }

  lemma {:induction false} VarArgWidened(
      trusted: bool, f: Frame, f': Frame, i: Instruction, k: nat, u: State, tail: seq<Value>, p: int)
    requires k <= i.c && (i.c > 0 ==> WindowFits(i.a, i.c - 1, |u.regs|)) && f'.varargs == f.varargs
    ensures ExecVarArg(trusted, f', i, k, Wide(u, tail, p)) == Widened(ExecVarArg(trusted, f, i, k, u), tail, p + 1, p)
    decreases i.c - k
  {
    if k < i.c {
      var source := AddU32(i.b, k);
      var v := if source < |f.varargs| then f.varargs[source] else NULL;
      var r := AddU32(i.a, k);
      assert r < |u.regs|;
      assert (u.regs + tail)[r := v] == u.regs[r := v] + tail;
      VarArgWidened(trusted, f, f', i, k + 1, u.(regs := u.regs[r := v]), tail, p);
    }
  }

  // Any accepted instruction but a jump or try instruction, over more registers.
  lemma ExecWidened(
      trusted: bool, m: Module, fn: Function, f: Frame, f': Frame, u: State, tail: seq<Value>, p: int)
    requires InCode(f, u) && |u.regs| == fn.regCount && InstructionOk(m, fn, f.code[u.pc], u.pc, |f.code|)
    requires 0 <= p < |f'.code| && f'.code[p] == f.code[u.pc] && f' == f.(code := f'.code)
    requires !IsRelativeJump(f.code[u.pc].op) && !IsTryOpcode(f.code[u.pc].op)
    ensures Exec(trusted, f', Wide(u, tail, p)) == Widened(Exec(trusted, f, u), tail, p + 1, p)
  {
    hide ExecCall, ExecForeign, ExecVarArg, ExecTry, ExecBranch, ExecCompute, ExecString, ExecLoadK;
    var i := f.code[u.pc];
    if IsCompute(i.op) {
      ComputeWidened(trusted, i, u, tail, p);
    } else if IsCall(i.op) {
      CallWidened(trusted, f, f', i, u, tail, p);
    } else if IsForeign(i.op) {
      ForeignWidened(trusted, f, f', i, u, tail, p);
    } else if i.op == VarArg {
      VarArgWidened(trusted, f, f', i, 0, u, tail, p);
    } else if i.op == LoadK {
      LoadWidened(trusted, f, f', i, u, tail, p);
    } else if i.op == StrLen || i.op == StrConcat {
      StringWidened(trusted, i, u, tail, p);
    }
  }

  lemma StepWidened(
      trusted: bool, m: Module, fn: Function, f: Frame, f': Frame, u: State, tail: seq<Value>, p: int)
    requires InCode(f, u) && |u.regs| == fn.regCount && InstructionOk(m, fn, f.code[u.pc], u.pc, |f.code|)
    requires 0 <= p < |f'.code| && f'.code[p] == f.code[u.pc] && f' == f.(code := f'.code) && u.tries == []
    requires !IsRelativeJump(f.code[u.pc].op) && !IsTryOpcode(f.code[u.pc].op)
    ensures match StepOf(trusted, f, u)
            case Done(o) => StepOf(trusted, f', Wide(u, tail, p)) == Done(o)
            case Next(t) => (t.pc == u.pc + 1 && t.tries == []
                             && StepOf(trusted, f', Wide(u, tail, p)) == Next(Wide(t, tail, p + 1)))
  {
    hide Exec;
    ExecWidened(trusted, m, fn, f, f', u, tail, p);
    ExecFallsThrough(trusted, f, u);
    ExecKeepsTries(trusted, f, u);
  }

  lemma UpdateLonger(regs: seq<Value>, tail: seq<Value>, r: nat, v: Value)
    requires r < |regs|
    ensures (regs + tail)[r := v] == regs[r := v] + tail
  {
  }

  lemma BranchLonger(i: Instruction, regs: seq<Value>, tail: seq<Value>)
    requires IsRelativeJump(i.op) && BranchRegsOk(i, |regs|)
    ensures BranchRegsOk(i, |regs + tail|)
    ensures Branch(i, regs + tail) == Branched(Branch(i, regs).regs + tail, Branch(i, regs).taken)
  {
    hide Int64.Add, Int64.Sub, SignedU32;
    if i.op == AddDecJnz {
      var b, b' := Branch(i, regs).regs, Branch(i, regs + tail).regs;
      UpdateLonger(regs, tail, i.a, IntValue(Int64.Add(regs[i.a].bits, regs[i.b].bits)));
      UpdateLonger(regs[i.a := IntValue(Int64.Add(regs[i.a].bits, regs[i.b].bits))], tail, i.b,
                   IntValue(Int64.Sub(regs[i.b].bits, 1)));
    } else if i.op != Jmp {
      UpdateLonger(regs, tail, i.a, Branch(i, regs).regs[i.a]);
    }
  }

  // A jump over more registers, to another place.
  lemma BranchWidened(i: Instruction, i': Instruction, regs: seq<Value>, tail: seq<Value>)
    requires IsRelativeJump(i.op) && BranchRegsOk(i, |regs|)
    requires -0x8000_0000 <= JumpDelta(i') < 0x8000_0000 && i' == WithJumpDelta(i, JumpDelta(i'))
    ensures BranchRegsOk(i', |regs + tail|)
    ensures Branch(i', regs + tail) == Branched(Branch(i, regs).regs + tail, Branch(i, regs).taken)
  {
    BranchRetargeted(i, i', regs);
    BranchLonger(i', regs, tail);
    hide *;
  }
}
