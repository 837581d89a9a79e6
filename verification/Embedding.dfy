/** A register file embedded in a larger one: an instruction with its registers shifted does
    to the embedded copy what the original does to the original. */
module Embedding {
  import opened Int64
  import opened Bytecode
  import opened Machines
  import opened Interpreter
  import opened Runs
  import opened Verifier
  import opened TrustedMode
  import opened Effects
  import opened Inline

  // The registers an inline-safe instruction reads.
  function Reads(i: Instruction): set<int> {
    if IsCompute(i.op) then {Operand1(i), Operand2(i)}
    else
      match i.op
      case JmpIf | JmpIfZero | JmpIfNotZero | DecJnz | SubImmJnz | AddImmJnz | Ret => {i.a}
      case AddDecJnz => {i.a, i.b}
      case StrLen => {i.b}
      case StrConcat => {i.b, i.c}
      case _ => {}
  }

  // The registers in `d` are found again in `v`, `base` further.
  ghost predicate Mirrors(d: set<int>, base: nat, n: nat, u: State, v: State) {
    && |u.regs| == n && base + n <= |v.regs| && u.world == v.world && u.tries == v.tries == []
    && forall r :: r in d && 0 <= r < n ==> v.regs[base + r] == u.regs[r]
  }

  // Outside the embedded file nothing differs.
  predicate SameAround(base: nat, n: nat, before: seq<Value>, after: seq<Value>) {
    && |before| == |after|
    && forall q :: 0 <= q < |before| && !(base <= q < base + n) ==> after[q] == before[q]
  }

  ghost predicate Follow(i: Instruction, d: set<int>, base: nat, n: nat, u: State, v: State, e: Effect, e': Effect) {
    match e
    case Go(t) =>
      && e'.Go? && e'.s.pc - v.pc == t.pc - u.pc
      && Mirrors(d + (set r: int | 0 <= r < n && WritesReg(i, r)), base, n, t, e'.s)
      && SameAround(base, n, v.regs, e'.s.regs)
    case Raise(fault, t) => e'.Raise? && e'.fault == fault && e'.s.world == t.world && t.tries == e'.s.tries == []
    case Stop(o) => false
  }

  // Writing one register, in both files.
  lemma WriteShifted(
      trusted: bool, i: Instruction, base: nat, d: set<int>, n: nat, u: State, v: State, x: Value, w: World, r: U32)
    requires Mirrors(d, base, n, u, v) && i.a < n && r == base + i.a
    requires forall q: int :: WritesReg(i, q) <==> q == i.a
    ensures Follow(i, d, base, n, u, v,
                   Write(trusted, u.(world := w), i.a, x), Write(trusted, v.(world := w), r, x))
  {
    hide WritesReg;
  }

  // What the operands of a shifted computation are.
  lemma ComputeMirrored(i: Instruction, base: nat, d: set<int>, n: nat, u: State, v: State)
    requires IsCompute(i.op) && RegistersFit(i, n) && base + n <= 0x1_0000
    requires Reads(i) <= d && Mirrors(d, base, n, u, v)
    ensures var i' := RemapRegs(i, base);
            && i'.op == i.op && i'.a == i.a + base
            && Operand1(i) < n && Operand2(i) < n && Operand1(i') < |v.regs| && Operand2(i') < |v.regs|
            && u.regs[Operand1(i)] == v.regs[Operand1(i')] && u.regs[Operand2(i)] == v.regs[Operand2(i')]
  {
    hide RemapRegs, Operand1, Operand2;
    OperandsShifted(i, base);
    assert Operand1(i) in Reads(i) && Operand2(i) in Reads(i);
  }

  lemma OperandsShifted(i: Instruction, base: nat)
    requires IsCompute(i.op)
    ensures var i' := RemapRegs(i, base);
            && i'.op == i.op && i'.a == AddU32(i.a, base)
            && Operand1(i') == AddU32(Operand1(i), base) && Operand2(i') == AddU32(Operand2(i), base)
  {
    hide AddU32;
  }

  lemma SameComputation(i: Instruction, base: nat, x: Value, y: Value)
    requires IsCompute(i.op) && IsCompute(RemapRegs(i, base).op)
    ensures Compute(RemapRegs(i, base), x, y) == Compute(i, x, y)
  {
    hide IntBinary;
  }

  lemma ComputeShifted(trusted: bool, i: Instruction, base: nat, d: set<int>, n: nat, u: State, v: State)
    requires IsCompute(i.op) && RegistersFit(i, n) && base + n <= 0x1_0000
    requires Reads(i) <= d && Mirrors(d, base, n, u, v)
    ensures Follow(i, d, base, n, u, v, ExecCompute(trusted, i, u), ExecCompute(trusted, RemapRegs(i, base), v))
  {
    var i' := RemapRegs(i, base);
    ComputeMirrored(i, base, d, n, u, v);
    hide Reads, RemapRegs, Operand1, Operand2, Compute;
    var x, y := u.regs[Operand1(i)], u.regs[Operand2(i)];
    SameComputation(i, base, x, y);
    assert u.(world := u.world) == u && v.(world := u.world) == v;
    hide Write;
    if Compute(i, x, y).Some? {
      WriteShifted(trusted, i, base, d, n, u, v, Compute(i, x, y).value, u.world, i'.a);
    }
  }

  lemma DeltaRemapped(i: Instruction, base: nat)
    requires IsRelativeJump(i.op)
    ensures RemapRegs(i, base).op == i.op && JumpDelta(RemapRegs(i, base)) == JumpDelta(i)
  {
    hide SignedU32, AddU32;
  }

  lemma BranchShifted(
      trusted: bool, i: Instruction, base: nat, d: set<int>, n: nat, u: State, v: State, size: nat, size': nat)
    requires IsRelativeJump(i.op) && RegistersFit(i, n) && base + n <= 0x1_0000
    requires Reads(i) <= d && Mirrors(d, base, n, u, v)
    requires 0 <= u.pc + JumpDelta(i) < size && 0 <= v.pc + JumpDelta(i) < size'
    ensures Follow(i, d, base, n, u, v, ExecBranch(trusted, size, i, u),
            ExecBranch(trusted, size', RemapRegs(i, base), v))
  {
    hide Branch, RemapRegs, JumpDelta, RegistersFit, Reads, IsRelativeJump;
    DeltaRemapped(i, base);
    BranchMirrored(i, base, d, n, u, v);
  }

  lemma BranchMirrored(i: Instruction, base: nat, d: set<int>, n: nat, u: State, v: State)
    requires IsRelativeJump(i.op) && RegistersFit(i, n) && base + n <= 0x1_0000
    requires Reads(i) <= d && Mirrors(d, base, n, u, v)
    ensures BranchRegsOk(RemapRegs(i, base), |v.regs|) && BranchRegsOk(i, n)
    ensures Branch(RemapRegs(i, base), v.regs).taken == Branch(i, u.regs).taken
    ensures SameAround(base, n, v.regs, Branch(RemapRegs(i, base), v.regs).regs)
    ensures forall r :: 0 <= r < n && (r in d || WritesReg(i, r)) ==>
              Branch(RemapRegs(i, base), v.regs).regs[base + r] == Branch(i, u.regs).regs[r]
  {
    var i' := RemapRegs(i, base);
    if i.op != Jmp { assert i.a in Reads(i); }
    if i.op == AddDecJnz { assert i.b in Reads(i); }
    BranchRemapped(i, base, n);
    hide Reads, RemapRegs, RegistersFit, Int64.Add, Int64.Sub, SignedU32, IsRelativeJump;
    if i.op == AddDecJnz {
      assert u.regs[i.b] == v.regs[i'.b] && u.regs[i.a] == v.regs[i'.a];
    } else if i.op != Jmp {
      assert u.regs[i.a] == v.regs[i'.a];
    }
  }

  lemma BranchRemapped(i: Instruction, base: nat, n: nat)
    requires IsRelativeJump(i.op) && RegistersFit(i, n) && base + n <= 0x1_0000
    ensures var i' := RemapRegs(i, base);
            && i'.op == i.op && BranchRegsOk(i, n)
            && (i.op != Jmp ==> i'.a == i.a + base)
            && (if i.op == AddDecJnz then i'.b == i.b + base else i'.b == i.b)
  {
  }

  lemma LoadRemapped(i: Instruction, base: nat)
    requires i.op == LoadK && i.a + base < 0x1_0000
    ensures RemapRegs(i, base) == i.(a := i.a + base)
  {
  }

  lemma LoadShifted(
      trusted: bool, f: Frame, f': Frame, i: Instruction, base: nat, d: set<int>, n: nat, u: State, v: State)
    requires i.op == LoadK && i.a < n && i.b < |f.constants| && base + n <= 0x1_0000
    requires f'.constants == f.constants && Mirrors(d, base, n, u, v)
    ensures Follow(i, d, base, n, u, v, ExecLoadK(trusted, f, i, u), ExecLoadK(trusted, f', RemapRegs(i, base), v))
  {
    hide RemapRegs, Write, Intern, Follow, AddU32;
    var i' := RemapRegs(i, base);
    LoadRemapped(i, base);
    assert u.(world := u.world) == u && v.(world := u.world) == v;
    match f.constants[i.b] {
      case IntConst(x) => WriteShifted(trusted, i, base, d, n, u, v, IntValue(x), u.world, i'.a);
      case FloatConst(bits) => WriteShifted(trusted, i, base, d, n, u, v, Value(TFloat64, bits), u.world, i'.a);
      case Utf8Const(str) =>
        var (x, w) := Intern(u.world, str);
        WriteShifted(trusted, i, base, d, n, u, v, x, w, i'.a);
    }
  }

  lemma StringRemapped(i: Instruction, base: nat, n: nat)
    requires (i.op == StrLen || i.op == StrConcat) && RegistersFit(i, n) && base + n <= 0x1_0000
    ensures var i' := RemapRegs(i, base);
            && i'.op == i.op && i'.a == i.a + base && i'.b == i.b + base
            && (i.op == StrConcat ==> i'.c == i.c + base)
  {
  }

  lemma StringMirrored(i: Instruction, base: nat, d: set<int>, n: nat, u: State, v: State)
    requires (i.op == StrLen || i.op == StrConcat) && RegistersFit(i, n) && base + n <= 0x1_0000
    requires Reads(i) <= d && Mirrors(d, base, n, u, v)
    ensures var i' := RemapRegs(i, base);
            && i'.op == i.op && i'.a == i.a + base && i.a < n && i.b < n && i'.b < |v.regs|
            && u.regs[i.b] == v.regs[i'.b]
            && (i.op == StrConcat ==> i.c < n && i'.c < |v.regs| && u.regs[i.c] == v.regs[i'.c])
  {
    hide RemapRegs, AddU32;
    StringRemapped(i, base, n);
    assert i.b in Reads(i);
    if i.op == StrConcat { assert i.c in Reads(i); }
  }

  lemma StringShifted(trusted: bool, i: Instruction, base: nat, d: set<int>, n: nat, u: State, v: State)
    requires (i.op == StrLen || i.op == StrConcat) && RegistersFit(i, n) && base + n <= 0x1_0000
    requires Reads(i) <= d && Mirrors(d, base, n, u, v)
    ensures Follow(i, d, base, n, u, v, ExecString(trusted, i, u), ExecString(trusted, RemapRegs(i, base), v))
  {
    var i' := RemapRegs(i, base);
    StringMirrored(i, base, d, n, u, v);
    hide Reads, RemapRegs, RegistersFit, Resolve, Intern, Write;
    assert u.(world := u.world) == u && v.(world := u.world) == v;
    var x := Resolve(u.world, u.regs[i.b]);
    if x.Some? {
      if i.op == StrLen {
        WriteShifted(trusted, i, base, d, n, u, v, IntValue(Wrap(|x.value|)), u.world, i'.a);
      } else {
        var y := Resolve(u.world, u.regs[i.c]);
        if y.Some? {
          var (s, w) := Intern(u.world, x.value + y.value);
          WriteShifted(trusted, i, base, d, n, u, v, s, w, i'.a);
        }
      }
    }
  }

  // One step of an inline-safe instruction other than a return, shifted.
  lemma ShiftedStep(
      trusted: bool, m: Module, fn: Function, f: Frame, f': Frame, base: nat, d: set<int>, u: State, v: State)
    requires f.constants == f'.constants == m.constants && InCode(f, u) && InCode(f', v)
    requires IsInlineSafe(f.code[u.pc].op) && f.code[u.pc].op != Ret && base + fn.regCount <= 0x1_0000
    requires InstructionOk(m, fn, f.code[u.pc], u.pc, |f.code|)
    requires f'.code[v.pc] == RemapRegs(f.code[u.pc], base)
    requires Reads(f.code[u.pc]) <= d && Mirrors(d, base, fn.regCount, u, v)
    requires IsRelativeJump(f.code[u.pc].op) ==> 0 <= v.pc + JumpDelta(f.code[u.pc]) < |f'.code|
    ensures match StepOf(trusted, f, u)
            case Done(o) => o.Thrown? && StepOf(trusted, f', v) == Done(o)
            case Next(t) =>
              && StepOf(trusted, f', v).Next?
              && var t' := StepOf(trusted, f', v).s;
                 && t'.pc - v.pc == t.pc - u.pc
                 && Mirrors(d + (set r: int | 0 <= r < fn.regCount && WritesReg(f.code[u.pc], r)), base, fn.regCount,
                     t, t')
                 && SameAround(base, fn.regCount, v.regs, t'.regs)
  {
    hide ExecCompute, ExecBranch, ExecLoadK, ExecString, ExecTry, ExecCall, ExecForeign, ExecVarArg, ExecEnd,
         WritesReg, Reads, Settle, SameAround;
    var i, n := f.code[u.pc], fn.regCount;
    ShiftedOk(m, fn, i, u.pc, |f.code|, base);
    hide RemapRegs, InstructionOk, Carries, RegistersFit, JumpDelta;
    if IsCompute(i.op) {
      ComputeShifted(trusted, i, base, d, n, u, v);
    } else if IsRelativeJump(i.op) {
      BranchShifted(trusted, i, base, d, n, u, v, |f.code|, |f'.code|);
    } else if i.op == LoadK {
      LoadShifted(trusted, f, f', i, base, d, n, u, v);
    } else if i.op == StrLen || i.op == StrConcat {
      StringShifted(trusted, i, base, d, n, u, v);
    } else {
      NopFollows(i, d, base, n, u, v);
    }
    FollowSettles(i, d, base, n, u, v, Exec(trusted, f, u), Exec(trusted, f', v));
  }

  lemma NopFollows(i: Instruction, d: set<int>, base: nat, n: nat, u: State, v: State)
    requires i.op == Nop && Mirrors(d, base, n, u, v)
    ensures Follow(i, d, base, n, u, v, Go(u.(pc := u.pc + 1)), Go(v.(pc := v.pc + 1)))
  {
  }

  lemma ShiftedOk(m: Module, fn: Function, i: Instruction, pc: int, size: nat, base: nat)
    requires InstructionOk(m, fn, i, pc, size)
    ensures RemapRegs(i, base).op == i.op && RegistersFit(i, fn.regCount)
    ensures IsRelativeJump(i.op) ==> 0 <= pc + JumpDelta(i) < size
    ensures i.op == LoadK ==> i.a < fn.regCount && i.b < |m.constants|
  {
    hide AddU32;
  }

  lemma FollowSettles(
      i: Instruction, d: set<int>, base: nat, n: nat, u: State, v: State, e: Effect, e': Effect)
    requires Follow(i, d, base, n, u, v, e, e')
    ensures match Settle(e)
            case Done(o) => o.Thrown? && Settle(e') == Done(o)
            case Next(t) =>
              && Settle(e').Next?
              && var t' := Settle(e').s;
                 && t'.pc - v.pc == t.pc - u.pc
                 && Mirrors(d + (set r: int | 0 <= r < n && WritesReg(i, r)), base, n, t, t')
                 && SameAround(base, n, v.regs, t'.regs)
  {
    hide Mirrors, SameAround, WritesReg;
  }
}
