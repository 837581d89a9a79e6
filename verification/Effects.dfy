/** What one step of accepted code may change: the registers it names and nothing else, and
    the string table only by growing. */
module Effects {
  import opened Int64
  import opened Bytecode
  import opened Machines
  import opened Interpreter
  import opened Steps
  import opened Runs
  import opened Verifier
  import opened TrustedMode

  // InstructionWritesReg.
  predicate WritesReg(i: Instruction, r: int) {
    if IsCompute(i.op) then i.a == r
    else
      match i.op
      case LoadK | StrLen | StrConcat | Call | CallClosure | FfiCall | Closure | GetUpval | NewObject | Invoke
         | DecJnz | SubImmJnz | AddImmJnz => i.a == r
      case AddDecJnz => i.a == r || i.b == r
      case VarArg => i.c > 0 && (i.a == r || i.a <= r < AddU32(i.a, i.c))
      case _ => false
  }

  // The environment never forgets an interned string.
  ghost predicate GrowsStrings(e: Env) {
    forall q: Request, w: World ::
      match e.ask(q, w)
      case Returned(_, w') => w.strings <= w'.strings
      case Failed(_, w') => w.strings <= w'.strings
      case Thrown(_, w') => w.strings <= w'.strings
      case Undefined => true
      case Diverges => true
  }

  ghost predicate ChangesOnly(f: Frame, i: Instruction, s: State, e: Effect) {
    e.Go? ==>
      && |e.s.regs| == |s.regs|
      && (forall r :: 0 <= r < |s.regs| && !WritesReg(i, r) ==> e.s.regs[r] == s.regs[r])
      && (GrowsStrings(f.env) ==> s.world.strings <= e.s.world.strings)
  }

  lemma {:induction false} VarArgChanges(trusted: bool, f: Frame, i: Instruction, k: nat, s: State)
    requires i.op == VarArg && k <= i.c && (i.c > 0 ==> WindowFits(i.a, i.c - 1, |s.regs|)) && |s.regs| < 0x1_0000
    ensures ChangesOnly(f, i, s, ExecVarArg(trusted, f, i, k, s))
    decreases i.c - k
  {
    hide GrowsStrings;
    if k < i.c {
      var r := AddU32(i.a, k);
      assert r == i.a + k && r < |s.regs| && WritesReg(i, r);
      var source := AddU32(i.b, k);
      var t := s.(regs := s.regs[r := if source < |f.varargs| then f.varargs[source] else NULL]);
      hide WritesReg, AddU32;
      VarArgChanges(trusted, f, i, k + 1, t);
      assert ExecVarArg(trusted, f, i, k, s) == ExecVarArg(trusted, f, i, k + 1, t);
    }
  }

  // Registers after values have been written from register `a` on.
  function Filled(regs: seq<Value>, a: nat, vs: seq<Value>): (r: seq<Value>)
    requires a + |vs| <= |regs|
    ensures |r| == |regs|
    ensures forall k :: 0 <= k < |regs| ==> r[k] == if a <= k < a + |vs| then vs[k - a] else regs[k]
  {
    regs[..a] + vs + regs[a + |vs|..]
  }

  // The surplus arguments a variadic copy reads, nulls where there are none.
  function Surplus(f: Frame, i: Instruction): (vs: seq<Value>)
    ensures |vs| == i.c
  {
    seq(i.c, k requires 0 <= k < i.c =>
      var source := AddU32(i.b, k); if source < |f.varargs| then f.varargs[source] else NULL)
  }

  // A variadic copy fills its window with them.
  lemma {:induction false} VarArgFills(trusted: bool, f: Frame, i: Instruction, k: nat, s: State)
    requires i.op == VarArg && k <= i.c && i.a + i.c <= |s.regs| < 0x1_0000
    requires forall j :: 0 <= j < k ==> s.regs[i.a + j] == Surplus(f, i)[j]
    ensures ExecVarArg(trusted, f, i, k, s) == Go(s.(pc := s.pc + 1, regs := Filled(s.regs, i.a, Surplus(f, i))))
    decreases i.c - k
  {
    hide *;
    if k == i.c {
      VarArgDone(trusted, f, i, s);
      FilledWhole(s.regs, i.a, Surplus(f, i));
    } else {
      VarArgFillsOne(trusted, f, i, k, s);
      FilledAlready(s.regs, i.a, Surplus(f, i), k);
      VarArgFills(trusted, f, i, k + 1, s.(regs := s.regs[i.a + k := Surplus(f, i)[k]]));
    }
  }

  lemma VarArgFillsOne(trusted: bool, f: Frame, i: Instruction, k: nat, s: State)
    requires i.op == VarArg && k < i.c && i.a + i.c <= |s.regs| < 0x1_0000
    ensures ExecVarArg(trusted, f, i, k, s)
         == ExecVarArg(trusted, f, i, k + 1, s.(regs := s.regs[i.a + k := Surplus(f, i)[k]]))
  {
    assert AddU32(i.a, k) == i.a + k;
    hide AddU32;
  }

  lemma VarArgDone(trusted: bool, f: Frame, i: Instruction, s: State)
    ensures ExecVarArg(trusted, f, i, i.c, s) == Go(s.(pc := s.pc + 1))
  {
  }

  lemma FilledWhole(regs: seq<Value>, a: nat, vs: seq<Value>)
    requires a + |vs| <= |regs| && forall k :: 0 <= k < |vs| ==> regs[a + k] == vs[k]
    ensures Filled(regs, a, vs) == regs
  {
  }

  lemma FilledAlready(regs: seq<Value>, a: nat, vs: seq<Value>, k: nat)
    requires a + |vs| <= |regs| && k < |vs|
    ensures Filled(regs[a + k := vs[k]], a, vs) == Filled(regs, a, vs)
  {
  }

  lemma CallChanges(trusted: bool, f: Frame, i: Instruction, s: State)
    requires IsCall(i.op) && RegistersFit(i, |s.regs|)
    ensures ChangesOnly(f, i, s, ExecCall(trusted, f, i, s))
  {
    WindowsFit(i.a, i.c, |s.regs|);
  }

  lemma ForeignChanges(trusted: bool, f: Frame, i: Instruction, s: State)
    requires IsForeign(i.op) && RegistersFit(i, |s.regs|)
    ensures ChangesOnly(f, i, s, ExecForeign(trusted, f, i, s))
  {
    hide Window;
  }

  lemma BranchChanges(trusted: bool, f: Frame, i: Instruction, s: State)
    requires IsRelativeJump(i.op) && RegistersFit(i, |s.regs|)
    ensures ChangesOnly(f, i, s, ExecBranch(trusted, |f.code|, i, s))
  {
  }

  lemma GroupsChange(trusted: bool, f: Frame, i: Instruction, s: State)
    requires RegistersFit(i, |s.regs|)
    ensures IsCompute(i.op) ==> ChangesOnly(f, i, s, ExecCompute(trusted, i, s))
    ensures IsTryOpcode(i.op) ==> ChangesOnly(f, i, s, ExecTry(|f.code|, i, s))
    ensures i.op == LoadK ==> ChangesOnly(f, i, s, ExecLoadK(trusted, f, i, s))
    ensures i.op == StrLen || i.op == StrConcat ==> ChangesOnly(f, i, s, ExecString(trusted, i, s))
    ensures ChangesOnly(f, i, s, ExecEnd(trusted, f, i, s)) && ChangesOnly(f, i, s, Go(s.(pc := s.pc + 1)))
    ensures ChangesOnly(f, i, s, Raise(UnknownOpcode, s))
  {
    hide Compute, Operand1, Operand2, GrowsStrings, Resolve, Matches;
  }

  lemma OtherChanges(trusted: bool, f: Frame, s: State)
    requires InCode(f, s) && RegistersFit(f.code[s.pc], |s.regs|)
    requires var op := f.code[s.pc].op; !IsCall(op) && !IsForeign(op) && !IsRelativeJump(op) && op != VarArg
    ensures ChangesOnly(f, f.code[s.pc], s, Exec(trusted, f, s))
  {
    ExecGroups(trusted, f, s);
    GroupsChange(trusted, f, f.code[s.pc], s);
    hide *;
  }

  lemma ExecChanges(trusted: bool, m: Module, fn: Function, f: Frame, s: State)
    requires Carries(m, fn, f) && InCode(f, s) && |s.regs| == fn.regCount
    ensures ChangesOnly(f, f.code[s.pc], s, Exec(trusted, f, s))
  {
    var i := f.code[s.pc];
    assert InstructionOk(m, fn, i, s.pc, |f.code|);
    hide ExecCall, ExecForeign, ExecBranch, ExecVarArg, ExecCompute, ExecTry, ExecLoadK, ExecString, ExecEnd,
         ChangesOnly, RegistersFit;
    if IsCall(i.op) {
      CallChanges(trusted, f, i, s);
    } else if IsForeign(i.op) {
      ForeignChanges(trusted, f, i, s);
    } else if IsRelativeJump(i.op) {
      BranchChanges(trusted, f, i, s);
    } else if i.op == VarArg {
      VarArgWindow(i, |s.regs|);
      VarArgChanges(trusted, f, i, 0, s);
    } else {
      OtherChanges(trusted, f, s);
    }
  }

  lemma VarArgWindow(i: Instruction, n: nat)
    requires i.op == VarArg && RegistersFit(i, n)
    ensures i.c > 0 ==> WindowFits(i.a, i.c - 1, n)
  {
  }

  // Without handlers a step that goes on is an effect that goes on.
  lemma StepChanges(trusted: bool, m: Module, fn: Function, f: Frame, s: State)
    requires Carries(m, fn, f) && InCode(f, s) && |s.regs| == fn.regCount
    requires s.tries == [] && !IsTryOpcode(f.code[s.pc].op)
    ensures StepOf(trusted, f, s).Next? ==>
              && ChangesOnly(f, f.code[s.pc], s, Go(StepOf(trusted, f, s).s))
              && StepOf(trusted, f, s).s.tries == []
  {
    hide Exec, ChangesOnly;
    ExecChanges(trusted, m, fn, f, s);
    ExecKeepsTries(trusted, f, s);
  }
}
