/** The dispatch loop as it runs: program counter, registers, interned strings and try stack
    updated in place, with exceptions looked up by popping the stack. */
module Thread {
  import opened Int64
  import opened Bytecode
  import opened Machines
  import opened Interpreter

  // How an instruction leaves the loop body: it goes on, ends the activation, or throws.
  datatype Turn = Onward | Ends(o: Outcome) | Throws(fault: Fault)

  function EffectOf(turn: Turn, s: State): Effect {
    match turn
    case Onward => Go(s)
    case Ends(o) => Stop(o)
    case Throws(fault) => Raise(fault, s)
  }

  // What touching a register that does not exist comes to.
  function NoRegister(trusted: bool): Turn { if trusted then Ends(Undefined) else Throws(RegisterBounds) }

  class VmThread {
    var pc: int
    var regs: seq<Value>
    var tries: seq<TryFrame>
    var world: World

    function View(): State
      reads this
    {
      State(pc, regs, tries, world)
    }

    constructor (s: State)
      ensures View() == s
    {
      pc, regs, tries, world := s.pc, s.regs, s.tries, s.world;
    }

    // Pops frames until one takes the exception.
    method Handle(fault: Fault) returns (handled: bool)
      modifies this
      ensures handled <==> Unwind(fault, old(View())).Some?
      ensures handled ==> View() == Unwind(fault, old(View())).value
      ensures !handled ==> View() == old(View()).(tries := [])
    {
      while tries != []
        invariant View() == old(View()).(tries := tries)
        invariant Unwind(fault, View()) == Unwind(fault, old(View()))
        decreases |tries|
      {
        var k := |tries| - 1;
        var current := tries[k];
        if current.inFinally {
          tries := tries[..k];
        } else if !current.inCatch && current.catchTarget != INVALID_TRY_TARGET {
          tries := tries[k := current.(inCatch := true, pending := Some(fault), rethrow := false)];
          pc := current.catchTarget;
          return true;
        } else if current.finallyTarget != INVALID_TRY_TARGET {
          tries := tries[k := current.(inCatch := false, inFinally := true, pending := Some(fault), rethrow := true)];
          pc := current.finallyTarget;
          return true;
        } else {
          tries := tries[..k];
        }
      }
      handled := false;
    }

    // The try instructions; an exception is returned rather than thrown.
    method ExecuteTry(i: Instruction, size: nat) returns (thrown: Option<Fault>)
      requires IsTryOpcode(i.op)
      modifies this
      ensures ExecTry(size, i, old(View())) ==
                if thrown.Some? then Raise(thrown.value, View()) else Go(View())
    {
      if i.op == Opcode.TryBegin {
        if !TryTargetOk(i.a, size) || !TryTargetOk(i.b, size) || i.c >= size || i.c == INVALID_TRY_TARGET {
          return Some(TryRange);
        }
        tries := tries + [TryFrame(i.a, i.b, i.c, false, false, false, None)];
        pc := pc + 1;
        return None;
      }
      if tries == [] { return Some(NoTryFrame(i.op)); }
      var k := |tries| - 1;
      var current := tries[k];
      if i.op == EndFinally {
        tries := tries[..k];
        if current.rethrow && current.pending.Some? { return current.pending; }
        pc := current.endTarget;
      } else if current.finallyTarget != INVALID_TRY_TARGET {
        tries := tries[k := current.(inCatch := false, inFinally := true, rethrow := false, pending := None)];
        pc := current.finallyTarget;
      } else {
        tries := tries[..k];
        pc := current.endTarget;
      }
      thrown := None;
    }

    // Writes a register and goes to the next instruction.
    method Store(trusted: bool, r: U32, v: Value) returns (turn: Turn)
      modifies this`pc, this`regs
      ensures EffectOf(turn, View()) == Write(trusted, old(View()), r, v)
    {
      if r >= |regs| { return NoRegister(trusted); }
      regs := regs[r := v];
      pc := pc + 1;
      turn := Onward;
    }

    method ExecuteCompute(trusted: bool, i: Instruction) returns (turn: Turn)
      requires IsCompute(i.op)
      modifies this`pc, this`regs
      ensures EffectOf(turn, View()) == ExecCompute(trusted, i, old(View()))
    {
      hide Compute, Operand1, Operand2;
      if Operand1(i) >= |regs| || Operand2(i) >= |regs| { return NoRegister(trusted); }
      var v := Compute(i, regs[Operand1(i)], regs[Operand2(i)]);
      if v.None? { return Throws(DivisionByZero); }
      turn := Store(trusted, i.a, v.value);
    }

    // Counts where the jump counts, and tells whether it is taken.
    method Decide(i: Instruction) returns (taken: bool)
      requires IsRelativeJump(i.op) && BranchRegsOk(i, |regs|)
      modifies this`regs
      ensures Branched(regs, taken) == Branch(i, old(regs))
    {
      match i.op
      case Jmp => taken := true;
      case JmpIf => taken := Truthy(regs[i.a]);
      case JmpIfZero => taken := regs[i.a].bits == 0;
      case JmpIfNotZero => taken := regs[i.a].bits != 0;
      case DecJnz =>
        regs := regs[i.a := IntValue(Int64.Sub(regs[i.a].bits, 1))];
        taken := regs[i.a].bits != 0;
      case AddDecJnz =>
        var next := Int64.Sub(regs[i.b].bits, 1);
        regs := regs[i.a := IntValue(Int64.Add(regs[i.a].bits, regs[i.b].bits))];
        regs := regs[i.b := IntValue(next)];
        taken := next != 0;
      case SubImmJnz =>
        regs := regs[i.a := IntValue(Int64.Sub(regs[i.a].bits, SignedU32(i.b)))];
        taken := regs[i.a].bits != 0;
      case AddImmJnz =>
        regs := regs[i.a := IntValue(Int64.Add(regs[i.a].bits, SignedU32(i.b)))];
        taken := regs[i.a].bits != 0;
    }

    method ExecuteBranch(trusted: bool, i: Instruction, size: nat) returns (turn: Turn)
      requires IsRelativeJump(i.op)
      modifies this`pc, this`regs
      ensures EffectOf(turn, View()) == ExecBranch(trusted, size, i, old(View()))
    {
      hide Branch, JumpDelta;
      if !BranchRegsOk(i, |regs|) { return NoRegister(trusted); }
      var taken := Decide(i);
      if !taken {
        pc := pc + 1;
      } else if trusted || 0 <= pc + JumpDelta(i) < size {
        pc := pc + JumpDelta(i);
      } else {
        return Throws(JumpRange(i.op));
      }
      turn := Onward;
    }

    // The index of an interned string, interned now if it was not.
    method InternString(str: string) returns (v: Value)
      modifies this`world
      ensures (v, world) == Intern(old(world), str)
    {
      var k := Find(world.strings, str);
      if k == |world.strings| { world := world.(strings := world.strings + [str]); }
      v := StringValue(k);
    }

    method ExecuteLoadK(trusted: bool, f: Frame, i: Instruction) returns (turn: Turn)
      modifies this`pc, this`regs, this`world
      ensures EffectOf(turn, View()) == ExecLoadK(trusted, f, i, old(View()))
    {
      hide Intern;
      if i.b >= |f.constants| { return Throws(ConstantBounds); }
      match f.constants[i.b] {
        case IntConst(n) => turn := Store(trusted, i.a, IntValue(n));
        case FloatConst(bits) => turn := Store(trusted, i.a, Value(TFloat64, bits));
        case Utf8Const(str) =>
          var v := InternString(str);
          turn := Store(trusted, i.a, v);
      }
    }

    method ExecuteString(trusted: bool, i: Instruction) returns (turn: Turn)
      modifies this`pc, this`regs, this`world
      ensures EffectOf(turn, View()) == ExecString(trusted, i, old(View()))
    {
      hide Intern, Resolve;
      if i.b >= |regs| { return NoRegister(trusted); }
      var x := Resolve(world, regs[i.b]);
      if x.None? { return Throws(NotAString); }
      if i.op == StrLen {
        turn := Store(trusted, i.a, IntValue(Wrap(|x.value|)));
        return;
      }
      if i.c >= |regs| { return NoRegister(trusted); }
      var y := Resolve(world, regs[i.c]);
      if y.None? { return Throws(NotAString); }
      var v := InternString(x.value + y.value);
      turn := Store(trusted, i.a, v);
    }

    // Copies surplus arguments one by one.
    method ExecuteVarArg(trusted: bool, f: Frame, i: Instruction) returns (turn: Turn)
      modifies this`pc, this`regs
      ensures EffectOf(turn, View()) == ExecVarArg(trusted, f, i, 0, old(View()))
    {
      for k := 0 to i.c
        invariant ExecVarArg(trusted, f, i, k, View()) == ExecVarArg(trusted, f, i, 0, old(View()))
      {
        var source, r := AddU32(i.b, k), AddU32(i.a, k);
        if r >= |regs| { return NoRegister(trusted); }
        regs := regs[r := if source < |f.varargs| then f.varargs[source] else NULL];
      }
      pc := pc + 1;
      turn := Onward;
    }

    method ExecuteEnd(trusted: bool, f: Frame, i: Instruction) returns (turn: Turn)
      ensures EffectOf(turn, View()) == ExecEnd(trusted, f, i, View())
    {
      var v := NULL;
      if i.op != Halt {
        if i.a >= |regs| { return NoRegister(trusted); }
        v := regs[i.a];
        if i.op == Throw { return Throws(UserThrow(v)); }
      }
      turn := Ends(if Matches(v, f.returnType) then Returned(v, world) else Failed(ReturnTypeMismatch, world));
    }

    // Gathers the registers base .. base + count - 1, if all exist.
    method Arguments(base: U32, count: nat) returns (args: Option<seq<Value>>)
      ensures args.Some? <==> WindowOk(base, count, |regs|)
      ensures args.Some? ==> args.value == Window(base, count, regs)
    {
      var gathered: seq<Value> := [];
      for k := 0 to count
        invariant |gathered| == k
        invariant forall j :: 0 <= j < k ==> AddU32(base, j) < |regs| && gathered[j] == regs[AddU32(base, j)]
      {
        if AddU32(base, k) >= |regs| { return None; }
        gathered := gathered + [regs[AddU32(base, k)]];
      }
      args := Some(gathered);
    }

    // Stores what a request was answered with, or ends the way the request did.
    method Accept(trusted: bool, r: U32, o: Outcome) returns (turn: Turn)
      modifies this`pc, this`regs, this`world
      ensures EffectOf(turn, View()) == Receive(trusted, old(View()), r, o)
    {
      match o {
        case Returned(v, w) =>
          world := w;
          turn := Store(trusted, r, v);
        case Thrown(fault, w) =>
          world := w;
          turn := Throws(fault);
        case _ => turn := Ends(o);
      }
    }

    // Ends with the answer.
    method PassOn(o: Outcome) returns (turn: Turn)
      modifies this`world
      ensures EffectOf(turn, View()) == Forward(old(View()), o)
    {
      if o.Thrown? {
        world := o.world;
        turn := Throws(o.fault);
      } else {
        turn := Ends(o);
      }
    }

    method ExecuteCall(trusted: bool, f: Frame, i: Instruction) returns (turn: Turn)
      requires IsCall(i.op)
      modifies this`pc, this`regs, this`world
      ensures EffectOf(turn, View()) == ExecCall(trusted, f, i, old(View()))
    {
      hide WindowOk, Window, Receive, Forward;
      var target: nat, closure: Option<I64> := i.b, None;
      if i.op == CallClosure || i.op == TailCallClosure {
        if i.b >= |regs| { return NoRegister(trusted); }
        var callee := regs[i.b];
        if callee.tag != TClosure { return Throws(NotAClosure); }
        var found := f.env.closureTarget(callee.bits, world);
        if found.None? { return Throws(ClosureMissing); }
        target, closure := found.value, Some(callee.bits);
      }
      var args := Arguments(AddU32(i.a, 1), i.c);
      if args.None? { return NoRegister(trusted); }
      var o := f.env.ask(CallFunction(target, args.value, closure), world);
      if i.op == TailCall || i.op == TailCallClosure {
        turn := PassOn(o);
      } else {
        turn := Accept(trusted, i.a, o);
      }
    }

    // Closures and upvalues.
    method ExecuteClosure(trusted: bool, f: Frame, i: Instruction) returns (turn: Turn)
      requires i.op == Closure || i.op == GetUpval || i.op == SetUpval
      modifies this`pc, this`regs, this`world
      ensures EffectOf(turn, View()) == ExecForeign(trusted, f, i, old(View()))
    {
      hide WindowOk, Window, Receive, Forward;
      if i.op == Closure {
        if i.b >= f.functionCount { return Throws(ClosureIndex); }
        var args := Arguments(i.c, i.flags);
        if args.None? { return NoRegister(trusted); }
        turn := Accept(trusted, i.a, f.env.ask(MakeClosure(i.b, args.value), world));
        return;
      }
      if f.closure.None? { return Throws(NoClosureContext); }
      if i.op == GetUpval {
        turn := Accept(trusted, i.a, f.env.ask(ReadUpvalue(f.closure.value, i.b), world));
        return;
      }
      if i.a >= |regs| { return NoRegister(trusted); }
      var o := f.env.ask(WriteUpvalue(f.closure.value, i.b, regs[i.a]), world);
      if o.Returned? {
        world := o.world;
        pc := pc + 1;
        turn := Onward;
      } else {
        turn := PassOn(o);
      }
    }

    // Native functions, objects and methods, named by a constant.
    method ExecuteNamed(trusted: bool, f: Frame, i: Instruction) returns (turn: Turn)
      requires i.op == FfiCall || i.op == NewObject || i.op == Invoke
      modifies this`pc, this`regs, this`world
      ensures EffectOf(turn, View()) == ExecForeign(trusted, f, i, old(View()))
    {
      hide WindowOk, Window, Receive, Forward, Symbol;
      var name := Symbol(f, i.b);
      if name.None? { return Throws(SymbolConstant); }
      if i.op == NewObject {
        turn := Accept(trusted, i.a, f.env.ask(CreateObject(name.value), world));
        return;
      }
      if i.op == Invoke {
        if i.a >= |regs| { return NoRegister(trusted); }
        if regs[i.a].tag != TObject { return Ends(Thrown(NotAnObject, world)); }
      }
      var args := Arguments(AddU32(i.a, 1), i.c);
      if args.None? { return NoRegister(trusted); }
      var request := if i.op == FfiCall then CallNative(f.functionIndex, name.value, args.value)
                     else CallMethod(regs[i.a].bits, name.value, args.value);
      turn := Accept(trusted, i.a, f.env.ask(request, world));
    }

    method ExecuteOther(trusted: bool, f: Frame, inst: Instruction) returns (turn: Turn)
      requires InCode(f, View()) && inst == f.code[pc]
      requires !IsCompute(inst.op) && !IsRelativeJump(inst.op) && !IsTryOpcode(inst.op) && !IsCall(inst.op)
      modifies this`pc, this`regs, this`world
      ensures EffectOf(turn, View()) == Exec(trusted, f, old(View()))
    {
      hide ExecCompute, ExecBranch, ExecTry, ExecCall, ExecForeign, ExecLoadK, ExecString, ExecVarArg, ExecEnd;
      match inst.op {
        case Nop =>
          pc := pc + 1;
          turn := Onward;
        case LoadK => turn := ExecuteLoadK(trusted, f, inst);
        case StrLen | StrConcat => turn := ExecuteString(trusted, inst);
        case VarArg => turn := ExecuteVarArg(trusted, f, inst);
        case Ret | Throw | Halt => turn := ExecuteEnd(trusted, f, inst);
        case Closure | GetUpval | SetUpval => turn := ExecuteClosure(trusted, f, inst);
        case FfiCall | NewObject | Invoke => turn := ExecuteNamed(trusted, f, inst);
        case _ => turn := Throws(UnknownOpcode);
      }
    }

    // The switch.
    method ExecuteInstruction(trusted: bool, f: Frame) returns (turn: Turn)
      requires InCode(f, View())
      modifies this
      ensures EffectOf(turn, View()) == Exec(trusted, f, old(View()))
    {
      hide ExecCompute, ExecBranch, ExecTry, ExecCall, ExecForeign, ExecLoadK, ExecString, ExecVarArg, ExecEnd;
      var inst := f.code[pc];
      if IsCompute(inst.op) {
        turn := ExecuteCompute(trusted, inst);
      } else if IsRelativeJump(inst.op) {
        turn := ExecuteBranch(trusted, inst, |f.code|);
      } else if IsTryOpcode(inst.op) {
        var thrown := ExecuteTry(inst, |f.code|);
        turn := if thrown.Some? then Throws(thrown.value) else Onward;
      } else if IsCall(inst.op) {
        turn := ExecuteCall(trusted, f, inst);
      } else {
        turn := ExecuteOther(trusted, f, inst);
      }
    }

    // One turn of the loop.  A result ends the activation.
    method Dispatch(trusted: bool, f: Frame) returns (end: Option<Outcome>)
      requires InCode(f, View())
      modifies this
      ensures StepOf(trusted, f, old(View())) == if end.Some? then Done(end.value) else Next(View())
    {
      hide Exec, Unwind;
      var turn := ExecuteInstruction(trusted, f);
      match turn {
        case Onward => end := None;
        case Ends(o) => end := Some(o);
        case Throws(fault) =>
          var handled := Handle(fault);
          end := if handled then None else Some(Thrown(fault, world));
      }
    }

    // The loop, for at most `fuel` turns.
    method Execute(trusted: bool, f: Frame, fuel: nat) returns (p: Progress<State, Outcome>)
      modifies this
      ensures p == Run(Activation(trusted, f), old(View()), fuel)
      ensures p.Running? ==> p.s == View()
    {
      hide StepOf;
      var left: nat := fuel;
      while left > 0 && 0 <= pc < |f.code|
        invariant left <= fuel
        invariant Run(Activation(trusted, f), View(), left) == Run(Activation(trusted, f), old(View()), fuel)
      {
        ghost var before := View();
        var end := Dispatch(trusted, f);
        assert Run(Activation(trusted, f), before, left) ==
          if end.Some? then Finished(end.value) else Run(Activation(trusted, f), View(), left - 1);
        if end.Some? { return Finished(end.value); }
        left := left - 1;
      }
      p := if left == 0 then Running(View()) else Finished(Failed(PcEscaped, world));
      assert p == Run(Activation(trusted, f), View(), left);
    }
  }
}
