/** The interpreter: one activation of one function as a small-step machine, with
    everything outside the activation behind an environment, and whole modules on top of
    it with real calls. */
module Interpreter {
  import opened Int64
  import opened Bytecode
  import opened Machines

  // ---- Outside the activation ----------------------------------------------------------

  datatype Fault =
    | RegisterBounds | ConstantBounds | DivisionByZero | JumpRange(op: Opcode)
    | TryRange | NoTryFrame(op: Opcode) | NotAString | UnknownOpcode
    | ClosureIndex | NotAClosure | ClosureMissing | NoClosureContext
    | SymbolConstant | NotAnObject | UserThrow(v: Value) | Foreign(id: int)

  datatype Failure =
    | ReturnTypeMismatch | PcEscaped | FunctionIndex | ArgumentCount | ArgumentType
    | NoInstruction | ForeignStatus(id: int)

  // The interned strings of the VM instance, in interning order, and a token for the
  // rest of the state that calls, closures, objects and native code may read and write.
  datatype World = World(strings: seq<string>, ext: int)

  // How an activation ends.  `Undefined` is a register access outside the frame in
  // trusted mode; `Diverges` never ends.
  datatype Outcome =
    | Returned(value: Value, world: World)
    | Failed(why: Failure, world: World)
    | Thrown(fault: Fault, world: World)
    | Undefined
    | Diverges

  datatype Request =
    | CallFunction(callee: nat, args: seq<Value>, closure: Option<I64>)
    | MakeClosure(target: nat, upvalues: seq<Value>)
    | ReadUpvalue(context: I64, index: nat)
    | WriteUpvalue(context: I64, index: nat, v: Value)
    | CallNative(caller: nat, symbol: string, args: seq<Value>)
    | CreateObject(className: string)
    | CallMethod(id: I64, method_: string, args: seq<Value>)

  datatype Env = Env(ask: (Request, World) -> Outcome, closureTarget: (I64, World) -> Option<nat>)

  function Find(strings: seq<string>, s: string): (k: nat)
    ensures k <= |strings|
    ensures k < |strings| ==> strings[k] == s
    ensures k == |strings| <==> s !in strings
  {
    if strings == [] then 0
    else if strings[0] == s then 0
    else 1 + Find(strings[1..], s)
  }

  // String handles count from 1.
  function StringValue(k: int): Value { Value(TString, Wrap(k + 1)) }

  function Intern(w: World, s: string): (Value, World) {
    var k := Find(w.strings, s);
    (StringValue(k), if k == |w.strings| then w.(strings := w.strings + [s]) else w)
  }

  function Resolve(w: World, v: Value): Option<string> {
    if v.tag == TString && 1 <= v.bits <= |w.strings| then Some(w.strings[v.bits - 1]) else None
  }

  // ---- One activation ------------------------------------------------------------------

  // What stays fixed while an activation runs.
  datatype Frame = Frame(
    code: seq<Instruction>, constants: seq<Constant>, functionCount: nat, functionIndex: nat,
    closure: Option<I64>, varargs: seq<Value>, returnType: ValueType, env: Env)

  datatype TryFrame = TryFrame(
    catchTarget: U32, finallyTarget: U32, endTarget: U32,
    inCatch: bool, inFinally: bool, rethrow: bool, pending: Option<Fault>)

  datatype State = State(pc: int, regs: seq<Value>, tries: seq<TryFrame>, world: World)

  // Effect of one instruction, before any handler is looked for.
  datatype Effect = Go(s: State) | Stop(o: Outcome) | Raise(fault: Fault, s: State)

  function OutOfBounds(trusted: bool, s: State): Effect {
    if trusted then Stop(Undefined) else Raise(RegisterBounds, s)
  }

  function Write(trusted: bool, s: State, r: U32, v: Value): Effect {
    if r < |s.regs| then Go(s.(pc := s.pc + 1, regs := s.regs[r := v]))
    else OutOfBounds(trusted, s)
  }

  // Instructions that compute one register from at most two others.
  predicate IsCompute(op: Opcode) {
    match op
    case Mov | Add | Sub | Mul | Div | CmpEq | AddImm | SubImm | Inc | Dec => true
    case BitAnd | BitOr | BitXor | BitNot | BitShl | BitShr => true
    case _ => false
  }

  predicate IsIntBinary(op: Opcode) {
    match op
    case Add | Sub | Mul | Div | BitAnd | BitOr | BitXor | BitShl | BitShr => true
    case _ => false
  }

  function Operand1(i: Instruction): U32 { if i.op == Inc || i.op == Dec then i.a else i.b }

  function Operand2(i: Instruction): U32 {
    if IsIntBinary(i.op) || i.op == CmpEq then i.c else Operand1(i)
  }

  // None is division by zero.
  function IntBinary(op: Opcode, x: I64, y: I64): Option<I64>
    requires IsIntBinary(op)
  {
    match op
    case Add => Some(Int64.Add(x, y))
    case Sub => Some(Int64.Sub(x, y))
    case Mul => Some(Int64.Mul(x, y))
    case Div => if y == 0 then None else Some(Int64.Div(x, y))
    case BitAnd => Some(And(x, y))
    case BitOr => Some(Or(x, y))
    case BitXor => Some(Xor(x, y))
    case BitShl => Some(Shl(x, y))
    case BitShr => Some(Shr(x, y))
  }

  // AddImm, SubImm, Inc and Dec on the integer `x`.
  predicate IsIntUnary(op: Opcode) { op == AddImm || op == SubImm || op == Inc || op == Dec }

  function IntUnary(i: Instruction, x: I64): I64
    requires IsIntUnary(i.op)
  {
    match i.op
    case AddImm => Int64.Add(x, SignedU32(i.c))
    case SubImm => Int64.Sub(x, SignedU32(i.c))
    case Inc => Int64.Add(x, 1)
    case Dec => Int64.Sub(x, 1)
  }

  // Integer operators read the bits of their operands whatever the tags say.  CmpEq on two
  // integers compares their bits, which is what comparing the values does.
  function Compute(i: Instruction, x: Value, y: Value): Option<Value>
    requires IsCompute(i.op)
  {
    if i.op == Mov then Some(x)
    else if i.op == CmpEq then Some(BoolValue(x == y))
    else if i.op == BitNot then Some(IntValue(Not(x.bits)))
    else if IsIntUnary(i.op) then Some(IntValue(IntUnary(i, x.bits)))
    else
      match IntBinary(i.op, x.bits, y.bits)
      case None => None
      case Some(v) => Some(IntValue(v))
  }

  function ExecCompute(trusted: bool, i: Instruction, s: State): Effect
    requires IsCompute(i.op)
  {
    if Operand1(i) < |s.regs| && Operand2(i) < |s.regs| then
      match Compute(i, s.regs[Operand1(i)], s.regs[Operand2(i)])
      case None => Raise(DivisionByZero, s)
      case Some(v) => Write(trusted, s, i.a, v)
    else OutOfBounds(trusted, s)
  }

  function ExecLoadK(trusted: bool, f: Frame, i: Instruction, s: State): Effect {
    if i.b < |f.constants| then
      match f.constants[i.b]
      case IntConst(v) => Write(trusted, s, i.a, IntValue(v))
      case FloatConst(bits) => Write(trusted, s, i.a, Value(TFloat64, bits))
      case Utf8Const(str) =>
        var (v, w) := Intern(s.world, str);
        Write(trusted, s.(world := w), i.a, v)
    else Raise(ConstantBounds, s)
  }

  // Jumps, with the register updates and the decision of the fused counting jumps.
  datatype Branched = Branched(regs: seq<Value>, taken: bool)

  predicate BranchRegsOk(i: Instruction, n: nat) {
    (i.op != Jmp ==> i.a < n) && (i.op == AddDecJnz ==> i.b < n)
  }

  function Branch(i: Instruction, regs: seq<Value>): (b: Branched)
    requires IsRelativeJump(i.op) && BranchRegsOk(i, |regs|)
    ensures |b.regs| == |regs|
  {
    match i.op
    case Jmp => Branched(regs, true)
    case JmpIf => Branched(regs, Truthy(regs[i.a]))
    case JmpIfZero => Branched(regs, regs[i.a].bits == 0)
    case JmpIfNotZero => Branched(regs, regs[i.a].bits != 0)
    case DecJnz =>
      var next := Int64.Sub(regs[i.a].bits, 1);
      Branched(regs[i.a := IntValue(next)], next != 0)
    case AddDecJnz =>
      var sum := Int64.Add(regs[i.a].bits, regs[i.b].bits);
      var next := Int64.Sub(regs[i.b].bits, 1);
      Branched(regs[i.a := IntValue(sum)][i.b := IntValue(next)], next != 0)
    case SubImmJnz =>
      var next := Int64.Sub(regs[i.a].bits, SignedU32(i.b));
      Branched(regs[i.a := IntValue(next)], next != 0)
    case AddImmJnz =>
      var next := Int64.Add(regs[i.a].bits, SignedU32(i.b));
      Branched(regs[i.a := IntValue(next)], next != 0)
  }

  function ExecBranch(trusted: bool, size: nat, i: Instruction, s: State): Effect
    requires IsRelativeJump(i.op)
  {
    if !BranchRegsOk(i, |s.regs|) then OutOfBounds(trusted, s)
    else
      var b := Branch(i, s.regs);
      var t := s.pc + JumpDelta(i);
      if !b.taken then Go(s.(pc := s.pc + 1, regs := b.regs))
      else if trusted || 0 <= t < size then Go(s.(pc := t, regs := b.regs))
      else Raise(JumpRange(i.op), s.(regs := b.regs))
  }

  predicate TryTargetOk(t: U32, size: nat) { t == INVALID_TRY_TARGET || t < size }

  // Leaves the protected block or the catch block of the innermost try statement.
  function LeaveBlock(s: State): State
    requires s.tries != []
  {
    var k := |s.tries| - 1;
    var t := s.tries[k];
    if t.finallyTarget != INVALID_TRY_TARGET then
      s.(pc := t.finallyTarget,
         tries := s.tries[k := t.(inCatch := false, inFinally := true, rethrow := false, pending := None)])
    else s.(pc := t.endTarget, tries := s.tries[..k])
  }

  function ExecTry(size: nat, i: Instruction, s: State): Effect
    requires IsTryOpcode(i.op)
  {
    match i.op
    case TryBegin =>
      if TryTargetOk(i.a, size) && TryTargetOk(i.b, size) && i.c < size && i.c != INVALID_TRY_TARGET then
        Go(s.(pc := s.pc + 1, tries := s.tries + [TryFrame(i.a, i.b, i.c, false, false, false, None)]))
      else Raise(TryRange, s)
    case TryEnd | EndCatch => if s.tries == [] then Raise(NoTryFrame(i.op), s) else Go(LeaveBlock(s))
    case EndFinally =>
      if s.tries == [] then Raise(NoTryFrame(i.op), s)
      else
        var t := s.tries[|s.tries| - 1];
        var popped := s.(tries := s.tries[..|s.tries| - 1]);
        if t.rethrow && t.pending.Some? then Raise(t.pending.value, popped)
        else Go(popped.(pc := t.endTarget))
  }

  // The argument window is base+1 .. base+count, in uint32_t arithmetic.
  predicate WindowOk(base: U32, count: nat, n: nat) {
    forall k :: 0 <= k < count ==> AddU32(base, k) < n
  }

  function Window(base: U32, count: nat, regs: seq<Value>): seq<Value>
    requires WindowOk(base, count, |regs|)
  {
    seq(count, k requires 0 <= k < count => regs[AddU32(base, k)])
  }

  // Stores the answer of the environment, or ends the activation the way the request did.
  function Receive(trusted: bool, s: State, r: U32, o: Outcome): Effect {
    match o
    case Returned(v, w) => Write(trusted, s.(world := w), r, v)
    case Failed(_, _) => Stop(o)
    case Thrown(fault, w) => Raise(fault, s.(world := w))
    case Undefined => Stop(o)
    case Diverges => Stop(o)
  }

  function Forward(s: State, o: Outcome): Effect {
    match o
    case Thrown(fault, w) => Raise(fault, s.(world := w))
    case _ => Stop(o)
  }

  predicate IsCall(op: Opcode) {
    op == Call || op == TailCall || op == CallClosure || op == TailCallClosure
  }

  function ExecCall(trusted: bool, f: Frame, i: Instruction, s: State): Effect
    requires IsCall(i.op)
  {
    var tail := i.op == TailCall || i.op == TailCallClosure;
    if i.op == Call || i.op == TailCall then
      if WindowOk(AddU32(i.a, 1), i.c, |s.regs|) then
        var o := f.env.ask(CallFunction(i.b, Window(AddU32(i.a, 1), i.c, s.regs), None), s.world);
        if tail then Forward(s, o) else Receive(trusted, s, i.a, o)
      else OutOfBounds(trusted, s)
    else if i.b >= |s.regs| then OutOfBounds(trusted, s)
    else
      var callee := s.regs[i.b];
      if callee.tag != TClosure then Raise(NotAClosure, s)
      else
        match f.env.closureTarget(callee.bits, s.world)
        case None => Raise(ClosureMissing, s)
        case Some(target) =>
          if WindowOk(AddU32(i.a, 1), i.c, |s.regs|) then
            var o := f.env.ask(
              CallFunction(target, Window(AddU32(i.a, 1), i.c, s.regs), Some(callee.bits)), s.world);
            if tail then Forward(s, o) else Receive(trusted, s, i.a, o)
          else OutOfBounds(trusted, s)
  }

  function Symbol(f: Frame, k: U32): Option<string> {
    if k < |f.constants| && f.constants[k].Utf8Const? then Some(f.constants[k].s) else None
  }

  predicate IsForeign(op: Opcode) {
    match op
    case FfiCall | NewObject | Invoke | Closure | GetUpval | SetUpval => true
    case _ => false
  }

  // A method call on a value that is no object is not a VM exception: it leaves the
  // activation without consulting its handlers.
  function ExecForeign(trusted: bool, f: Frame, i: Instruction, s: State): Effect
    requires IsForeign(i.op)
  {
    var n := |s.regs|;
    match i.op
    case FfiCall =>
      if Symbol(f, i.b).None? then Raise(SymbolConstant, s)
      else if !WindowOk(AddU32(i.a, 1), i.c, n) then OutOfBounds(trusted, s)
      else
        var args := Window(AddU32(i.a, 1), i.c, s.regs);
        Receive(trusted, s, i.a, f.env.ask(CallNative(f.functionIndex, Symbol(f, i.b).value, args), s.world))
    case NewObject =>
      if Symbol(f, i.b).None? then Raise(SymbolConstant, s)
      else Receive(trusted, s, i.a, f.env.ask(CreateObject(Symbol(f, i.b).value), s.world))
    case Invoke =>
      if Symbol(f, i.b).None? then Raise(SymbolConstant, s)
      else if i.a >= n then OutOfBounds(trusted, s)
      else if s.regs[i.a].tag != TObject then Stop(Thrown(NotAnObject, s.world))
      else if !WindowOk(AddU32(i.a, 1), i.c, n) then OutOfBounds(trusted, s)
      else
        var args := Window(AddU32(i.a, 1), i.c, s.regs);
        Receive(trusted, s, i.a, f.env.ask(CallMethod(s.regs[i.a].bits, Symbol(f, i.b).value, args), s.world))
    case Closure =>
      if i.b >= f.functionCount then Raise(ClosureIndex, s)
      else if !WindowOk(i.c, i.flags, n) then OutOfBounds(trusted, s)
      else Receive(trusted, s, i.a, f.env.ask(MakeClosure(i.b, Window(i.c, i.flags, s.regs)), s.world))
    case GetUpval =>
      if f.closure.None? then Raise(NoClosureContext, s)
      else Receive(trusted, s, i.a, f.env.ask(ReadUpvalue(f.closure.value, i.b), s.world))
    case SetUpval =>
      if f.closure.None? then Raise(NoClosureContext, s)
      else if i.a >= n then OutOfBounds(trusted, s)
      else
        match f.env.ask(WriteUpvalue(f.closure.value, i.b, s.regs[i.a]), s.world)
        case Returned(_, w) => Go(s.(pc := s.pc + 1, world := w))
        case o => Forward(s, o)
  }

  // Copies surplus arguments one by one, so a bad register leaves the earlier writes behind.
  function ExecVarArg(trusted: bool, f: Frame, i: Instruction, k: nat, s: State): Effect
    requires k <= i.c
    decreases i.c - k
  {
    if k == i.c then Go(s.(pc := s.pc + 1))
    else
      var source := AddU32(i.b, k);
      var v := if source < |f.varargs| then f.varargs[source] else NULL;
      var r := AddU32(i.a, k);
      if r < |s.regs| then ExecVarArg(trusted, f, i, k + 1, s.(regs := s.regs[r := v]))
      else OutOfBounds(trusted, s)
  }

  function ExecString(trusted: bool, i: Instruction, s: State): Effect {
    if i.b >= |s.regs| then OutOfBounds(trusted, s)
    else
      match Resolve(s.world, s.regs[i.b])
      case None => Raise(NotAString, s)
      case Some(x) =>
        if i.op == StrLen then Write(trusted, s, i.a, IntValue(Wrap(|x|)))
        else if i.c >= |s.regs| then OutOfBounds(trusted, s)
        else
          match Resolve(s.world, s.regs[i.c])
          case None => Raise(NotAString, s)
          case Some(y) =>
            var (v, w) := Intern(s.world, x + y);
            Write(trusted, s.(world := w), i.a, v)
  }

  function ExecEnd(trusted: bool, f: Frame, i: Instruction, s: State): Effect {
    if i.op == Halt then
      Stop(if Matches(NULL, f.returnType) then Returned(NULL, s.world) else Failed(ReturnTypeMismatch, s.world))
    else if i.a >= |s.regs| then OutOfBounds(trusted, s)
    else if i.op == Throw then Raise(UserThrow(s.regs[i.a]), s)
    else
      var v := s.regs[i.a];
      Stop(if Matches(v, f.returnType) then Returned(v, s.world) else Failed(ReturnTypeMismatch, s.world))
  }

  predicate InCode(f: Frame, s: State) { 0 <= s.pc < |f.code| }

  function Exec(trusted: bool, f: Frame, s: State): Effect
    requires InCode(f, s)
  {
    var i := f.code[s.pc];
    if IsCompute(i.op) then ExecCompute(trusted, i, s)
    else if IsRelativeJump(i.op) then ExecBranch(trusted, |f.code|, i, s)
    else if IsTryOpcode(i.op) then ExecTry(|f.code|, i, s)
    else if IsCall(i.op) then ExecCall(trusted, f, i, s)
    else if IsForeign(i.op) then ExecForeign(trusted, f, i, s)
    else
      match i.op
      case Nop => Go(s.(pc := s.pc + 1))
      case LoadK => ExecLoadK(trusted, f, i, s)
      case StrLen | StrConcat => ExecString(trusted, i, s)
      case VarArg => ExecVarArg(trusted, f, i, 0, s)
      case Ret | Throw | Halt => ExecEnd(trusted, f, i, s)
      case _ => Raise(UnknownOpcode, s)
  }

  // ---- Handlers ------------------------------------------------------------------------

  // Looks for a handler from the innermost try statement outwards.
  function Unwind(fault: Fault, s: State): Option<State>
    decreases |s.tries|
  {
    if s.tries == [] then None
    else
      var k := |s.tries| - 1;
      var t := s.tries[k];
      if t.inFinally then Unwind(fault, s.(tries := s.tries[..k]))
      else if !t.inCatch && t.catchTarget != INVALID_TRY_TARGET then
        Some(s.(pc := t.catchTarget,
                tries := s.tries[k := t.(inCatch := true, pending := Some(fault), rethrow := false)]))
      else if t.finallyTarget != INVALID_TRY_TARGET then
        Some(s.(pc := t.finallyTarget,
                tries := s.tries[k := t.(inCatch := false, inFinally := true,
                                         pending := Some(fault), rethrow := true)]))
      else Unwind(fault, s.(tries := s.tries[..k]))
  }

  // ---- Runs ----------------------------------------------------------------------------

  function Settle(e: Effect): Step<State, Outcome> {
    match e
    case Go(s) => Next(s)
    case Stop(o) => Done(o)
    case Raise(fault, s) =>
      match Unwind(fault, s)
      case None => Done(Thrown(fault, s.world))
      case Some(h) => Next(h)
  }

  function StepOf(trusted: bool, f: Frame, s: State): Step<State, Outcome>
    requires InCode(f, s)
  {
    Settle(Exec(trusted, f, s))
  }

  // An activation as a machine: it runs while the pc is inside the code.
  function Activation(trusted: bool, f: Frame): Machine<State, Outcome> {
    Machine(
      s => InCode(f, s),
      s => if InCode(f, s) then StepOf(trusted, f, s) else Done(Diverges),
      (s: State) => Failed(PcEscaped, s.world),
      Diverges)
  }

  // ---- Whole modules -------------------------------------------------------------------

  function FrameOf(m: Module, fi: nat, closure: Option<I64>, varargs: seq<Value>, env: Env): Frame
    requires fi < |m.functions|
  {
    Frame(m.functions[fi].Code(), m.constants, |m.functions|, fi, closure, varargs,
          m.functions[fi].returnType, env)
  }

  // Arguments fill the first registers; the others start as null.
  function EntryRegs(regCount: nat, args: seq<Value>): (regs: seq<Value>)
    ensures |regs| == regCount
  {
    seq(regCount, k => if 0 <= k < |args| then args[k] else NULL)
  }

  function EntryState(regCount: nat, args: seq<Value>, w: World): State {
    State(0, EntryRegs(regCount, args), [], w)
  }

  // The checks ExecuteFunction makes before it starts an activation.
  function Admit(m: Module, fi: nat, args: seq<Value>): Option<Failure> {
    if fi >= |m.functions| then Some(FunctionIndex)
    else
      var f := m.functions[fi];
      if (if f.isVararg then |args| < f.paramCount else |args| != f.paramCount) then Some(ArgumentCount)
      else if exists k :: 0 <= k < f.paramCount && k < |f.paramTypes| && !Matches(args[k], f.paramTypes[k]) then
        Some(ArgumentType)
      else if f.Code() == [] then Some(NoInstruction)
      else None
  }

  ghost function Activate(
      trusted: bool, m: Module, env: Env, fi: nat, args: seq<Value>, closure: Option<I64>, w: World): Outcome
  {
    match Admit(m, fi, args)
    case Some(why) => Failed(why, w)
    case None =>
      var f := m.functions[fi];
      var varargs := if f.isVararg then args[f.paramCount..] else [];
      Result(Activation(trusted, FrameOf(m, fi, closure, varargs, env)), EntryState(f.regCount, args, w))
  }

  // Running a function of a module whose calls may nest at most `depth` deep; the rest of
  // the environment is `base`.
  ghost function Execute(
      trusted: bool, m: Module, base: Env, depth: nat,
      fi: nat, args: seq<Value>, closure: Option<I64>, w: World): Outcome
    decreases depth, 0
  {
    if depth == 0 then Diverges
    else Activate(trusted, m, EnvAt(trusted, m, base, depth - 1), fi, args, closure, w)
  }

  ghost function EnvAt(trusted: bool, m: Module, base: Env, depth: nat): Env
    decreases depth, 1
  {
    Env((q: Request, w: World) =>
          if q.CallFunction? then Execute(trusted, m, base, depth, q.callee, q.args, q.closure, w)
          else base.ask(q, w),
        base.closureTarget)
  }
}
