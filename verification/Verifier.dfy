/** The load-time verifier: what it accepts, and the checking method itself. */
module Verifier {
  import opened Int64
  import opened Bytecode
  import opened Interpreter

  // ---- What is accepted -------------------------------------------------------------------

  predicate WindowFits(base: U32, count: int, n: nat) { base + count < n }

  // Every register the instruction may touch exists.
  predicate RegistersFit(i: Instruction, n: nat) {
    if IsCompute(i.op) then i.a < n && Operand1(i) < n && Operand2(i) < n
    else if IsRelativeJump(i.op) then BranchRegsOk(i, n)
    else
      match i.op
      case LoadK | NewObject | GetUpval | SetUpval | Ret | Throw => i.a < n
      case StrLen => i.a < n && i.b < n
      case StrConcat => i.a < n && i.b < n && i.c < n
      case Call | TailCall | FfiCall | Invoke => WindowFits(i.a, i.c, n)
      case CallClosure | TailCallClosure => i.b < n && WindowFits(i.a, i.c, n)
      case Closure => i.a < n && (i.flags > 0 ==> WindowFits(i.c, i.flags - 1, n))
      case VarArg => i.c > 0 ==> WindowFits(i.a, i.c - 1, n)
      case _ => true
  }

  // Every jump and handler lands inside the code.
  predicate TargetsFit(i: Instruction, pc: int, size: nat) {
    && (IsRelativeJump(i.op) ==> 0 <= pc + JumpDelta(i) < size)
    && (i.op == TryBegin ==>
          && TryTargetOk(i.a, size) && TryTargetOk(i.b, size) && i.c < size
          && i.c != INVALID_TRY_TARGET
          && !(i.a == INVALID_TRY_TARGET && i.b == INVALID_TRY_TARGET))
  }

  predicate IsSymbol(m: Module, k: U32) { k < |m.constants| && m.constants[k].Utf8Const? }

  predicate IsBound(m: Module, symbol: string) {
    exists k :: 0 <= k < |m.ffiBindings| && m.ffiBindings[k].vmSymbol == symbol
  }

  predicate AcceptsCount(f: Function, count: nat) {
    if f.isVararg then f.paramCount <= count else f.paramCount == count
  }

  // Every constant, function and upvalue referred to exists and fits its use.
  predicate ReferencesFit(m: Module, f: Function, i: Instruction) {
    match i.op
    case LoadK => i.b < |m.constants|
    case Call | TailCall => i.b < |m.functions| && AcceptsCount(m.functions[i.b], i.c)
    case FfiCall => IsSymbol(m, i.b) && (m.ffiBindings != [] ==> IsBound(m, m.constants[i.b].s))
    case NewObject | Invoke => IsSymbol(m, i.b)
    case Closure => i.b < |m.functions| && m.functions[i.b].upvalueCount == i.flags
    case GetUpval | SetUpval => i.b < f.upvalueCount
    case VarArg => f.isVararg
    case _ => true
  }

  predicate InstructionOk(m: Module, f: Function, i: Instruction, pc: int, size: nat) {
    RegistersFit(i, f.regCount) && TargetsFit(i, pc, size) && ReferencesFit(m, f, i)
  }

  predicate CodeOk(m: Module, f: Function, code: seq<Instruction>) {
    code != [] && forall pc :: 0 <= pc < |code| ==> InstructionOk(m, f, code[pc], pc, |code|)
  }

  predicate IsIdentifier(name: string) {
    && name != ""
    && (IsLetter(name[0]) || name[0] == '_')
    && forall k :: 1 <= k < |name| ==> IsLetter(name[k]) || '0' <= name[k] <= '9' || name[k] == '_'
  }

  predicate IsLetter(c: char) { 'a' <= c <= 'z' || 'A' <= c <= 'Z' }

  predicate SignatureOk(m: Module, f: Function) {
    && (f.isExported ==> IsIdentifier(f.name))
    && (f.ffi.enabled ==> f.ffi.binding < |m.ffiBindings| && f.ffi.signature < m.ffiSignatureCount)
    && 0 < f.regCount && f.paramCount <= f.regCount && |f.paramTypes| == f.paramCount
    && (forall k :: 0 <= k < |f.paramTypes| ==> !f.paramTypes[k].InvalidType?)
    && !f.returnType.InvalidType?
  }

  predicate FunctionOk(m: Module, f: Function) { SignatureOk(m, f) && CodeOk(m, f, f.Code()) }

  predicate BindingOk(m: Module, b: FfiBinding) {
    b.vmSymbol != "" && b.library < m.ffiLibraryCount && b.signature < m.ffiSignatureCount
  }

  predicate MethodOk(m: Module, d: MethodDecl) {
    && d.name != "" && d.access <= 2 && d.function_ < |m.functions|
    && (m.functions[d.function_].isVararg || m.functions[d.function_].paramCount > 0)
  }

  predicate IsClass(m: Module, name: string) {
    exists k :: 0 <= k < |m.classes| && m.classes[k].name == name
  }

  predicate ClassOk(m: Module, c: ClassDecl) {
    && (forall k :: 0 <= k < |c.bases| ==> IsClass(m, c.bases[k]))
    && (forall k :: 0 <= k < |c.methods| ==> MethodOk(m, c.methods[k]))
    && (forall j, k :: 0 <= j < k < |c.methods| ==> c.methods[j].name != c.methods[k].name)
  }

  predicate MetadataOk(m: Module) {
    && (m.ffiBindings != [] ==> m.ffiSignatureCount > 0)
    && (forall k :: 0 <= k < |m.ffiBindings| ==> BindingOk(m, m.ffiBindings[k]))
    && (forall j, k :: 0 <= j < k < |m.ffiBindings| ==> m.ffiBindings[j].vmSymbol != m.ffiBindings[k].vmSymbol)
    && (forall k :: 0 <= k < |m.classes| ==> m.classes[k].name != "" && ClassOk(m, m.classes[k]))
    && (forall j, k :: 0 <= j < k < |m.classes| ==> m.classes[j].name != m.classes[k].name)
  }

  predicate ExportsDistinct(m: Module) {
    forall j, k :: 0 <= j < k < |m.functions| && m.functions[j].isExported && m.functions[k].isExported ==>
      m.functions[j].name != m.functions[k].name
  }

  predicate Accepted(m: Module) {
    && m.functions != [] && m.entry < |m.functions|
    && MetadataOk(m) && ExportsDistinct(m)
    && forall k :: 0 <= k < |m.functions| ==> FunctionOk(m, m.functions[k])
  }

  // ---- The checker ------------------------------------------------------------------------

  datatype Status = Ok | VerificationFailed(message: string)

  // Rejects jumps out of the code, and warns about control flow before the last instruction.
  predicate IsControlFlow(op: Opcode) {
    || op == Jmp || op == JmpIf || op == JmpIfZero || op == JmpIfNotZero || op == DecJnz
    || op == AddDecJnz || op == SubImmJnz || op == AddImmJnz
    || op == TryEnd || op == EndCatch || op == EndFinally || IsTerminator(op)
  }

  // The per-opcode switch.
  function InstructionError(
      m: Module, f: Function, symbols: set<string>, i: Instruction, pc: int, size: nat): Option<string>
  {
    var n := f.regCount;
    match i.op
    case Mov => if i.a >= n || i.b >= n then Some("register out of range for mov") else None
    case LoadK =>
      if i.a >= n || i.b >= |m.constants|
      then Some("loadk requires dst register and valid constant index") else None
    case Add | Sub | Mul | Div | CmpEq | BitAnd | BitOr | BitXor | BitShl | BitShr | StrConcat =>
      if i.a >= n || i.b >= n || i.c >= n then Some("register out of range for arithmetic") else None
    case AddImm | SubImm =>
      if i.a >= n || i.b >= n then Some("register out of range for imm arithmetic") else None
    case Inc | Dec => if i.a >= n then Some("register out of range for inc/dec") else None
    case StrLen | BitNot =>
      if i.a >= n then Some("register out of range for inc/dec")
      else if i.b >= n then Some("register out of range for unary op") else None
    case Ret | Throw => if i.a >= n then Some("register out of range for ret/throw") else None
    case Jmp => if !(0 <= pc + SignedU32(i.a) < size) then Some("jmp target out of range") else None
    case JmpIf =>
      if i.a >= n then Some("condition register out of range")
      else if !(0 <= pc + SignedU32(i.b) < size) then Some("jmp_if target out of range") else None
    case JmpIfZero | JmpIfNotZero =>
      if i.a >= n then Some("condition register out of range")
      else if !(0 <= pc + SignedU32(i.b) < size) then Some("conditional jump target out of range") else None
    case DecJnz =>
      if i.a >= n then Some("counter register out of range")
      else if !(0 <= pc + SignedU32(i.b) < size) then Some("dec_jnz target out of range") else None
    case AddDecJnz =>
      if i.a >= n || i.b >= n then Some("add_dec_jnz register out of range")
      else if !(0 <= pc + SignedU32(i.c) < size) then Some("add_dec_jnz target out of range") else None
    case SubImmJnz | AddImmJnz =>
      if i.a >= n then Some("imm_jnz register out of range")
      else if !(0 <= pc + SignedU32(i.c) < size) then Some("imm_jnz target out of range") else None
    case Call | TailCall =>
      if i.b >= |m.functions| then Some("call target function index out of range")
      else if i.a + i.c >= n then Some("call register window out of range")
      else
        var callee := m.functions[i.b];
        if !callee.isVararg && callee.paramCount != i.c then Some("call argument count mismatch")
        else if callee.isVararg && i.c < callee.paramCount
        then Some("call argument count less than fixed params for vararg callee")
        else None
    case CallClosure | TailCallClosure =>
      if i.b >= n || i.a + i.c >= n then Some("call_closure register window out of range") else None
    case FfiCall =>
      if i.a + i.c >= n then Some("ffi_call register window out of range")
      else if i.b >= |m.constants| || !m.constants[i.b].Utf8Const?
      then Some("ffi_call requires utf8 symbol constant")
      else if m.ffiBindings != [] && m.constants[i.b].s !in symbols
      then Some("ffi_call symbol missing from ffi binding table")
      else None
    case Closure =>
      if i.a >= n || i.b >= |m.functions| then Some("closure requires valid dst register and function index")
      else if i.flags > 0 && i.c + (i.flags - 1) >= n then Some("closure upvalue capture window out of range")
      else if m.functions[i.b].upvalueCount != i.flags
      then Some("closure upvalue count mismatch with target function")
      else None
    case GetUpval | SetUpval =>
      if i.a >= n then Some("upvalue instruction register out of range")
      else if i.b >= f.upvalueCount then Some("upvalue index out of range") else None
    case VarArg =>
      if !f.isVararg then Some("vararg instruction requires vararg function")
      else if i.c > 0 && i.a + (i.c - 1) >= n then Some("vararg destination window out of range") else None
    case NewObject =>
      if i.a >= n || i.b >= |m.constants| || !m.constants[i.b].Utf8Const?
      then Some("new_object requires dst register and utf8 class constant") else None
    case Invoke =>
      if i.a >= n || i.b >= |m.constants| || !m.constants[i.b].Utf8Const? || i.a + i.c >= n
      then Some("invoke requires valid object register, args and utf8 method constant") else None
    case TryBegin =>
      if !TryTargetOk(i.a, size) || !TryTargetOk(i.b, size) || !TryTargetOk(i.c, size)
      then Some("try_begin target out of range")
      else if i.a == INVALID_TRY_TARGET && i.b == INVALID_TRY_TARGET
      then Some("try_begin requires catch or finally target")
      else if i.c == INVALID_TRY_TARGET then Some("try_begin requires end target")
      else None
    case _ => None
  }

  // The switch accepts exactly the instructions whose registers, targets and references fit.
  lemma InstructionErrorExact(
      m: Module, f: Function, symbols: set<string>, i: Instruction, pc: int, size: nat)
    requires forall x :: x in symbols <==> IsBound(m, x)
    ensures InstructionError(m, f, symbols, i, pc, size).None? <==> InstructionOk(m, f, i, pc, size)
  {
    if IsCompute(i.op) {
      ComputeErrorExact(m, f, symbols, i, pc, size);
    } else if IsRelativeJump(i.op) {
      JumpErrorExact(m, f, symbols, i, pc, size);
    } else if IsCall(i.op) {
      CallErrorExact(m, f, symbols, i, pc, size);
    } else if IsForeign(i.op) {
      ForeignErrorExact(m, f, symbols, i, pc, size);
    } else {
      OtherErrorExact(m, f, symbols, i, pc, size);
    }
  }

  lemma ComputeErrorExact(
      m: Module, f: Function, symbols: set<string>, i: Instruction, pc: int, size: nat)
    requires IsCompute(i.op)
    ensures InstructionError(m, f, symbols, i, pc, size).None? <==> InstructionOk(m, f, i, pc, size)
  {
    hide IsBound;
  }

  lemma JumpErrorExact(
      m: Module, f: Function, symbols: set<string>, i: Instruction, pc: int, size: nat)
    requires IsRelativeJump(i.op)
    ensures InstructionError(m, f, symbols, i, pc, size).None? <==> InstructionOk(m, f, i, pc, size)
  {
    hide IsBound;
  }

  lemma CallErrorExact(
      m: Module, f: Function, symbols: set<string>, i: Instruction, pc: int, size: nat)
    requires IsCall(i.op)
    ensures InstructionError(m, f, symbols, i, pc, size).None? <==> InstructionOk(m, f, i, pc, size)
  {
    hide IsBound;
  }

  lemma UpvalueErrorExact(
      m: Module, f: Function, symbols: set<string>, i: Instruction, pc: int, size: nat)
    requires i.op == Closure || i.op == GetUpval || i.op == SetUpval
    ensures InstructionError(m, f, symbols, i, pc, size).None? <==> InstructionOk(m, f, i, pc, size)
  {
    hide IsBound, SignedU32, TryTargetOk, BranchRegsOk, Operand1, Operand2, AcceptsCount;
  }

  lemma NamedErrorExact(
      m: Module, f: Function, symbols: set<string>, i: Instruction, pc: int, size: nat)
    requires forall x :: x in symbols <==> IsBound(m, x)
    requires i.op == FfiCall || i.op == NewObject || i.op == Invoke
    ensures InstructionError(m, f, symbols, i, pc, size).None? <==> InstructionOk(m, f, i, pc, size)
  {
    hide IsBound, SignedU32, TryTargetOk, BranchRegsOk, Operand1, Operand2, AcceptsCount;
  }

  lemma ForeignErrorExact(
      m: Module, f: Function, symbols: set<string>, i: Instruction, pc: int, size: nat)
    requires forall x :: x in symbols <==> IsBound(m, x)
    requires IsForeign(i.op)
    ensures InstructionError(m, f, symbols, i, pc, size).None? <==> InstructionOk(m, f, i, pc, size)
  {
    hide IsBound;
    if i.op == Closure || i.op == GetUpval || i.op == SetUpval {
      UpvalueErrorExact(m, f, symbols, i, pc, size);
    } else {
      NamedErrorExact(m, f, symbols, i, pc, size);
    }
    hide *;
  }

  lemma OtherErrorExact(
      m: Module, f: Function, symbols: set<string>, i: Instruction, pc: int, size: nat)
    requires !IsCompute(i.op) && !IsRelativeJump(i.op) && !IsCall(i.op) && !IsForeign(i.op)
    ensures InstructionError(m, f, symbols, i, pc, size).None? <==> InstructionOk(m, f, i, pc, size)
  {
    hide IsBound;
  }

  method VerifyMetadata(m: Module) returns (status: Status, symbols: set<string>)
    ensures status.Ok? <==> MetadataOk(m)
    ensures status.Ok? ==> forall x :: x in symbols <==> IsBound(m, x)
  {
    hide ClassOk;
    symbols := {};
    if m.ffiBindings != [] && m.ffiSignatureCount == 0 {
      return VerificationFailed("ffi bindings exist but signatures are missing"), symbols;
    }
    for k := 0 to |m.ffiBindings|
      invariant forall j :: 0 <= j < k ==> BindingOk(m, m.ffiBindings[j])
      invariant forall i, j :: 0 <= i < j < k ==> m.ffiBindings[i].vmSymbol != m.ffiBindings[j].vmSymbol
      invariant forall x :: x in symbols <==> exists j :: 0 <= j < k && m.ffiBindings[j].vmSymbol == x
    {
      var b := m.ffiBindings[k];
      if b.vmSymbol == "" { return VerificationFailed("ffi binding vm_symbol is empty"), symbols; }
      if b.vmSymbol in symbols { return VerificationFailed("duplicate ffi vm_symbol binding"), symbols; }
      symbols := symbols + {b.vmSymbol};
      if b.library >= m.ffiLibraryCount {
        return VerificationFailed("ffi binding library index out of range"), symbols;
      }
      if b.signature >= m.ffiSignatureCount {
        return VerificationFailed("ffi binding signature index out of range"), symbols;
      }
    }
    var classNames: set<string> := {};
    for k := 0 to |m.classes|
      invariant forall j :: 0 <= j < k ==> m.classes[j].name != ""
      invariant forall i, j :: 0 <= i < j < k ==> m.classes[i].name != m.classes[j].name
      invariant forall x :: x in classNames <==> exists j :: 0 <= j < k && m.classes[j].name == x
    {
      if m.classes[k].name == "" { return VerificationFailed("class name cannot be empty"), symbols; }
      if m.classes[k].name in classNames {
        return VerificationFailed("duplicate class name in metadata"), symbols;
      }
      classNames := classNames + {m.classes[k].name};
    }
    for k := 0 to |m.classes|
      invariant forall j :: 0 <= j < k ==> ClassOk(m, m.classes[j])
    {
      status := VerifyClass(m, classNames, m.classes[k]);
      if !status.Ok? { return; }
    }
    status := Ok;
  }

  method VerifyClass(m: Module, classNames: set<string>, c: ClassDecl) returns (status: Status)
    requires forall x :: x in classNames <==> IsClass(m, x)
    ensures status.Ok? <==> ClassOk(m, c)
  {
    for k := 0 to |c.bases|
      invariant forall j :: 0 <= j < k ==> IsClass(m, c.bases[j])
    {
      if c.bases[k] !in classNames {
        return VerificationFailed("class base not found in metadata: " + c.bases[k]);
      }
    }
    var names: set<string> := {};
    for k := 0 to |c.methods|
      invariant forall j :: 0 <= j < k ==> MethodOk(m, c.methods[j])
      invariant forall i, j :: 0 <= i < j < k ==> c.methods[i].name != c.methods[j].name
      invariant forall x :: x in names <==> exists j :: 0 <= j < k && c.methods[j].name == x
    {
      var d := c.methods[k];
      assert MethodOk(m, d) ==> d.name != "";
      if d.name == "" { return VerificationFailed("class method name cannot be empty"); }
      if d.access > 2 { return VerificationFailed("class method access modifier out of range"); }
      if d.name in names { return VerificationFailed("duplicate class method name in metadata"); }
      names := names + {d.name};
      if d.function_ >= |m.functions| {
        return VerificationFailed("class method function index out of range");
      }
      if !m.functions[d.function_].isVararg && m.functions[d.function_].paramCount == 0 {
        return VerificationFailed("class method function must accept at least self param");
      }
    }
    status := Ok;
  }

  method VerifyFunction(m: Module, symbols: set<string>, f: Function) returns (status: Status, warnings: nat)
    requires forall x :: x in symbols <==> IsBound(m, x)
    requires f.isExported ==> IsIdentifier(f.name)
    ensures status.Ok? <==> FunctionOk(m, f)
  {
    hide InstructionError, InstructionOk;
    warnings := 0;
    if f.ffi.enabled {
      if f.ffi.binding >= |m.ffiBindings| {
        return VerificationFailed("function ffi binding index out of range"), warnings;
      }
      if f.ffi.signature >= m.ffiSignatureCount {
        return VerificationFailed("function ffi signature index out of range"), warnings;
      }
    }
    if f.regCount == 0 { return VerificationFailed("function has zero register count"), warnings; }
    if f.paramCount > f.regCount {
      return VerificationFailed("function param_count exceeds reg_count"), warnings;
    }
    if |f.paramTypes| != f.paramCount {
      return VerificationFailed("function param_types size must equal param_count"), warnings;
    }
    for k := 0 to |f.paramTypes|
      invariant forall j :: 0 <= j < k ==> !f.paramTypes[j].InvalidType?
    {
      if f.paramTypes[k].InvalidType? {
        return VerificationFailed("function param type out of range"), warnings;
      }
    }
    if f.returnType.InvalidType? {
      return VerificationFailed("function return type out of range"), warnings;
    }
    var code := f.Code();
    if code == [] { return VerificationFailed("function has no instruction"), warnings; }
    for pc := 0 to |code|
      invariant forall k :: 0 <= k < pc ==> InstructionOk(m, f, code[k], k, |code|)
    {
      InstructionErrorExact(m, f, symbols, code[pc], pc, |code|);
      var error := InstructionError(m, f, symbols, code[pc], pc, |code|);
      if error.Some? { return VerificationFailed(error.value), warnings; }
      if IsControlFlow(code[pc].op) && pc + 1 < |code| { warnings := warnings + 1; }
    }
    status := Ok;
  }

  lemma ExportedName(m: Module, f: Function)
    ensures FunctionOk(m, f) && f.isExported ==> IsIdentifier(f.name)
  {
    hide CodeOk;
  }

  method Verify(m: Module) returns (status: Status, warnings: nat)
    ensures status.Ok? <==> Accepted(m)
  {
    hide FunctionOk, IsIdentifier, MetadataOk, IsBound;
    warnings := 0;
    if m.functions == [] { return VerificationFailed("module has no function"), warnings; }
    if m.entry >= |m.functions| { return VerificationFailed("entry function index out of range"), warnings; }
    var symbols;
    status, symbols := VerifyMetadata(m);
    if !status.Ok? { return; }
    var exported: set<string> := {};
    for k := 0 to |m.functions|
      invariant forall j :: 0 <= j < k ==> FunctionOk(m, m.functions[j])
      invariant forall i, j :: 0 <= i < j < k && m.functions[i].isExported && m.functions[j].isExported ==>
                  m.functions[i].name != m.functions[j].name
      invariant forall x :: x in exported <==>
                  exists j :: 0 <= j < k && m.functions[j].isExported && m.functions[j].name == x
    {
      var f := m.functions[k];
      ExportedName(m, f);
      if f.isExported {
        if !IsIdentifier(f.name) {
          return VerificationFailed("exported function name must be a C identifier: " + f.name), warnings;
        }
        if f.name in exported {
          return VerificationFailed("duplicate exported function name: " + f.name), warnings;
        }
        exported := exported + {f.name};
      }
      var w;
      status, w := VerifyFunction(m, symbols, f);
      warnings := warnings + w;
      if !status.Ok? { return; }
    }
    status := Ok;
  }
}
