/** Expanded code is acceptable again. */
module InlineOk {
  import opened Int64
  import opened Bytecode
  import opened Interpreter
  import opened Verifier
  import opened Inline

  lemma {:induction false} Locate(m: Module, can: seq<bool>, code: seq<Instruction>, p: nat, q: nat)
    returns (at: nat)
    requires BodiesExist(m, can) && p <= |code| && q < Start(m, can, code, p)
    ensures at < p && Start(m, can, code, at) <= q < Start(m, can, code, at + 1)
    decreases p
  {
    hide BodiesExist, Width;
    if q < Start(m, can, code, p - 1) { at := Locate(m, can, code, p - 1, q); } else { at := p - 1; }
  }

  lemma KeptOk(m: Module, fn: Function, fn': Function, i: Instruction, p: int, size: nat, q: int, size': nat)
    requires InstructionOk(m, fn, i, p, size) && !IsRelativeJump(i.op) && !IsTryOpcode(i.op)
    requires fn.regCount <= fn'.regCount && fn'.upvalueCount == fn.upvalueCount && fn'.isVararg == fn.isVararg
    ensures InstructionOk(m, fn', i, q, size')
  {
    hide ReferencesFit;
    assert ReferencesFit(m, fn', i) by { SameReferences(m, fn, fn', i); }
  }

  lemma SameReferences(m: Module, fn: Function, fn': Function, i: Instruction)
    requires ReferencesFit(m, fn, i) && fn'.upvalueCount == fn.upvalueCount && fn'.isVararg == fn.isVararg
    ensures ReferencesFit(m, fn', i)
  {
  }

  lemma JumpOk(
      m: Module, fn: Function, fn': Function, i: Instruction, i': Instruction, p: int, size: nat, q: int, size': nat)
    requires InstructionOk(m, fn, i, p, size) && IsRelativeJump(i.op) && fn.regCount <= fn'.regCount
    requires -0x8000_0000 <= JumpDelta(i') < 0x8000_0000 && i' == WithJumpDelta(i, JumpDelta(i'))
    requires 0 <= q + JumpDelta(i') < size'
    ensures InstructionOk(m, fn', i', q, size')
  {
  }

  // Code only moves apart.
  lemma {:induction false} StartsApart(m: Module, can: seq<bool>, code: seq<Instruction>, p: nat, q: nat)
    requires BodiesExist(m, can) && p <= q <= |code|
    ensures Start(m, can, code, q) - Start(m, can, code, p) >= q - p
  {
    InlinedPrefix(m, can, 0, code, p, q);
  }

  // A jump stays inside the code whether or not its new distance fits.
  lemma {:induction false} RedirectedOk(
      m: Module, can: seq<bool>, fn: Function, fn': Function, code: seq<Instruction>, p: nat)
    requires BodiesExist(m, can) && p < |code| && IsRelativeJump(code[p].op)
    requires InstructionOk(m, fn, code[p], p, |code|) && fn.regCount <= fn'.regCount
    ensures InstructionOk(m, fn', Redirected(m, can, code, p), Start(m, can, code, p), Start(m, can, code, |code|))
  {
    assert TargetsFit(code[p], p, |code|);
    RedirectedInside(m, can, code, p);
    hide BodiesExist, Start, InstructionOk, IsRelativeJump, JumpDelta, WithJumpDelta, Redirected;
    JumpOk(m, fn, fn', code[p], Redirected(m, can, code, p), p, |code|,
           Start(m, can, code, p), Start(m, can, code, |code|));
  }

  lemma {:induction false} RedirectedInside(m: Module, can: seq<bool>, code: seq<Instruction>, p: nat)
    requires BodiesExist(m, can) && p < |code| && IsRelativeJump(code[p].op) && 0 <= p + JumpDelta(code[p]) < |code|
    ensures var i' := Redirected(m, can, code, p);
            && -0x8000_0000 <= JumpDelta(i') < 0x8000_0000 && i' == WithJumpDelta(code[p], JumpDelta(i'))
            && 0 <= Start(m, can, code, p) + JumpDelta(i') < Start(m, can, code, |code|)
  {
    hide BodiesExist, Start, IsRelativeJump, JumpDelta, WithJumpDelta;
    var t := p + JumpDelta(code[p]);
    SameDelta(code[p]);
    StartsApart(m, can, code, t, |code|);
    if p <= t { StartsApart(m, can, code, p, t); } else { StartsApart(m, can, code, t, p); }
    StartsApart(m, can, code, p, |code|);
  }

  lemma SameDelta(i: Instruction)
    ensures -0x8000_0000 <= JumpDelta(i) < 0x8000_0000 && WithJumpDelta(i, JumpDelta(i)) == i
  {
    SignedOperand(JumpOperand(i));
  }

  lemma SignedOperand(x: U32)
    ensures UnsignedI32(SignedU32(x)) == x
  {
  }

  lemma RemapKeeps(i: Instruction, base: nat)
    ensures var i' := RemapRegs(i, base);
            i'.op == i.op && JumpDelta(i') == JumpDelta(i) && (i.op == LoadK ==> i'.b == i.b)
  {
    hide SignedU32, AddU32;
  }

  // A shifted body instruction, at the same distance from its siblings.
  lemma BodyOk(
      m: Module, callee: Function, fn': Function, i: Instruction, k: nat, n: nat, base: nat, at: nat, size: nat)
    requires InstructionOk(m, callee, i, k, n) && IsInlineSafe(i.op) && i.op != Ret
    requires base + callee.regCount <= fn'.regCount && at + n <= size
    ensures InstructionOk(m, fn', RemapRegs(i, base), at + k, size)
  {
    hide RegistersFit, RemapRegs, JumpDelta;
    RemapKeeps(i, base);
    BodyRegistersOk(callee.regCount, fn'.regCount, i, base);
  }

  lemma BodyRegistersOk(n: nat, n': nat, i: Instruction, base: nat)
    requires RegistersFit(i, n) && IsInlineSafe(i.op) && i.op != Ret && base + n <= n' <= 0x1_0000
    ensures RegistersFit(RemapRegs(i, base), n')
  {
    forall r: U32 | r < n ensures AddU32(r, base) == r + base < base + n { ShiftFits(n, r, base); }
    hide AddU32, WindowFits;
    if IsCompute(i.op) {
      ComputeRegistersOk(n, n', i, base);
    } else {
      hide Operand1, Operand2, IsIntBinary;
    }
  }

  lemma ComputeRegistersOk(n: nat, n': nat, i: Instruction, base: nat)
    requires IsCompute(i.op) && i.a < n && Operand1(i) < n && Operand2(i) < n && base + n <= n'
    requires forall r: U32 :: r < n ==> AddU32(r, base) == r + base < base + n
    ensures RegistersFit(RemapRegs(i, base), n')
  {
    hide AddU32, WindowFits;
  }

  lemma ShiftFits(n: nat, r: U32, base: nat)
    requires base + n <= 0x1_0000
    ensures r < n ==> AddU32(r, base) == r + base < base + n
  {
  }

  lemma MovOk(m: Module, fn': Function, to: U32, from: U32, q: int, size: nat)
    requires to < fn'.regCount && from < fn'.regCount
    ensures InstructionOk(m, fn', Make(Mov, to, from, 0), q, size)
  {
  }

  // One instruction of an expanded call.
  lemma CallOk(
      m: Module, fn: Function, fn': Function, i: Instruction, k: nat, at: nat, size: nat)
    requires i.b < |m.functions| && FunctionOk(m, m.functions[i.b])
    requires InlineBody(m.functions[i.b].Code(), m.functions[i.b].regCount)
    requires i.c == m.functions[i.b].paramCount && i.a + i.c < fn.regCount
    requires fn.regCount + m.functions[i.b].regCount <= fn'.regCount
    requires k < |ExpandedCall(m, i, fn.regCount)| && at + |ExpandedCall(m, i, fn.regCount)| <= size
    ensures InstructionOk(m, fn', ExpandedCall(m, i, fn.regCount)[k], at + k, size)
  {
    hide InstructionOk, RemapRegs, IsInlineSafe, ExpandedCall, FunctionOk, InlineBody;
    var callee, base := m.functions[i.b], fn.regCount;
    var code := callee.Code();
    CalleeFacts(m, callee);
    ExpandedCallAt(m, i, base, k);
    if k < i.c {
      MovOk(m, fn', k + base, i.a + 1 + k, at + k, size);
    } else if k < i.c + |code| - 1 {
      CalleeInstruction(m, callee, k - i.c);
      BodyOk(m, callee, fn', code[k - i.c], k - i.c, |code|, base, at + i.c, size);
    } else {
      MovOk(m, fn', i.a, code[|code| - 1].a + base, at + k, size);
    }
  }

  lemma MovesAt(i: Instruction, base: nat)
    requires i.a + i.c < base && base + i.c <= 0x1_0000
    ensures |ArgMoves(i, base)| == i.c
    ensures forall k :: 0 <= k < i.c ==> ArgMoves(i, base)[k] == Make(Mov, k + base, i.a + 1 + k, 0)
  {
  }

  lemma BodyAt(code: seq<Instruction>, base: nat)
    requires code != []
    ensures |BodyOf(code, base)| == |code| - 1
    ensures forall k :: 0 <= k < |code| - 1 ==> BodyOf(code, base)[k] == RemapRegs(code[k], base)
  {
    hide RemapRegs;
  }

  lemma ExpandedCallAt(m: Module, i: Instruction, base: nat, k: nat)
    requires i.b < |m.functions| && m.functions[i.b].Code() != [] && k < |ExpandedCall(m, i, base)|
    requires i.a + i.c < base && base + i.c <= 0x1_0000
    requires m.functions[i.b].Code()[|m.functions[i.b].Code()| - 1].a + base < 0x1_0000
    ensures var code := m.functions[i.b].Code();
            && |ExpandedCall(m, i, base)| == i.c + |code|
            && ExpandedCall(m, i, base)[k] ==
                 if k < i.c then Make(Mov, k + base, i.a + 1 + k, 0)
                 else if k < i.c + |code| - 1 then RemapRegs(code[k - i.c], base)
                 else Make(Mov, i.a, code[|code| - 1].a + base, 0)
  {
    var code := m.functions[i.b].Code();
    MovesAt(i, base);
    BodyAt(code, base);
    assert AddU32(code[|code| - 1].a, base) == code[|code| - 1].a + base;
    hide RemapRegs, Bytecode.Function.Code, ArgMoves, BodyOf, AddU32;
  }

  lemma CalleeFacts(m: Module, callee: Function)
    requires FunctionOk(m, callee) && InlineBody(callee.Code(), callee.regCount)
    ensures callee.paramCount <= callee.regCount && callee.Code() != []
    ensures callee.Code()[|callee.Code()| - 1].a < callee.regCount
  {
  }

  lemma CalleeInstruction(m: Module, callee: Function, k: nat)
    requires FunctionOk(m, callee) && InlineBody(callee.Code(), callee.regCount) && k < |callee.Code()| - 1
    ensures InstructionOk(m, callee, callee.Code()[k], k, |callee.Code()|)
    ensures IsInlineSafe(callee.Code()[k].op) && callee.Code()[k].op != Ret
  {
  }

  lemma InlinedOk(m: Module, can: seq<bool>, fn: Function, fn': Function, code: seq<Instruction>, q: nat)
    requires Accepted(m) && BodiesExist(m, can) && CodeOk(m, fn, code) && TryFree(code)
    requires forall g :: 0 <= g < |can| && can[g] ==> InlineBody(m.functions[g].Code(), m.functions[g].regCount)
    requires forall p :: 0 <= p < |code| && Site(m, can, code[p]) ==>
               fn.regCount + m.functions[code[p].b].regCount <= fn'.regCount
    requires fn.regCount <= fn'.regCount && fn'.upvalueCount == fn.upvalueCount && fn'.isVararg == fn.isVararg
    requires q < |InlinedCode(m, can, fn.regCount, code)|
    ensures InstructionOk(m, fn', InlinedCode(m, can, fn.regCount, code)[q], q,
            |InlinedCode(m, can, fn.regCount, code)|)
  {
    hide InlinedCode, Start, BodiesExist, InlineBody, RemapRegs, IsRelativeJump, IsTryOpcode, Site, ExpandedCall,
         Redirected, InstructionOk, Accepted, FunctionOk;
    var base, size := fn.regCount, Start(m, can, code, |code|);
    InlinedLength(m, can, base, code);
    var p := Locate(m, can, code, |code|, q);
    var at, i := Start(m, can, code, p), code[p];
    InlinedAt(m, can, base, code, p, q - at);
    if Site(m, can, i) {
      SiteWindow(m, can, fn, i, p, |code|);
      InlinedPrefix(m, can, base, code, p + 1, |code|);
      AcceptedCallee(m, i.b);
      CallOk(m, fn, fn', i, q - at, at, size);
    } else if IsRelativeJump(i.op) {
      JumpIsNoSite(m, can, i);
      RedirectedOk(m, can, fn, fn', code, p);
    } else {
      KeptOk(m, fn, fn', i, p, |code|, q, size);
    }
  }

  lemma {:induction false} InlinedLength(m: Module, can: seq<bool>, base: nat, code: seq<Instruction>)
    requires BodiesExist(m, can)
    ensures |InlinedCode(m, can, base, code)| == Start(m, can, code, |code|)
    ensures forall p :: 0 <= p < |code| ==>
            Start(m, can, code, p + 1) == Start(m, can, code, p) + Width(m, can, code[p])
  {
    hide Width;
  }

  lemma AcceptedCallee(m: Module, g: nat)
    requires Accepted(m) && g < |m.functions|
    ensures FunctionOk(m, m.functions[g])
  {
  }

  lemma SiteWindow(m: Module, can: seq<bool>, fn: Function, i: Instruction, p: int, size: nat)
    requires InstructionOk(m, fn, i, p, size) && Site(m, can, i)
    ensures i.b < |m.functions| && i.b < |can| && can[i.b]
    ensures i.a + i.c < fn.regCount && i.c == m.functions[i.b].paramCount
  {
  }
}
