/** Inlining of small functions: what the pass produces. */
module Inline {
  import opened Int64
  import opened Bytecode
  import opened Interpreter
  import opened Verifier
  import opened Passes

  predicate IsInlineSafe(op: Opcode) {
    IsCompute(op) || IsRelativeJump(op) ||
    match op
    case Nop | LoadK | StrLen | StrConcat | Ret => true
    case _ => false
  }

  // scratch_base + register, in uint32_t arithmetic.
  function RemapRegs(i: Instruction, base: nat): Instruction {
    if IsCompute(i.op) then
      if i.op == Inc || i.op == Dec then i.(a := AddU32(i.a, base))
      else if IsIntBinary(i.op) || i.op == CmpEq
      then i.(a := AddU32(i.a, base), b := AddU32(i.b, base), c := AddU32(i.c, base))
      else i.(a := AddU32(i.a, base), b := AddU32(i.b, base))
    else
      match i.op
      case StrConcat => i.(a := AddU32(i.a, base), b := AddU32(i.b, base), c := AddU32(i.c, base))
      case StrLen | AddDecJnz => i.(a := AddU32(i.a, base), b := AddU32(i.b, base))
      case LoadK | Ret | JmpIf | JmpIfZero | JmpIfNotZero | DecJnz | SubImmJnz | AddImmJnz =>
        i.(a := AddU32(i.a, base))
      case _ => i
  }

  predicate CallsItself(code: seq<Instruction>, fi: nat) {
    exists p :: 0 <= p < |code| && (code[p].op == Call || code[p].op == TailCall) && code[p].b == fi
  }

  // Straight-line-or-jumping code of safe instructions that returns at its end only.
  predicate InlineBody(code: seq<Instruction>, regCount: nat) {
    && code != [] && TryFree(code)
    && (forall p :: 0 <= p < |code| ==> IsInlineSafe(code[p].op))
    && (forall p :: 0 <= p < |code| && IsRelativeJump(code[p].op) ==> 0 <= p + JumpDelta(code[p]) < |code|)
    && (forall p :: 0 <= p < |code| ==> (code[p].op == Ret <==> p == |code| - 1))
    && code[|code| - 1].a < regCount
  }

  predicate Candidate(m: Module, g: nat, maxInst: nat)
    requires g < |m.functions|
  {
    var f := m.functions[g];
    && !f.isExported && !f.isVararg && f.upvalueCount == 0 && f.regCount != 0
    && !CallsItself(f.Code(), g)
    && |f.Code()| <= maxInst && InlineBody(f.Code(), f.regCount)
  }

  // The callee scan of IsInlineCandidate.
  method ScanBody(code: seq<Instruction>, regCount: nat) returns (ok: bool)
    requires code != []
    ensures ok <==> InlineBody(code, regCount)
  {
    hide IsRelativeJump, JumpDelta, IsInlineSafe, TryFree, Bytecode.Function.Code;
    if !TryFree(code) { return false; }
    var rets := 0;
    for i := 0 to |code|
      invariant forall p :: 0 <= p < i ==> IsInlineSafe(code[p].op)
      invariant forall p :: 0 <= p < i && IsRelativeJump(code[p].op) ==> 0 <= p + JumpDelta(code[p]) < |code|
      invariant forall p :: 0 <= p < i && code[p].op == Ret ==> p == |code| - 1 && code[p].a < regCount
      invariant rets == if i == |code| && code[|code| - 1].op == Ret then 1 else 0
    {
      var inst := code[i];
      if !IsInlineSafe(inst.op) { return false; }
      if IsRelativeJump(inst.op) {
        var target := i + JumpDelta(inst);
        if target < 0 || target >= |code| { return false; }
      }
      if inst.op == Ret {
        if inst.a >= regCount { return false; }
        rets := rets + 1;
        if i + 1 != |code| { return false; }
      }
    }
    ok := rets == 1;
  }

  method IsInlineCandidate(m: Module, g: nat, maxInst: nat) returns (ok: bool)
    requires g < |m.functions|
    ensures ok <==> Candidate(m, g, maxInst)
  {
    var f := m.functions[g];
    if f.isExported || f.isVararg || f.upvalueCount != 0 { return false; }
    if f.regCount == 0 { return false; }
    if CallsItself(f.Code(), g) { return false; }
    var code := f.Code();
    if code == [] || |code| > maxInst { return false; }
    ok := ScanBody(code, f.regCount);
  }

  // ---- The expanded caller ---------------------------------------------------------------------

  // Calls that are replaced by the callee's body.
  predicate Site(m: Module, can: seq<bool>, i: Instruction) {
    i.op == Call && i.b < |m.functions| && i.b < |can| && can[i.b] && m.functions[i.b].paramCount == i.c
  }

  function ArgMoves(i: Instruction, base: nat): seq<Instruction> {
    seq(i.c, k requires 0 <= k < i.c => Make(Mov, AddU32(k, base), AddU32(AddU32(i.a, 1), k), 0))
  }

  function BodyOf(code: seq<Instruction>, base: nat): seq<Instruction>
    requires code != []
  {
    seq(|code| - 1, k requires 0 <= k < |code| - 1 => RemapRegs(code[k], base))
  }

  // A call site: arguments, body, result.
  function ExpandedCall(m: Module, i: Instruction, base: nat): seq<Instruction>
    requires i.b < |m.functions| && m.functions[i.b].Code() != []
  {
    var code := m.functions[i.b].Code();
    ArgMoves(i, base) + BodyOf(code, base) + [Make(Mov, i.a, AddU32(code[|code| - 1].a, base), 0)]
  }

  predicate BodiesExist(m: Module, can: seq<bool>) {
    |can| == |m.functions| && forall g :: 0 <= g < |can| && can[g] ==> m.functions[g].Code() != []
  }

  function Width(m: Module, can: seq<bool>, i: Instruction): (n: nat)
    requires BodiesExist(m, can)
    ensures n > 0
  {
    if Site(m, can, i) then i.c + |m.functions[i.b].Code()| else 1
  }

  // Where the expansion of old instruction `p` starts.
  function Start(m: Module, can: seq<bool>, code: seq<Instruction>, p: nat): (n: nat)
    requires BodiesExist(m, can) && p <= |code|
    ensures n >= p
  {
    if p == 0 then 0 else Start(m, can, code, p - 1) + Width(m, can, code[p - 1])
  }

  // The expansion of one old instruction; a jump is sent to the start of its target, unless
  // the distance does not fit.
  function Expansion(m: Module, can: seq<bool>, base: nat, code: seq<Instruction>, p: nat): (r: seq<Instruction>)
    requires BodiesExist(m, can) && p < |code|
    ensures |r| == Width(m, can, code[p])
  {
    var i := code[p];
    if Site(m, can, i) then ExpandedCall(m, i, base)
    else if IsRelativeJump(i.op) then [Redirected(m, can, code, p)]
    else [i]
  }

  function Redirected(m: Module, can: seq<bool>, code: seq<Instruction>, p: nat): Instruction
    requires BodiesExist(m, can) && p < |code|
  {
    var t := p + JumpDelta(code[p]);
    if !(0 <= t < |code|) then code[p]
    else
      var delta := Start(m, can, code, t) - Start(m, can, code, p);
      if -0x8000_0000 <= delta < 0x8000_0000 then WithJumpDelta(code[p], delta) else code[p]
  }

  function Inlined(m: Module, can: seq<bool>, base: nat, code: seq<Instruction>, p: nat): (r: seq<Instruction>)
    requires BodiesExist(m, can) && p <= |code|
    ensures |r| == Start(m, can, code, p)
  {
    if p == 0 then [] else Inlined(m, can, base, code, p - 1) + Expansion(m, can, base, code, p - 1)
  }

  function InlinedCode(m: Module, can: seq<bool>, base: nat, code: seq<Instruction>): seq<Instruction>
    requires BodiesExist(m, can)
  {
    Inlined(m, can, base, code, |code|)
  }

  lemma {:induction false} InlinedPrefix(
      m: Module, can: seq<bool>, base: nat, code: seq<Instruction>, p: nat, q: nat)
    requires BodiesExist(m, can) && p <= q <= |code|
    ensures Inlined(m, can, base, code, p) <= Inlined(m, can, base, code, q)
    ensures Start(m, can, code, q) - Start(m, can, code, p) >= q - p
    decreases q - p
  {
    hide BodiesExist, Expansion, Width;
    if p < q { InlinedPrefix(m, can, base, code, p, q - 1); }
  }

  // Instruction k of the expansion of p, in the new code.
  lemma InlinedAt(m: Module, can: seq<bool>, base: nat, code: seq<Instruction>, p: nat, k: nat)
    requires BodiesExist(m, can) && p < |code| && k < Width(m, can, code[p])
    ensures Start(m, can, code, p) + k < |InlinedCode(m, can, base, code)|
    ensures InlinedCode(m, can, base, code)[Start(m, can, code, p) + k] == Expansion(m, can, base, code, p)[k]
    ensures Start(m, can, code, p + 1) == Start(m, can, code, p) + Width(m, can, code[p])
  {
    hide BodiesExist, Expansion, Width;
    InlinedPrefix(m, can, base, code, p + 1, |code|);
  }

  // ---- Building it -----------------------------------------------------------------------------

  // The expansion before jumps are redirected.
  function Plain(m: Module, can: seq<bool>, base: nat, code: seq<Instruction>, p: nat): (r: seq<Instruction>)
    requires BodiesExist(m, can) && p <= |code|
    ensures |r| == Start(m, can, code, p)
  {
    if p == 0 then []
    else Plain(m, can, base, code, p - 1) +
         if Site(m, can, code[p - 1]) then ExpandedCall(m, code[p - 1], base) else [code[p - 1]]
  }

  lemma PlainStarts(m: Module, can: seq<bool>, base: nat, code: seq<Instruction>)
    requires BodiesExist(m, can)
    ensures Plain(m, can, base, code, 0) == []
  {
  }

  lemma PlainStep(m: Module, can: seq<bool>, base: nat, code: seq<Instruction>, p: nat)
    requires BodiesExist(m, can) && p < |code|
    ensures Site(m, can, code[p]) ==> code[p].b < |m.functions| && m.functions[code[p].b].Code() != []
    ensures Plain(m, can, base, code, p + 1) ==
              Plain(m, can, base, code, p) +
              if Site(m, can, code[p]) then ExpandedCall(m, code[p], base) else [code[p]]
  {
    hide ExpandedCall, Start;
  }

  lemma {:induction false} PlainPrefix(m: Module, can: seq<bool>, base: nat, code: seq<Instruction>, p: nat, q: nat)
    requires BodiesExist(m, can) && p <= q <= |code|
    ensures Plain(m, can, base, code, p) <= Plain(m, can, base, code, q)
    decreases q - p
  {
    hide BodiesExist, ExpandedCall, Site, Width;
    if p < q { PlainPrefix(m, can, base, code, p, q - 1); }
  }

  method ExpandCall(m: Module, i: Instruction, base: nat) returns (r: seq<Instruction>)
    requires i.b < |m.functions| && m.functions[i.b].Code() != []
    ensures r == ExpandedCall(m, i, base)
  {
    var code := m.functions[i.b].Code();
    r := [];
    for k := 0 to i.c
      invariant r == ArgMoves(i, base)[..k]
    {
      r := r + [Make(Mov, AddU32(k, base), AddU32(AddU32(i.a, 1), k), 0)];
    }
    for k := 0 to |code| - 1
      invariant r == ArgMoves(i, base) + BodyOf(code, base)[..k]
    {
      r := r + [RemapRegs(code[k], base)];
    }
    r := r + [Make(Mov, i.a, AddU32(code[|code| - 1].a, base), 0)];
  }

  method ExpandCode(m: Module, can: seq<bool>, base: nat, code: seq<Instruction>)
    returns (r: seq<Instruction>, starts: seq<nat>)
    requires BodiesExist(m, can)
    ensures r == Plain(m, can, base, code, |code|)
    ensures |starts| == |code| && forall p :: 0 <= p < |code| ==> starts[p] == Start(m, can, code, p)
  {
    hide BodiesExist, Site, ExpandedCall, Plain, Start, Width;
    PlainStarts(m, can, base, code);
    r, starts := [], [];
    for p := 0 to |code|
      invariant r == Plain(m, can, base, code, p)
      invariant |starts| == p && forall k :: 0 <= k < p ==> starts[k] == Start(m, can, code, k)
    {
      PlainStep(m, can, base, code, p);
      starts := starts + [|r|];
      if Site(m, can, code[p]) {
        SiteBody(m, can, code[p]);
        var expanded := ExpandCall(m, code[p], base);
        r := r + expanded;
      } else {
        r := r + [code[p]];
      }
    }
  }

  lemma SiteBody(m: Module, can: seq<bool>, i: Instruction)
    requires BodiesExist(m, can) && Site(m, can, i)
    ensures i.b < |m.functions| && m.functions[i.b].Code() != []
  {
  }

  lemma InlinedStarts(m: Module, can: seq<bool>, base: nat, code: seq<Instruction>)
    requires BodiesExist(m, can)
    ensures Start(m, can, code, 0) == 0 && Inlined(m, can, base, code, 0) == []
  {
  }

  lemma StartStep(m: Module, can: seq<bool>, code: seq<Instruction>, p: nat)
    requires BodiesExist(m, can) && p < |code|
    ensures Start(m, can, code, p + 1) == Start(m, can, code, p) + Width(m, can, code[p])
  {
    hide BodiesExist, Width;
  }

  method RedirectJumps(
      m: Module, can: seq<bool>, base: nat, code: seq<Instruction>, plain: seq<Instruction>, starts: seq<nat>)
    returns (r: seq<Instruction>)
    requires BodiesExist(m, can) && plain == Plain(m, can, base, code, |code|)
    requires |starts| == |code| && forall p :: 0 <= p < |code| ==> starts[p] == Start(m, can, code, p)
    ensures r == InlinedCode(m, can, base, code)
  {
    hide BodiesExist, Site, ExpandedCall, Width, Start, Plain, Inlined, IsRelativeJump, JumpDelta, WithJumpDelta;
    InlinedStarts(m, can, base, code);
    r := plain;
    for p := 0 to |code|
      invariant |r| == |plain|
      invariant Start(m, can, code, p) <= |plain|
      invariant r[..Start(m, can, code, p)] == Inlined(m, can, base, code, p)
      invariant r[Start(m, can, code, p)..] == plain[Start(m, can, code, p)..]
    {
      var at := starts[p];
      ghost var next := Start(m, can, code, p + 1);
      PlainPrefix(m, can, base, code, p + 1, |code|);
      StartStep(m, can, code, p);
      PlainStep(m, can, base, code, p);
      ghost var before := r;
      if IsRelativeJump(code[p].op) {
        JumpIsNoSite(m, can, code[p]);
        assert before[at..][0] == plain[at..][0] == plain[at] == code[p];
        var target := p + JumpDelta(code[p]);
        if 0 <= target < |code| {
          var delta: int := starts[target] as int - at;
          if -0x8000_0000 <= delta <= 0x7FFF_FFFF { r := r[at := WithJumpDelta(code[p], delta)]; }
        }
      }
      RedirectedOne(m, can, base, code, p, plain, before, r);
    }
  }

  lemma JumpIsNoSite(m: Module, can: seq<bool>, i: Instruction)
    requires IsRelativeJump(i.op)
    ensures !Site(m, can, i) && (BodiesExist(m, can) ==> Width(m, can, i) == 1)
  {
  }

  lemma RedirectedOne(
      m: Module, can: seq<bool>, base: nat, code: seq<Instruction>, p: nat, plain: seq<Instruction>,
      before: seq<Instruction>, r: seq<Instruction>)
    requires BodiesExist(m, can) && p < |code| && plain == Plain(m, can, base, code, |code|)
    requires |before| == |plain| == |r| && Start(m, can, code, p + 1) <= |plain|
    requires before[..Start(m, can, code, p)] == Inlined(m, can, base, code, p)
    requires before[Start(m, can, code, p)..] == plain[Start(m, can, code, p)..]
    requires Plain(m, can, base, code, p + 1) <= plain
    requires r == if IsRelativeJump(code[p].op)
                  then before[Start(m, can, code, p) := Redirected(m, can, code, p)] else before
    ensures r[..Start(m, can, code, p + 1)] == Inlined(m, can, base, code, p + 1)
    ensures r[Start(m, can, code, p + 1)..] == plain[Start(m, can, code, p + 1)..]
  {
    hide ExpandedCall, Redirected, Width, IsRelativeJump, Site, BodiesExist;
    var at, next := Start(m, can, code, p), Start(m, can, code, p + 1);
    var piece := if Site(m, can, code[p]) then ExpandedCall'(m, can, code[p], base) else [code[p]];
    OneMore(m, can, base, code, p);
    assert plain[at..next] == Plain(m, can, base, code, p + 1)[at..next];
    Spliced(before, plain, r, at, next, piece,
            if IsRelativeJump(code[p].op) then [Redirected(m, can, code, p)] else piece);
  }

  function ExpandedCall'(m: Module, can: seq<bool>, i: Instruction, base: nat): (r: seq<Instruction>)
    requires BodiesExist(m, can) && Site(m, can, i)
    ensures |r| == Width(m, can, i)
  {
    ExpandedCall(m, i, base)
  }

  lemma OneMore(m: Module, can: seq<bool>, base: nat, code: seq<Instruction>, p: nat)
    requires BodiesExist(m, can) && p < |code|
    ensures var piece := if Site(m, can, code[p]) then ExpandedCall'(m, can, code[p], base) else [code[p]];
            && |piece| == Width(m, can, code[p])
            && Start(m, can, code, p + 1) == Start(m, can, code, p) + |piece|
            && Plain(m, can, base, code, p + 1) == Plain(m, can, base, code, p) + piece
            && Inlined(m, can, base, code, p + 1) == Inlined(m, can, base, code, p) +
                 (if IsRelativeJump(code[p].op) then [Redirected(m, can, code, p)] else piece)
            && (IsRelativeJump(code[p].op) ==> |piece| == 1)
  {
    hide Redirected;
    if IsRelativeJump(code[p].op) { JumpIsNoSite(m, can, code[p]); }
  }

  lemma Spliced<T>(
      before: seq<T>, plain: seq<T>, r: seq<T>, at: nat, next: nat, piece: seq<T>, piece': seq<T>)
    requires at <= next <= |plain| == |before| == |r| && next == at + |piece| && |piece'| == |piece|
    requires before[at..] == plain[at..] && plain[at..next] == piece
    requires (r == before && piece' == piece) || (|piece| == 1 && at < |r| && r == before[at := piece'[0]])
    ensures r[..next] == before[..at] + piece' && r[next..] == plain[next..]
  {
    assert before[at..next] == before[at..][..next - at] == plain[at..][..next - at] == plain[at..next];
    assert before[next..] == before[at..][next - at..] == plain[at..][next - at..] == plain[next..];
    if r == before && piece' == piece {
      assert r[..next] == r[..at] + r[at..next];
    } else {
      assert r[..next] == before[..at] + [piece'[0]];
    }
  }
}
