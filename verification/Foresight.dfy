/** What can be said before optimizing: conditions on a module under which the pipelines of
    the lower levels keep the meaning of the program. */
module Foresight {
  import opened Int64
  import opened Bytecode
  import opened Machines
  import opened Interpreter
  import opened Verifier
  import opened Passes
  import opened Meanings
  import opened Blocks
  import opened Pipeline
  import opened Reaching
  import opened TailTypes
  import KnownValues
  import SccpAnalysis
  import P = Peephole
  import Tc = Tailcall
  import Lf = LoopFusion
  import Cf = ConstFold
  import Cp = CopyProp
  import D = Dce
  import Cl = Cleanup
  import It = IntTags
  import Ip = InlinePass

  // ---- What survives ------------------------------------------------------------------------

  // Control never goes on behind such an instruction, and no pass makes a Nop of it.
  predicate Firm(i: Instruction) { IsTerminator(i.op) || (i.op == Jmp && JumpDelta(i) <= 0) }

  // The code ends firmly at `q`, and no jump goes further.
  predicate FirmAt(code: seq<Instruction>, q: int) {
    && 0 <= q < |code| && Firm(code[q]) && (forall k :: q < k < |code| ==> code[k].op == Nop)
    && forall p :: 0 <= p < |code| && IsRelativeJump(code[p].op) ==> p + JumpDelta(code[p]) <= q
  }

  ghost predicate EndsFirmly(code: seq<Instruction>) { exists q :: FirmAt(code, q) }

  // No jump comes in between a call and a return that become a tail call.
  ghost predicate TailsUndivided(code: seq<Instruction>) { Tc.TailPairs(code) == {} || Tc.ReturnsUnlabelled(code) }

  // What function `fn` needs before the k-th pass of level 1, or of level 2 if `folding`.
  ghost predicate Ready(k: nat, folding: bool, fn: Function) {
    && (k <= 1 ==> TailsUndivided(fn.Code()))
    && (k <= 2 ==> Lf.FusionSafe(fn.Code()))
    && (k <= 3 || (folding && k <= 6) ==> EndsFirmly(fn.Code()))
    && (folding && k <= 5 ==> NoClash(fn.Code(), k == 0) && (k <= 2 ==> FusesApart(fn.Code(), k == 0)))
    && (k == 7 ==> Cl.Compactable(fn.Code()) ==> Cl.TargetsSurvive(fn.Code()))
  }

  // ---- Peephole ---------------------------------------------------------------------------------

  // `i'` is `i`, or does nothing, or is a move where `i` was an addition of zero.
  predicate Thinner(i: Instruction, i': Instruction) {
    || i' == i
    || (i.op != Nop && !Stops(i, true) && i.op != Call && i.op != CallClosure && i.op != TryBegin
        && (i' == NOP || (P.AddsZero(i) && i.a != i.b && i' == Make(Mov, i.a, i.b, 0))))
  }

  predicate Thinned(code: seq<Instruction>, code': seq<Instruction>) {
    |code'| == |code| && forall p :: 0 <= p < |code| ==> Thinner(code[p], code'[p])
  }

  lemma SimplifiedThinned(code: seq<Instruction>)
    ensures Thinned(code, P.SimplifiedCode(code))
  {
  }

  lemma ThinnedLabels(code: seq<Instruction>, code': seq<Instruction>, t: int)
    requires Thinned(code, code') && IsLabel(code', t)
    ensures IsLabel(code, t)
  {
    hide JumpDelta, Firm, P.AddsZero;
    var p :| 0 <= p < |code'| && NamesTarget(code', p, t);
    assert Thinner(code[p], code'[p]) && code'[p] == code[p];
    assert NamesTarget(code, p, t);
  }

  lemma ThinnedTailPair(code: seq<Instruction>, code': seq<Instruction>, p: int)
    requires Thinned(code, code') && Tc.TailPair(code', p)
    ensures Tc.TailPair(code, p)
  {
    assert Thinner(code[p], code'[p]) && Thinner(code[p + 1], code'[p + 1]);
  }

  lemma ThinnedFusePair(code: seq<Instruction>, code': seq<Instruction>, p: int)
    requires Thinned(code, code') && Lf.FusePair(code', p)
    ensures Lf.FusePair(code, p) && code'[p] == code[p] && code'[p + 1] == code[p + 1]
  {
    hide JumpDelta, Firm;
    assert Thinner(code[p], code'[p]) && Thinner(code[p + 1], code'[p + 1]);
  }

  lemma ThinnedFirm(code: seq<Instruction>, code': seq<Instruction>)
    requires Thinned(code, code') && EndsFirmly(code)
    ensures EndsFirmly(code')
  {
    var q :| FirmAt(code, q);
    hide JumpDelta, Firm, P.AddsZero;
    assert Thinner(code[q], code'[q]);
    forall p | 0 <= p < |code'| && IsRelativeJump(code'[p].op) ensures p + JumpDelta(code'[p]) <= q {
      assert Thinner(code[p], code'[p]);
    }
    forall k | q < k < |code'| ensures code'[k].op == Nop { assert Thinner(code[k], code'[k]); }
    assert FirmAt(code', q);
  }

  // What lasts is left alone.
  lemma ThinnedBounded(code: seq<Instruction>, code': seq<Instruction>)
    requires Thinned(code, code')
    ensures Bounded(code, true, code', false) && forall k :: 0 <= k < |code| ==> Milder(code[k], code'[k])
  {
    hide Thinner, Milder, StopStays, Anchors, Bounded;
    forall k | 0 <= k < |code| ensures Milder(code[k], code'[k]) && StopStays(code, true, code', false, k) {
      ThinnerCase(code, code', k);
    }
    forall k, t | 0 <= k < |code| && Anchors(code[k], k, t, true) ensures Anchors(code'[k], k, t, false) {
      ThinnerCase(code, code', k);
    }
    BoundedIf(code, true, code', false);
  }

  lemma ThinnerCase(code: seq<Instruction>, code': seq<Instruction>, k: int)
    requires 0 <= k < |code| == |code'| && Thinner(code[k], code'[k])
    ensures Milder(code[k], code'[k]) && StopStays(code, true, code', false, k)
    ensures forall t :: Anchors(code[k], k, t, true) ==> Anchors(code'[k], k, t, false)
  {
    hide JumpDelta;
  }

  // Labels and pairs only disappear.
  lemma ThinnedReady(folding: bool, fn: Function, fn': Function)
    requires Ready(0, folding, fn) && Thinned(fn.Code(), fn'.Code()) && fn'.returnType == fn.returnType
    ensures Ready(1, folding, fn')
  {
    var code, code' := fn.Code(), fn'.Code();
    hide Thinned, EndsFirmly, NoClash, FusesApart, Bounded, Milder, IsLabel, Lf.FusePair, Tc.TailPair;
    forall p | 0 <= p < |code'| && Tc.TailPair(code', p) ensures Tc.TailPair(code, p) && p in Tc.TailPairs(code) {
      ThinnedSize(code, code');
      ThinnedTailPair(code, code', p);
    }
    forall p | IsLabel(code', p) ensures IsLabel(code, p) { ThinnedLabels(code, code', p); }
    ThinnedSize(code, code');
    forall p | 0 <= p < |code'| && Lf.FusePair(code', p) ensures Lf.FusePair(code, p) && code'[p] == code[p] {
      ThinnedFusePair(code, code', p);
    }
    ThinnedSize(code, code');
    ThinnedFirm(code, code');
    if folding {
      ThinnedBounded(code, code');
      NoClashKept(code, true, code', false);
      FusesApartKept(code, true, code', false);
    }
  }

  lemma ThinnedSize(code: seq<Instruction>, code': seq<Instruction>)
    requires Thinned(code, code')
    ensures |code'| == |code|
  {
  }

  // ---- Tail calls --------------------------------------------------------------------------------

  // Calls, returns and Nops.
  predicate Inert(i: Instruction) {
    match i.op
    case Call | CallClosure | TailCall | TailCallClosure | Ret | Nop => true
    case _ => false
  }

  predicate Exchanged(code: seq<Instruction>, code': seq<Instruction>) {
    |code'| == |code| && forall p :: 0 <= p < |code| ==> code'[p] == code[p] || (Inert(code[p]) && Inert(code'[p]))
  }

  lemma TailAt(code: seq<Instruction>, p: int)
    requires 0 <= p < |code|
    ensures var i' := Tc.TailCalled(code)[p];
            && (Tc.TailPair(code, p) ==> i' == Tc.TailCalling(code[p]) && Inert(code[p]) && Inert(i') && Firm(i'))
            && (!Tc.TailPair(code, p) && Tc.TailPair(code, p - 1) ==> i' == NOP && Inert(code[p]))
            && (!Tc.TailPair(code, p) && !Tc.TailPair(code, p - 1) ==> i' == code[p])
  {
  }

  lemma TailExchanged(code: seq<Instruction>)
    ensures Exchanged(code, Tc.TailCalled(code))
  {
    hide Inert, Tc.TailCalled, Tc.TailPair;
    forall p | 0 <= p < |code|
      ensures Tc.TailCalled(code)[p] == code[p] || (Inert(code[p]) && Inert(Tc.TailCalled(code)[p]))
    {
      TailAt(code, p);
      NopInert();
    }
  }

  lemma NopInert()
    ensures Inert(NOP)
  {
  }

  lemma ExchangedFusion(code: seq<Instruction>, code': seq<Instruction>)
    requires Exchanged(code, code') && Lf.FusionSafe(code)
    ensures Lf.FusionSafe(code')
    ensures forall p :: 0 <= p < |code'| && Lf.FusePair(code', p) ==> Lf.FusePair(code, p) && code'[p] == code[p]
  {
    hide JumpDelta;
    forall p | 0 <= p < |code'| && Lf.FusePair(code', p) ensures Lf.FusePair(code, p) && code'[p] == code[p] {
      assert code'[p] == code[p] && code'[p + 1] == code[p + 1];
    }
    forall t | IsLabel(code', t) ensures IsLabel(code, t) {
      var p :| 0 <= p < |code'| && NamesTarget(code', p, t);
      assert code'[p] == code[p];
      assert NamesTarget(code, p, t);
    }
  }

  // A return that ends the code may become part of a tail call, if no jump leads to it.
  lemma TailFirm(code: seq<Instruction>)
    requires EndsFirmly(code) && TailsUndivided(code)
    ensures EndsFirmly(Tc.TailCalled(code))
  {
    var q :| FirmAt(code, q);
    hide FirmAt, Tc.TailPair, Tc.ReturnsUnlabelled, Tc.TailCalled;
    if Tc.TailPair(code, q - 1) {
      PairsHold(code, q - 1);
      FirmEarlier(code, q);
      TailFirmAt(code, q - 1, q);
    } else {
      FirmJumps(code, q);
      TailFirmAt(code, q, q);
    }
  }

  lemma PairsHold(code: seq<Instruction>, p: int)
    requires Tc.TailPair(code, p)
    ensures Tc.TailPairs(code) != {}
  {
    assert p in Tc.TailPairs(code);
  }

  lemma FirmJumps(code: seq<Instruction>, q: int)
    requires FirmAt(code, q)
    ensures forall p :: 0 <= p < |code| && IsRelativeJump(code[p].op) ==> p + JumpDelta(code[p]) <= q
  {
    hide JumpDelta, Firm;
  }

  // A return that becomes part of a tail call is no label.
  lemma FirmEarlier(code: seq<Instruction>, q: int)
    requires FirmAt(code, q) && Tc.TailPair(code, q - 1) && Tc.ReturnsUnlabelled(code)
    ensures forall p :: 0 <= p < |code| && IsRelativeJump(code[p].op) ==> p + JumpDelta(code[p]) <= q - 1
  {
    hide JumpDelta, Firm, IsLabel;
    assert !IsLabel(code, q - 1 + 1);
    forall p | 0 <= p < |code| && IsRelativeJump(code[p].op) ensures p + JumpDelta(code[p]) != q {
      JumpLabels(code, p);
    }
  }

  lemma JumpLabels(code: seq<Instruction>, p: nat)
    requires p < |code| && IsRelativeJump(code[p].op)
    ensures 0 <= p + JumpDelta(code[p]) < |code| ==> IsLabel(code, p + JumpDelta(code[p]))
  {
    hide JumpDelta;
    assert NamesTarget(code, p, p + JumpDelta(code[p]));
  }

  lemma TailFirmAt(code: seq<Instruction>, q': int, q: int)
    requires FirmAt(code, q) && q' == if Tc.TailPair(code, q - 1) then q - 1 else q
    requires forall p :: 0 <= p < |code| && IsRelativeJump(code[p].op) ==> p + JumpDelta(code[p]) <= q'
    ensures FirmAt(Tc.TailCalled(code), q')
  {
    hide JumpDelta, Tc.TailCalled, Tc.TailPair, Firm;
    var code' := Tc.TailCalled(code);
    TailExchanged(code);
    TailEnd(code, q', q);
    forall p | 0 <= p < |code'| && IsRelativeJump(code'[p].op) ensures p + JumpDelta(code'[p]) <= q' {
      assert code'[p] == code[p];
    }
  }

  lemma TailEnd(code: seq<Instruction>, q': int, q: int)
    requires FirmAt(code, q) && q' == if Tc.TailPair(code, q - 1) then q - 1 else q
    ensures 0 <= q' && Firm(Tc.TailCalled(code)[q']) && forall k :: q' < k < |code| ==> Tc.TailCalled(code)[k].op == Nop
  {
    hide JumpDelta, Tc.TailCalled, Tc.TailCalling, Tc.TailPair, Firm, Inert;
    TailOps(code, q);
    TailAt(code, q);
    if q' < q { TailAt(code, q'); }
    forall k | q < k < |code| ensures Tc.TailCalled(code)[k].op == Nop { TailAt(code, k); }
  }

  lemma TailOps(code: seq<Instruction>, q: int)
    requires FirmAt(code, q)
    ensures !Tc.TailPair(code, q) && forall k :: q < k < |code| ==> !Tc.TailPair(code, k)
    ensures Tc.TailPair(code, q - 1) ==> 0 <= q - 1
  {
    hide JumpDelta;
  }

  lemma TailReady(folding: bool, fn: Function, fn': Function)
    requires Ready(1, folding, fn) && fn'.Code() == Tc.TailCalled(fn.Code())
    ensures Ready(2, folding, fn')
  {
    hide EndsFirmly, NoClash, FusesApart, Bounded, Milder, Lf.FusionSafe, Lf.FusePair, Exchanged, Tc.TailCalled,
         TailsUndivided;
    TailExchanged(fn.Code());
    ExchangedFusion(fn.Code(), fn'.Code());
    TailFirm(fn.Code());
    if folding {
      TailCalledBounded(fn.Code());
      NoClashKept(fn.Code(), false, fn'.Code(), false);
      FusesApartKept(fn.Code(), false, fn'.Code(), false);
    }
  }

  // ---- Loop fusion -------------------------------------------------------------------------------

  lemma SecondOfPair(code: seq<Instruction>, p: int)
    requires 0 <= p < |code| && Lf.FusePair(code, p - 1)
    ensures !Firm(code[p]) && code[p].op != Nop
  {
    hide JumpDelta;
  }

  lemma FusedAt(code: seq<Instruction>, p: int)
    requires 0 <= p < |code|
    ensures var i' := Lf.Fused(code)[p];
            && (Lf.FusePair(code, p) ==>
                  p + 1 < |code| && Lf.Fusible(code[p], code[p + 1]) && i' == Lf.Fusion(code[p], code[p + 1]))
            && (!Lf.FusePair(code, p) && Lf.FusePair(code, p - 1) ==> i' == NOP && !Firm(code[p]) && code[p].op != Nop)
            && (!Lf.FusePair(code, p) && !Lf.FusePair(code, p - 1) ==> i' == code[p])
  {
    hide JumpDelta, Lf.Fused, Lf.FusePair, Lf.Fusible, Lf.Fusion, Firm;
    Lf.FusedEach(code, p);
    if Lf.FusePair(code, p - 1) { SecondOfPair(code, p); }
  }

  lemma FusedFirm(code: seq<Instruction>)
    requires EndsFirmly(code)
    ensures EndsFirmly(Lf.Fused(code))
  {
    var code' := Lf.Fused(code);
    var q :| FirmAt(code, q);
    hide JumpDelta, Lf.Fusion, Lf.Fused, Lf.FusePair, Firm, Lf.Fusible;
    FirmNoPair(code, q);
    FusedAt(code, q);
    forall k | q < k < |code'| ensures code'[k].op == Nop {
      FirmNoPair(code, k);
      FusedAt(code, k);
    }
    forall p | 0 <= p < |code'| && IsRelativeJump(code'[p].op) ensures p + JumpDelta(code'[p]) <= q {
      FusedAt(code, p);
      if Lf.FusePair(code, p) { FusedDelta(code[p], code[p + 1]); }
    }
    assert FirmAt(code', q);
  }

  lemma FirmNoPair(code: seq<Instruction>, k: int)
    requires 0 <= k < |code| && (Firm(code[k]) || code[k].op == Nop)
    ensures !Lf.FusePair(code, k)
  {
    hide JumpDelta;
  }

  lemma FusedDelta(i: Instruction, j: Instruction)
    requires Lf.Fusible(i, j)
    ensures JumpDelta(Lf.Fusion(i, j)) == JumpDelta(j) + 1 && IsRelativeJump(j.op)
  {
    SignedUnsigned(JumpDelta(j) + 1);
  }

  lemma FusedReady(folding: bool, fn: Function, fn': Function)
    requires Ready(2, folding, fn) && fn'.Code() == Lf.Fused(fn.Code())
    ensures Ready(3, folding, fn')
  {
    hide EndsFirmly, NoClash, FusesApart, Lf.FusionSafe, Lf.Fused;
    FusedFirm(fn.Code());
    if folding { FusedNoClash(fn.Code()); }
  }

  // ---- Cleanup -------------------------------------------------------------------------------------

  lemma FirmSurvives(code: seq<Instruction>)
    requires EndsFirmly(code)
    ensures Cl.TargetsSurvive(code)
  {
    var q :| FirmAt(code, q);
    hide JumpDelta;
  }

  lemma FirmIsNoNop(i: Instruction)
    ensures Firm(i) ==> i.op != Nop
  {
    hide JumpDelta;
  }

  lemma LastSurvivor(code: seq<Instruction>, q: int)
    requires FirmAt(code, q)
    ensures Cl.NewSize(code) > 0 && Cl.OldPc(code, Cl.NewSize(code) - 1) == q
  {
    hide JumpDelta, Firm, Cl.Places;
    FirmIsNoNop(code[q]);
    Cl.SurvivorNumber(code, q);
    Cl.PlacesPrefix(code, q + 1, |code|);
  }

  lemma CompactedFirm(code: seq<Instruction>)
    requires Cl.Compactable(code) && EndsFirmly(code)
    ensures EndsFirmly(Cl.Compacted(code))
  {
    hide JumpDelta, WithJumpDelta, Cl.Compactable, Cl.Compacted, Cl.Places, Cl.OldPc, Cl.NewPc, Cl.NewSize, Firm;
    var code', n := Cl.Compacted(code), Cl.NewSize(code);
    var q :| FirmAt(code, q);
    LastSurvivor(code, q);
    Cl.CompactedShape(code, n - 1);
    var d :| -0x8000_0000 <= d < 0x8000_0000 && code'[n - 1] == WithJumpDelta(code[q], d);
    RetargetedFirm(code[q], d, n - 1, n);
    forall j | 0 <= j < n && IsRelativeJump(code'[j].op) ensures j + JumpDelta(code'[j]) <= n - 1 {
      Cl.CompactedShape(code, j);
    }
    assert FirmAt(code', n - 1);
  }

  lemma RetargetedFirm(i: Instruction, d: int, j: int, n: int)
    requires -0x8000_0000 <= d < 0x8000_0000 && Firm(i) && j == n - 1
    requires IsRelativeJump(i.op) ==> j + JumpDelta(WithJumpDelta(i, d)) < n
    ensures Firm(WithJumpDelta(i, d))
  {
  }

  lemma CompactedReady(folding: bool, fn: Function, fn': Function)
    requires Ready(3, folding, fn)
    requires fn'.Code() == if Cl.Compactable(fn.Code()) then Cl.Compacted(fn.Code()) else fn.Code()
    ensures Ready(4, folding, fn')
  {
    hide EndsFirmly, NoClash, Cl.TargetsSurvive, Cl.Compactable, Cl.Compacted;
    if folding && Cl.Compactable(fn.Code()) {
      FirmSurvives(fn.Code());
      CompactedNoClash(fn.Code());
      CompactedFirm(fn.Code());
    }
  }

  // ---- Constant folding --------------------------------------------------------------------------

  // A test may become a jump or nothing, a computation a load.
  predicate FoldedTo(i: Instruction, i': Instruction) {
    || i' == i
    || (IsCompute(i.op) && i'.op == LoadK && i'.a == i.a)
    || ((i.op == JmpIf || i.op == JmpIfZero || i.op == JmpIfNotZero) && (i' == NOP || i' == Make(Jmp, i.b, 0, 0)))
  }

  lemma FoldedCases(i: Instruction, i': Instruction, known: Cf.KnownMap, constants: seq<Constant>)
    requires KnownValues.Realizes(Cf.FoldLocally(i, known), i, i', constants)
    ensures FoldedTo(i, i')
  {
  }

  lemma FoldedOne(i: Instruction, i': Instruction)
    requires FoldedTo(i, i')
    ensures Milder(i, i') && (Stops(i, false) || i.op == TryBegin ==> i' == i)
    ensures Firm(i) || i.op == Nop ==> i' == i
    ensures IsRelativeJump(i'.op) ==> IsRelativeJump(i.op) && JumpDelta(i') == JumpDelta(i)
  {
  }

  lemma FoldedBounded(code: seq<Instruction>, code': seq<Instruction>)
    requires FoldedInto(code, code')
    ensures Bounded(code, false, code', false) && forall k :: 0 <= k < |code| ==> Milder(code[k], code'[k])
  {
    hide FoldedTo, Milder, Stops, Lasts, JumpDelta, Bounded;
    forall k | 0 <= k < |code| ensures Milder(code[k], code'[k]) && StopStays(code, false, code', false, k) {
      FoldedOne(code[k], code'[k]);
    }
    forall k, t | 0 <= k < |code| && Anchors(code[k], k, t, false) ensures Anchors(code'[k], k, t, false) {
      FoldedOne(code[k], code'[k]);
      StopIsNoNop(code[k]);
    }
    BoundedIf(code, false, code', false);
  }

  lemma FoldedReady(fn: Function, constants: seq<Constant>, fn': Function, constants': seq<Constant>)
    requires Ready(4, true, fn) && Cf.Folded(fn.Code(), constants, fn'.Code(), constants')
    ensures Ready(5, true, fn')
  {
    var code, code' := fn.Code(), fn'.Code();
    FoldedAll(code, constants, code', constants');
    hide Cf.Folded;
    FoldedBounded(code, code');
    NoClashKept(code, false, code', false);
    FoldedFirm(code, code');
  }

  predicate FoldedInto(code: seq<Instruction>, code': seq<Instruction>) {
    |code'| == |code| && forall p :: 0 <= p < |code| ==> FoldedTo(code[p], code'[p])
  }

  lemma FoldedAll(
      code: seq<Instruction>, constants: seq<Constant>, code': seq<Instruction>, constants': seq<Constant>)
    requires Cf.Folded(code, constants, code', constants')
    ensures FoldedInto(code, code')
  {
    hide Cf.KnownBefore, Cf.FoldLocally, FoldedTo, KnownValues.Realizes;
    forall p | 0 <= p < |code| ensures FoldedTo(code[p], code'[p]) {
      assert KnownValues.Realizes(Cf.FoldAt(code, constants, p), code[p], code'[p], constants');
      FoldedCases(code[p], code'[p], Cf.KnownBefore(code, constants, p), constants');
    }
  }

  lemma FoldedFirm(code: seq<Instruction>, code': seq<Instruction>)
    requires FoldedInto(code, code') && EndsFirmly(code)
    ensures EndsFirmly(code')
  {
    var q :| FirmAt(code, q);
    hide FoldedTo, Firm, JumpDelta;
    forall p | 0 <= p < |code|
      ensures Firm(code[p]) || code[p].op == Nop ==> code'[p] == code[p]
      ensures IsRelativeJump(code'[p].op) ==> IsRelativeJump(code[p].op) && JumpDelta(code'[p]) == JumpDelta(code[p])
    {
      FoldedOne(code[p], code'[p]);
    }
    assert FirmAt(code', q);
  }

  // ---- Copy propagation --------------------------------------------------------------------------

  lemma PropagatedFirm(code: seq<Instruction>)
    requires EndsFirmly(code)
    ensures EndsFirmly(Cp.PropagatedCode(code))
  {
    var code' := Cp.PropagatedCode(code);
    var q :| FirmAt(code, q);
    hide JumpDelta, Firm, Cp.Propagated, IsRelativeJump;
    forall p | 0 <= p < |code|
      ensures IsRelativeJump(code'[p].op) ==> IsRelativeJump(code[p].op) && JumpDelta(code'[p]) == JumpDelta(code[p])
      ensures (Firm(code[p]) ==> Firm(code'[p])) && (code[p].op == Nop ==> code'[p].op == Nop)
    {
      PropagatedShape(code[p], Cp.CopiesBefore(code, p));
    }
    hide Cp.PropagatedCode, FirmAt;
    FirmStill(code, code', q);
  }

  lemma FirmStill(code: seq<Instruction>, code': seq<Instruction>, q: int)
    requires FirmAt(code, q) && |code'| == |code|
    requires forall p :: 0 <= p < |code| ==> IsRelativeJump(code'[p].op) ==>
               IsRelativeJump(code[p].op) && JumpDelta(code'[p]) == JumpDelta(code[p])
    requires forall p :: 0 <= p < |code| ==>
               (Firm(code[p]) ==> Firm(code'[p])) && (code[p].op == Nop ==> code'[p].op == Nop)
    ensures FirmAt(code', q)
  {
    hide JumpDelta, Firm, IsRelativeJump;
  }

  lemma PropagatedShape(i: Instruction, alias: Cp.AliasMap)
    ensures var i' := Cp.Propagated(i, alias);
            && (IsRelativeJump(i'.op) ==> IsRelativeJump(i.op) && JumpDelta(i') == JumpDelta(i))
            && (Firm(i) ==> Firm(i')) && (i.op == Nop ==> i'.op == Nop)
  {
    hide SignedU32;
  }

  // ---- Dead code elimination -----------------------------------------------------------------------

  lemma NopGoesOn(code: seq<Instruction>, r: seq<bool>, q: int, t: nat)
    requires D.FlowClosed(code, r) && FirmAt(code, q) && t <= q && r[t] && code[t].op == Nop
    ensures t < q && r[t + 1]
  {
    hide JumpDelta;
    assert Flows(code, t, t + 1);
  }

  // From a reachable place on there is something that stays.
  lemma {:induction false} ReachedStays(code: seq<Instruction>, r: seq<bool>, q: int, t: nat) returns (k: nat)
    requires D.FlowClosed(code, r) && FirmAt(code, q) && t <= q && r[t]
    ensures t <= k < |code| && r[k] && code[k].op != Nop
    decreases q - t
  {
    hide Flows, Firm, D.FlowClosed, JumpDelta;
    if code[t].op != Nop {
      k := t;
    } else {
      NopGoesOn(code, r, q, t);
      k := ReachedStays(code, r, q, t + 1);
    }
  }

  lemma SweptSurvives(code: seq<Instruction>, code': seq<Instruction>, r: seq<bool>)
    requires D.FlowClosed(code, r) && D.Swept(r, code, code') && EndsFirmly(code)
    ensures Cl.TargetsSurvive(code')
  {
    var q :| FirmAt(code, q);
    hide JumpDelta, Firm;
    forall p | 0 <= p < |code'| && IsRelativeJump(code'[p].op) && 0 <= p + JumpDelta(code'[p]) < |code'|
      ensures Cl.SurvivorFrom(code', p + JumpDelta(code'[p]))
    {
      assert code'[p] == code[p] && r[p];
      assert Flows(code, p, p + JumpDelta(code[p]));
      var k := ReachedStays(code, r, q, p + JumpDelta(code[p]));
      assert code'[k] == code[k];
    }
  }

  lemma SweptReady(fn: Function, fn': Function)
    requires Ready(6, true, fn) && DidSweep(fn.Code(), fn'.Code())
    ensures Ready(7, true, fn')
  {
    hide EndsFirmly, Cl.TargetsSurvive, D.FlowClosed, D.Swept, TryFree;
    var code, code' := fn.Code(), fn'.Code();
    if TryFree(code) {
      var r :| D.ExactlyReachable(code, r) && D.Swept(r, code, code');
      SweptSurvives(code, code', r);
    } else {
      NotCompactable(code);
    }
  }

  lemma NotCompactable(code: seq<Instruction>)
    requires !TryFree(code)
    ensures !Cl.Compactable(code)
  {
  }

  lemma PropagatedReady(fn: Function, fn': Function)
    requires Ready(5, true, fn) && fn'.Code() == Cp.PropagatedCode(fn.Code())
    ensures Cp.PropagationSafe(fn.Code()) && Ready(6, true, fn')
  {
    hide EndsFirmly, NoClash, Cp.PropagationSafe, Cp.PropagatedCode;
    NoClashCopies(fn.Code());
    PropagatedFirm(fn.Code());
  }

  // ---- One function of one pass ------------------------------------------------------------------

  // The work of the k-th pass of level 2, of which level 1 has the first four.
  function WorkAt(k: nat): Work {
    match k
    case 0 => Peep
    case 1 => TailCalls
    case 2 => Fuse
    case 4 => Fold
    case 5 => Propagate
    case 6 => Sweep
    case _ => Compact
  }

  // What has been promised of a function makes its pass safe, and the next promise true.
  lemma WorkAdvances(k: nat, folding: bool, fi: nat, m: Module, m': Module)
    requires k < 8 && (k < 4 || folding) && Did(On(WorkAt(k), fi), m, m') && Ready(k, folding, m.functions[fi])
    requires k == 0 ==> P.ZerosMeetInts(m.functions[fi], m.constants)
    requires k == 1 ==> Tc.TailsSafe(m, m.functions[fi])
    requires k == 4 ==> |m.constants| + |m.functions[fi].Code()| <= 0x1_0000_0000
    ensures SafeWork(WorkAt(k), m, m.functions[fi]) && Ready(k + 1, folding, m'.functions[fi])
    ensures |m'.functions[fi].Code()| <= |m.functions[fi].Code()| && (k != 4 ==> m'.constants == m.constants)
  {
    hide P.SimplifiedCode, Tc.TailCalled, Lf.Fused, Cl.Compactable, Cl.Compacted, Cf.WindowsUnknown, Cp.PropagationSafe,
         Cp.PropagatedCode, P.ZerosMeetInts, Lf.FusionSafe, Tc.TailsSafe, TailsUndivided, Cl.TargetsSurvive,
         EndsFirmly, NoClash,
         FusesApart, Thinned, KnownValues.Realizes, D.Swept, D.FlowClosed, TryFree;
    var fn, fn' := m.functions[fi], m'.functions[fi];
    match k {
      case 0 =>
        SimplifiedThinned(fn.Code());
        ThinnedReady(folding, fn, fn');
      case 1 => TailReady(folding, fn, fn');
      case 2 => FusedReady(folding, fn, fn');
      case 3 =>
        FirmSurvives(fn.Code());
        CompactedReady(folding, fn, fn');
      case 4 =>
        NoClashKnown(fn.Code(), m.constants);
        FoldedReady(fn, m.constants, fn', m'.constants);
      case 5 => PropagatedReady(fn, fn');
      case 6 =>
        SweptReady(fn, fn');
        SweptSize(fn.Code(), fn'.Code());
      case _ =>
    }
  }

  lemma SweptSize(code: seq<Instruction>, code': seq<Instruction>)
    requires DidSweep(code, code')
    ensures |code'| == |code|
  {
    hide D.FlowClosed, TryFree;
  }

  // ---- Whole passes ------------------------------------------------------------------------------

  function SizeFrom(functions: seq<Function>, j: nat): nat
    decreases |functions| - j
  {
    if j >= |functions| then 0 else |functions[j].Code()| + SizeFrom(functions, j + 1)
  }

  lemma {:induction false} SizeShrinks(functions: seq<Function>, functions': seq<Function>, fi: nat, j: nat)
    requires fi < |functions| == |functions'| && |functions'[fi].Code()| <= |functions[fi].Code()|
    requires forall k :: 0 <= k < |functions| && k != fi ==> functions'[k] == functions[k]
    ensures SizeFrom(functions', j) <= SizeFrom(functions, j)
    decreases |functions| - j
  {
    if j < |functions| { SizeShrinks(functions, functions', fi, j + 1); }
  }

  // The constants appended while the functions from `j` on are folded leave room.
  predicate Room(m: Module, j: nat) { |m.constants| + SizeFrom(m.functions, j) <= 0x1_0000_0000 }

  ghost predicate TailsAhead(j: nat, m: Module) {
    forall fi :: j <= fi < |m.functions| ==> Tc.TailsSafe(m, m.functions[fi])
  }

  // In the k-th pass, with the first `j` functions done.
  ghost predicate Between(k: nat, folding: bool, n: nat, j: nat, m: Module) {
    && |m.functions| == n
    && (forall fi :: 0 <= fi < n ==> Ready(if fi < j then k + 1 else k, folding, m.functions[fi]))
    && (k == 0 ==> forall fi :: j <= fi < n ==> P.ZerosMeetInts(m.functions[fi], m.constants))
    && (k <= 1 ==> TailsAhead(if k == 1 then j else 0, m))
    && (folding && k <= 4 ==> Room(m, if k == 4 then j else 0))
  }

  lemma RoomNow(j: nat, m: Module)
    requires Room(m, j) && j < |m.functions|
    ensures |m.constants| + |m.functions[j].Code()| <= 0x1_0000_0000
  {
  }

  lemma RoomStays(k: nat, j: nat, m: Module, m': Module)
    requires k <= 4 && Room(m, if k == 4 then j else 0) && j < |m.functions| && Recoded(m, m', j)
    requires |m'.functions[j].Code()| <= |m.functions[j].Code()| && (k != 4 ==> m'.constants == m.constants)
    requires |m'.constants| <= |m.constants| + |m.functions[j].Code()|
    ensures Room(m', if k == 4 then j + 1 else 0)
  {
    SizeShrinks(m.functions, m'.functions, j, if k == 4 then j + 1 else 0);
  }

  lemma TailsNow(j: nat, m: Module)
    requires TailsAhead(j, m) && j < |m.functions|
    ensures Tc.TailsSafe(m, m.functions[j])
  {
    hide Tc.TailsSafe;
  }

  // Return types stay, so what fits one module fits the next.
  lemma FitsStill(m: Module, m': Module, fi: nat, fn: Function, fn': Function, code: seq<Instruction>)
    requires Recoded(m, m', fi) && fn'.returnType == fn.returnType && TailsFit(m, fn, code)
    ensures TailsFit(m', fn', code)
  {
    forall p | 0 <= p < |code| && IsTailCall(code[p].op) ensures TailFits(m', fn', code[p]) {
      assert TailFits(m, fn, code[p]);
    }
  }

  lemma AllFitStill(m: Module, m': Module, fi: nat)
    requires Recoded(m, m', fi) && AllTailsFit(m) && TailsFit(m, m.functions[fi], m'.functions[fi].Code())
    ensures AllTailsFit(m')
  {
    hide TailsFit;
    forall g | 0 <= g < |m'.functions| ensures TailsFit(m', m'.functions[g], m'.functions[g].Code()) {
      FitsStill(m, m', fi, m.functions[g], m'.functions[g], m'.functions[g].Code());
    }
  }

  lemma TailsElsewhere(m: Module, m': Module, fi: nat, fn: Function)
    requires Recoded(m, m', fi) && Tc.TailsSafe(m, fn) && (AllTailsFit(m) ==> AllTailsFit(m'))
    ensures Tc.TailsSafe(m', fn)
  {
    hide Tc.TailCallsSafe, Tc.ReturnsUnlabelled, Tc.TailPair, AllTailsFit;
  }

  lemma ThinnedTails(m: Module, m': Module, fi: nat)
    requires Recoded(m, m', fi) && Thinned(m.functions[fi].Code(), m'.functions[fi].Code())
    ensures AllTailsFit(m) ==> AllTailsFit(m')
    ensures Tc.TailsSafe(m, m.functions[fi]) ==> Tc.TailsSafe(m, m'.functions[fi])
  {
    hide IsLabel, Thinned, Tc.TailPair, TailFits, AllTailsFit;
    var code, code' := m.functions[fi].Code(), m'.functions[fi].Code();
    ThinnedSize(code, code');
    ThinnedFits(m, m.functions[fi], code, code');
    if AllTailsFit(m) {
      FitsAt(m, fi);
      AllFitStill(m, m', fi);
    }
    forall p | 0 <= p < |code'| && Tc.TailPair(code', p)
      ensures Tc.TailPair(code, p) && p in Tc.TailPairs(code) && code'[p] == code[p]
    {
      ThinnedTailPair(code, code', p);
      ThinnedCall(code, code', p);
    }
    forall p | IsLabel(code', p) ensures IsLabel(code, p) { ThinnedLabels(code, code', p); }
    TailFitsAlike(m, m.functions[fi], m'.functions[fi]);
  }

  lemma FitsAt(m: Module, fi: nat)
    requires AllTailsFit(m) && fi < |m.functions|
    ensures TailsFit(m, m.functions[fi], m.functions[fi].Code())
  {
  }

  lemma TailFitsAlike(m: Module, fn: Function, fn': Function)
    requires fn'.returnType == fn.returnType
    ensures forall i :: TailFits(m, fn', i) == TailFits(m, fn, i)
  {
  }

  lemma ThinnedCall(code: seq<Instruction>, code': seq<Instruction>, p: int)
    requires Thinned(code, code') && Tc.TailPair(code', p)
    ensures code'[p] == code[p]
  {
    hide Firm, P.AddsZero;
    assert Thinner(code[p], code'[p]);
  }

  lemma ThinnedFits(m: Module, fn: Function, code: seq<Instruction>, code': seq<Instruction>)
    requires Thinned(code, code')
    ensures TailsFit(m, fn, code) ==> TailsFit(m, fn, code')
  {
    hide Firm, P.AddsZero, TailFits;
    forall p | 0 <= p < |code'| && IsTailCall(code'[p].op) ensures code'[p] == code[p] {
      assert Thinner(code[p], code'[p]);
    }
  }

  lemma TailCalledTails(m: Module, m': Module, fi: nat)
    requires Recoded(m, m', fi) && m'.functions[fi].Code() == Tc.TailCalled(m.functions[fi].Code())
    requires Tc.TailsSafe(m, m.functions[fi])
    ensures AllTailsFit(m) ==> AllTailsFit(m')
  {
    hide Tc.TailCalled, Tc.TailPair, AllTailsFit, Tc.ReturnsUnlabelled;
    var fn := m.functions[fi];
    if AllTailsFit(m) {
      FitsAt(m, fi);
      if Tc.TailPairs(fn.Code()) == {} {
        Tc.NoTailCalls(fn.Code());
      } else {
        assert fn.returnType == AnyType || Tc.TailCallsTyped(m, fn);
        Tc.TypedCode(m, fn);
      }
      AllFitStill(m, m', fi);
    }
  }

  lemma TailsStay(k: nat, j: nat, m: Module, m': Module)
    requires k <= 1 && j < |m.functions| && Did(On(WorkAt(k), j), m, m') && TailsAhead(if k == 1 then j else 0, m)
    ensures TailsAhead(if k == 1 then j + 1 else 0, m')
  {
    hide Tc.TailsSafe, AllTailsFit, Thinned, P.SimplifiedCode, Tc.TailCalled;
    if k == 0 {
      SimplifiedThinned(m.functions[j].Code());
      ThinnedTails(m, m', j);
    } else {
      TailCalledTails(m, m', j);
    }
    forall fi | (if k == 1 then j + 1 else 0) <= fi < |m'.functions| ensures Tc.TailsSafe(m', m'.functions[fi]) {
      assert Tc.TailsSafe(m, m.functions[fi]);
      TailsElsewhere(m, m', j, m'.functions[fi]);
    }
  }

  lemma StageAdvances(k: nat, folding: bool, n: nat, j: nat, m: Module, m': Module)
    requires k < 8 && (k < 4 || folding) && j < n && Between(k, folding, n, j, m) && Did(On(WorkAt(k), j), m, m')
    ensures Safe(On(WorkAt(k), j), m) && Between(k, folding, n, j + 1, m')
  {
    hide DidWork, SafeWork, Ready, WorkAt, P.ZerosMeetInts, TailsAhead, Room;
    if k == 1 { TailsNow(j, m); }
    if k == 4 { RoomNow(j, m); }
    WorkAdvances(k, folding, j, m, m');
    if folding && k <= 4 { RoomStays(k, j, m, m'); }
    if k == 0 {
      forall fi | j + 1 <= fi < n ensures P.ZerosMeetInts(m'.functions[fi], m'.constants) {
        assert m'.functions[fi] == m.functions[fi];
      }
    }
    if k <= 1 { TailsStay(k, j, m, m'); }
  }

  lemma HistoryPrefix(stages: seq<Stage>, more: seq<Stage>, trace: seq<Module>)
    requires History(stages + more, trace)
    ensures History(stages, trace[..|stages| + 1]) && History(more, trace[|stages|..])
  {
    hide Accepted, Did;
    var all, k := stages + more, |stages|;
    forall i | 0 <= i < |stages| ensures Did(stages[i], trace[..k + 1][i], trace[..k + 1][i + 1]) {
      assert Did(all[i], trace[i], trace[i + 1]);
    }
    forall i | 0 <= i < |more| ensures Did(more[i], trace[k..][i], trace[k..][i + 1]) {
      assert Did(all[k + i], trace[k + i], trace[k + i + 1]);
    }
  }

  lemma SafeTogether(stages: seq<Stage>, more: seq<Stage>, trace: seq<Module>)
    requires |trace| == |stages| + |more| + 1
    requires AllSafe(stages, trace[..|stages| + 1]) && AllSafe(more, trace[|stages|..])
    ensures AllSafe(stages + more, trace)
  {
    hide Harmless;
    var k := |stages|;
    forall i | 0 <= i < |stages + more| ensures Harmless((stages + more)[i], trace[i], trace[i + 1]) {
      if i < k {
        assert Harmless(stages[i], trace[..k + 1][i], trace[..k + 1][i + 1]);
      } else {
        assert Harmless(more[i - k], trace[k..][i - k], trace[k..][i - k + 1]);
      }
    }
  }

  lemma {:induction false} PassSafe(k: nat, folding: bool, n: nat, j: nat, trace: seq<Module>)
    requires k < 8 && (k < 4 || folding) && j <= n && History(OnFunctions([WorkAt(k)], j), trace)
    requires Between(k, folding, n, 0, trace[0])
    ensures AllSafe(OnFunctions([WorkAt(k)], j), trace)
    ensures Between(k, folding, n, j, trace[|OnFunctions([WorkAt(k)], j)|])
    decreases j
  {
    hide Did, Safe, Idle, Between, WorkAt, Accepted;
    if j > 0 {
      var before, last := OnFunctions([WorkAt(k)], j - 1), OnFunction([WorkAt(k)], j - 1);
      assert last == [On(WorkAt(k), j - 1)];
      HistoryPrefix(before, last, trace);
      PassSafe(k, folding, n, j - 1, trace[..|before| + 1]);
      var rest := trace[|before|..];
      assert Did(last[0], rest[0], rest[1]);
      StageAdvances(k, folding, n, j - 1, rest[0], rest[1]);
      SafeTogether(before, last, trace);
    }
  }

  lemma PassEnds(k: nat, folding: bool, n: nat, m: Module)
    requires Between(k, folding, n, n, m)
    ensures Between(k + 1, folding, n, 0, m)
  {
    hide Ready;
  }

  lemma PassWork(options: Options, k: nat, n: nat)
    requires options.level != O3 && k < |BasePasses(options.level)|
    ensures k < 8 && (k >= 4 ==> options.level == O2)
    ensures StagesOf(BasePasses(options.level)[k], options, n) == OnFunctions([WorkAt(k)], n)
  {
  }

  // A pass that is left out needs nothing.
  lemma PassSkipped(k: nat, folding: bool, n: nat, m: Module)
    requires k < 8 && (k < 4 || folding) && Between(k, folding, n, 0, m)
    ensures Between(k + 1, folding, n, 0, m)
  {
    hide TailsUndivided, Tc.TailsSafe, Lf.FusionSafe, EndsFirmly, NoClash, FusesApart, Bounded, Milder, Lf.FusePair,
         Cl.Compactable, Cl.TargetsSurvive, P.ZerosMeetInts;
    forall fi | 0 <= fi < n ensures Ready(k + 1, folding, m.functions[fi]) {
      assert Ready(k, folding, m.functions[fi]);
      if k == 6 { FirmSurvives(m.functions[fi].Code()); }
      if k == 0 && folding {
        var code := m.functions[fi].Code();
        LaterBounded(code);
        NoClashKept(code, true, code, false);
        FusesApartKept(code, true, code, false);
      }
    }
  }

  // A pass that is not left out takes up the last part of the history.
  lemma {:induction false} PassKept(options: Options, n: nat, k: nat, kept: seq<Pass>, trace: seq<Module>)
    requires options.level != O3 && k < |BasePasses(options.level)|
    requires History(Schedule(kept + [BasePasses(options.level)[k]], options, n), trace)
    ensures var before, last := Schedule(kept, options, n), OnFunctions([WorkAt(k)], n);
            && Schedule(kept + [BasePasses(options.level)[k]], options, n) == before + last
            && |trace| == |before| + |last| + 1
            && History(before, trace[..|before| + 1]) && History(last, trace[|before|..])
  {
    hide Did, Accepted, StagesOf, OnFunctions, BasePasses;
    PassWork(options, k, n);
    var p := BasePasses(options.level)[k];
    assert (kept + [p])[..|kept|] == kept;
    HistoryPrefix(Schedule(kept, options, n), OnFunctions([WorkAt(k)], n), trace);
  }

  lemma {:induction false} PassAdded(options: Options, n: nat, k: nat, kept: seq<Pass>, trace: seq<Module>)
    requires options.level != O3 && k < |BasePasses(options.level)|
    requires History(Schedule(kept + [BasePasses(options.level)[k]], options, n), trace)
    requires |trace| > |Schedule(kept, options, n)|
    requires AllSafe(Schedule(kept, options, n), trace[..|Schedule(kept, options, n)| + 1])
    requires Between(k, options.level == O2, n, 0, trace[|Schedule(kept, options, n)|])
    ensures var stages := Schedule(kept + [BasePasses(options.level)[k]], options, n);
            AllSafe(stages, trace) && Between(k + 1, options.level == O2, n, 0, trace[|stages|])
  {
    hide Did, Harmless, Between, Accepted, StagesOf, OnFunctions, BasePasses, Schedule;
    PassWork(options, k, n);
    PassKept(options, n, k, kept, trace);
    var before, last := Schedule(kept, options, n), OnFunctions([WorkAt(k)], n);
    PassSafe(k, options.level == O2, n, n, trace[|before|..]);
    PassEnds(k, options.level == O2, n, trace[|before + last|]);
    SafeTogether(before, last, trace);
  }

  lemma {:induction false} PassesSafe(options: Options, n: nat, k: nat, trace: seq<Module>)
    requires options.level != O3 && k <= |BasePasses(options.level)|
    requires History(Schedule(Without(BasePasses(options.level)[..k], options.disable), options, n), trace)
    requires Between(0, options.level == O2, n, 0, trace[0])
    ensures var stages := Schedule(Without(BasePasses(options.level)[..k], options.disable), options, n);
            AllSafe(stages, trace) && Between(k, options.level == O2, n, 0, trace[|stages|])
    decreases k
  {
    hide Did, Harmless, Between, Accepted, StagesOf, OnFunctions, BasePasses, Schedule, History, AllSafe, Without;
    var passes := BasePasses(options.level);
    if k == 0 {
      NoPasses(options, n, trace);
    } else {
      WithoutOne(passes, options.disable, k);
      LevelFolds(options.level, k - 1);
      var kept := Without(passes[..k - 1], options.disable);
      if passes[k - 1] in options.disable {
        PassesSafe(options, n, k - 1, trace);
        HistorySize(Schedule(kept, options, n), trace);
        PassSkipped(k - 1, options.level == O2, n, trace[|Schedule(kept, options, n)|]);
      } else {
        PassKept(options, n, k - 1, kept, trace);
        PassesSafe(options, n, k - 1, trace[..|Schedule(kept, options, n)| + 1]);
        PassAdded(options, n, k - 1, kept, trace);
      }
    }
  }

  lemma HistorySize(stages: seq<Stage>, trace: seq<Module>)
    requires History(stages, trace)
    ensures |trace| == |stages| + 1
  {
    hide Accepted, Did;
  }

  lemma LevelFolds(level: Level, k: nat)
    requires level != O3 && k < |BasePasses(level)|
    ensures k < 8 && (k >= 4 ==> level == O2)
  {
  }

  lemma {:induction false} WithoutOne(passes: seq<Pass>, disable: seq<Pass>, k: nat)
    requires 0 < k <= |passes|
    ensures Without(passes[..k], disable) ==
              if passes[k - 1] in disable then Without(passes[..k - 1], disable)
              else Without(passes[..k - 1], disable) + [passes[k - 1]]
  {
    assert passes[..k][..k - 1] == passes[..k - 1] && passes[..k][k - 1] == passes[k - 1];
  }

  lemma {:induction false} NoPasses(options: Options, n: nat, trace: seq<Module>)
    requires History(Schedule(Without(BasePasses(options.level)[..0], options.disable), options, n), trace)
    ensures var stages := Schedule(Without(BasePasses(options.level)[..0], options.disable), options, n);
            stages == [] && AllSafe(stages, trace)
  {
    hide Accepted, Did;
  }

  // ---- The condition on the input ----------------------------------------------------------------

  // Zero is added to integers only, no label comes between two instructions that are merged,
  // tail calls are made where what they return may be returned, loop counters are not their
  // own addends, and the code ends with an instruction that control does not go on behind.
  ghost predicate Level1Safe(m: Module, fn: Function) {
    && P.ZerosMeetInts(fn, m.constants) && Tc.TailsSafe(m, fn) && Lf.FusionSafe(fn.Code())
    && fn.Code() != [] && Firm(fn.Code()[|fn.Code()| - 1])
  }

  // Besides, what is copied is not counted in place before a lasting jump or label, nor does a
  // variadic copy fill a register behind its first that something was noted about.
  ghost predicate Level2Safe(m: Module, fn: Function) {
    Level1Safe(m, fn) && NoClash(fn.Code(), true) && FusesApart(fn.Code(), true)
  }

  ghost predicate InputSafe(m: Module, level: Level) {
    match level
    case O0 => true
    case O1 => forall fi :: 0 <= fi < |m.functions| ==> Level1Safe(m, m.functions[fi])
    case O2 => Room(m, 0) && forall fi :: 0 <= fi < |m.functions| ==> Level2Safe(m, m.functions[fi])
    case O3 => false
  }

  lemma FirmInput(m: Module, fn: Function)
    requires CodeOk(m, fn, fn.Code()) && Firm(fn.Code()[|fn.Code()| - 1])
    ensures EndsFirmly(fn.Code())
  {
    var code := fn.Code();
    hide JumpDelta, Firm;
    forall p | 0 <= p < |code| && IsRelativeJump(code[p].op) ensures p + JumpDelta(code[p]) <= |code| - 1 {
      assert InstructionOk(m, fn, code[p], p, |code|);
    }
    assert FirmAt(code, |code| - 1);
  }

  lemma FunctionReady(m: Module, fn: Function, folding: bool)
    requires FunctionOk(m, fn) && Level1Safe(m, fn) && (folding ==> Level2Safe(m, fn))
    ensures Ready(0, folding, fn)
  {
    hide P.ZerosMeetInts, Tc.TailPair, Lf.FusionSafe, Firm, NoClash, FusesApart, EndsFirmly, CodeOk;
    FirmInput(m, fn);
  }

  lemma InputZeros(m: Module, level: Level)
    requires InputSafe(m, level) && (level == O1 || level == O2)
    ensures forall fi :: 0 <= fi < |m.functions| ==> Level1Safe(m, m.functions[fi])
    ensures forall fi :: 0 <= fi < |m.functions| ==> P.ZerosMeetInts(m.functions[fi], m.constants)
    ensures TailsAhead(0, m)
    ensures level == O2 ==> Room(m, 0) && forall fi :: 0 <= fi < |m.functions| ==> Level2Safe(m, m.functions[fi])
  {
    hide P.ZerosMeetInts, Tc.TailsSafe, Lf.FusionSafe, Firm, NoClash, FusesApart;
  }

  lemma InputReady(m: Module, level: Level)
    requires Accepted(m) && InputSafe(m, level) && (level == O1 || level == O2)
    ensures Between(0, level == O2, |m.functions|, 0, m)
  {
    hide Accepted, Ready, Level1Safe, Level2Safe, InputSafe, P.ZerosMeetInts, TailsAhead;
    InputZeros(m, level);
    forall fi | 0 <= fi < |m.functions| ensures Ready(0, level == O2, m.functions[fi]) {
      AcceptedFunction(m, fi);
      FunctionReady(m, m.functions[fi], level == O2);
    }
  }

  // The main result: a condition on the module alone under which every transformation of the
  // pipeline of its level, or of what is left of it when passes are disabled, is safe where it
  // is applied.
  lemma {:induction false} InputDecides(m: Module, options: Options, stages: seq<Stage>, trace: seq<Module>)
    requires Accepted(m) && InputSafe(m, options.level) && trace != [] && trace[0] == m
    requires stages == Schedule(Without(BasePasses(options.level), options.disable), options, |m.functions|)
    requires History(stages, trace)
    ensures AllSafe(stages, trace)
  {
    hide Accepted, Harmless, Between, InputSafe, Did, Schedule, Without, History, AllSafe, BasePasses;
    var passes := BasePasses(options.level);
    assert passes[..|passes|] == passes;
    match options.level {
      case O0 =>
        NoLevel();
        NoPasses(options, |m.functions|, trace);
      case O3 =>
        NeverLevel3(m);
        assert false;
      case _ =>
        InputReady(m, options.level);
        PassesSafe(options, |m.functions|, |passes|, trace);
    }
  }

  lemma NoLevel()
    ensures BasePasses(O0) == []
  {
  }

  lemma NeverLevel3(m: Module)
    ensures !InputSafe(m, O3)
  {
  }

  lemma {:induction false} NothingAdded(passes: seq<Pass>, enable: seq<Pass>)
    requires forall p :: p in enable ==> p in passes
    ensures Extended(passes, enable) == passes
    decreases |enable|
  {
    if enable != [] { NothingAdded(passes, enable[..|enable| - 1]); }
  }

  // Only passes are enabled that the level has anyway.
  predicate OfLevel(options: Options) { forall p :: p in options.enable ==> p in BasePasses(options.level) }

  // Optimizing a copy: the result means what the module means, if that can be foreseen and no
  // passes of other levels are enabled.
  method OptimizeBytecodeModule(m: Module, options: Options) returns (r: Report)
    requires KnownValues.Indexable(m.constants) && (options.verifyInput || Accepted(m))
    ensures options.inlineMaxInst > 0 && Accepted(m) ==> r.Optimized? && Accepted(r.module_)
    ensures r.Optimized? && InputSafe(m, options.level) && OfLevel(options) ==>
              forall trusted :: SameMeaning(trusted, m, r.module_)
  {
    hide Accepted, InputSafe, SameMeaning, Did, Harmless;
    var passes;
    ghost var trace;
    r, passes, trace := OptimizeBytecodeModuleInPlace(m, options);
    if r.Optimized? && InputSafe(m, options.level) && OfLevel(options) {
      NothingAdded(BasePasses(options.level), options.enable);
      ghost var stages := Schedule(passes, options, |m.functions|);
      InputDecides(m, options, stages, trace);
      forall trusted ensures SameMeaning(trusted, m, r.module_) {
        OptimizedMeaning(trusted, m, r.module_, stages, trace);
      }
    }
  }
}
