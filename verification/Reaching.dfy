/** Which writes may still be believed in further down a stretch of code, whatever the passes
    of the lower levels do to it: only jumps and labels that no pass takes away are relied on. */
module Reaching {
  import opened Int64
  import opened Bytecode
  import opened Interpreter
  import opened Blocks
  import KnownValues
  import P = Peephole
  import Tc = Tailcall
  import Lf = LoopFusion
  import Cf = ConstFold
  import Cp = CopyProp
  import Cl = Cleanup

  // Jumps that no pass takes away.  A jump to the next instruction lasts only once the
  // peephole pass is over.
  predicate Lasts(i: Instruction, peep: bool) {
    match i.op
    case Jmp => !peep || JumpDelta(i) != 1
    case DecJnz | AddDecJnz | SubImmJnz | AddImmJnz => true
    case _ => false
  }

  // Behind these nothing is believed in.
  predicate Stops(i: Instruction, peep: bool) { Lasts(i, peep) || IsTerminator(i.op) }

  predicate Anchors(i: Instruction, p: int, t: int, peep: bool) {
    (Lasts(i, peep) && p + JumpDelta(i) == t) || NamesHandler(i, t)
  }

  // Labels that no pass takes away.
  ghost predicate Anchored(code: seq<Instruction>, t: int, peep: bool) {
    exists p :: 0 <= p < |code| && Anchors(code[p], p, t, peep)
  }

  // What is noted at `q` may be believed in at `p`.
  ghost predicate Reaches(code: seq<Instruction>, q: int, p: int, peep: bool) {
    && 0 <= q < p < |code| && (forall k :: q < k < p ==> !Stops(code[k], peep))
    && forall t :: q < t <= p ==> !Anchored(code, t, peep)
  }

  predicate Copying(i: Instruction) { (i.op == Mov || P.AddsZero(i)) && i.a != i.b }

  predicate Writing(i: Instruction) { IsCompute(i.op) || i.op == LoadK }

  // Counting in a register that was copied to, or filling a register behind the first of a
  // variadic copy that something was noted about.
  predicate Clash(i: Instruction, j: Instruction) {
    || (Copying(i) && Cp.InPlace(j.op) && (i.a == j.a || (j.op == AddDecJnz && i.a == j.b)))
    || (j.op == VarArg && ((Writing(i) && j.a < i.a < j.a + j.c) || (Copying(i) && j.a < i.b < j.a + j.c)))
  }

  ghost predicate NoClash(code: seq<Instruction>, peep: bool) {
    forall q, p :: Reaches(code, q, p, peep) ==> !Clash(code[q], code[p])
  }

  // The same of a count that is yet to be fused.
  ghost predicate FusesApart(code: seq<Instruction>, peep: bool) {
    forall q, p :: Reaches(code, q, p, peep) && Lf.FusePair(code, p) ==>
      !(Copying(code[q]) && code[q].a == code[p].a)
  }

  // ---- Passes that keep instructions in place -------------------------------------------------

  // A stop stays where it is or moves up by one.
  predicate StopStays(code: seq<Instruction>, peep: bool, code': seq<Instruction>, peep': bool, k: int)
    requires 0 <= k < |code| == |code'|
  {
    Stops(code[k], peep) ==> Stops(code'[k], peep') || (k > 0 && Stops(code'[k - 1], peep'))
  }

  // All stops do, and anchors stay.
  ghost predicate Bounded(code: seq<Instruction>, peep: bool, code': seq<Instruction>, peep': bool) {
    && |code'| == |code|
    && (forall k :: 0 <= k < |code| ==> StopStays(code, peep, code', peep', k))
    && forall t :: Anchored(code, t, peep) ==> Anchored(code', t, peep')
  }

  lemma BoundedIf(code: seq<Instruction>, peep: bool, code': seq<Instruction>, peep': bool)
    requires |code'| == |code|
    requires forall k :: 0 <= k < |code| ==> StopStays(code, peep, code', peep', k)
    requires forall k, t :: 0 <= k < |code| && Anchors(code[k], k, t, peep) ==> Anchors(code'[k], k, t, peep')
    ensures Bounded(code, peep, code', peep')
  {
    hide StopStays, Anchors;
    forall t | Anchored(code, t, peep) ensures Anchored(code', t, peep') {
      var p :| 0 <= p < |code| && Anchors(code[p], p, t, peep);
      assert Anchors(code'[p], p, t, peep');
    }
  }

  lemma ReachesBack(
      code: seq<Instruction>, peep: bool, code': seq<Instruction>, peep': bool, q: int, p: int)
    requires Bounded(code, peep, code', peep') && Reaches(code', q, p, peep') && !Stops(code'[q], peep')
    ensures Reaches(code, q, p, peep)
  {
    hide Anchored, Stops;
    forall k | q < k < p ensures !Stops(code[k], peep) {
      assert StopStays(code, peep, code', peep', k) && !Stops(code'[k], peep') && !Stops(code'[k - 1], peep');
    }
  }

  // `i'` notes and minds no more than `i`.
  predicate Milder(i: Instruction, i': Instruction) {
    && (Copying(i') ==> Copying(i) && i'.a == i.a && i'.b == i.b)
    && (Writing(i') ==> Writing(i) && i'.a == i.a)
    && (Cp.InPlace(i'.op) || i'.op == VarArg ==> i' == i)
  }

  lemma MilderClash(i: Instruction, i': Instruction, j: Instruction, j': Instruction)
    requires Milder(i, i') && Milder(j, j') && Clash(i', j')
    ensures Clash(i, j)
  {
    hide P.AddsZero;
  }

  lemma ClashNotes(i: Instruction, j: Instruction, peep: bool)
    requires Clash(i, j)
    ensures !Stops(i, peep)
  {
  }

  lemma NoClashKept(code: seq<Instruction>, peep: bool, code': seq<Instruction>, peep': bool)
    requires Bounded(code, peep, code', peep') && NoClash(code, peep)
    requires forall k :: 0 <= k < |code| ==> Milder(code[k], code'[k])
    ensures NoClash(code', peep')
  {
    hide Bounded, Milder, Clash, Stops;
    BoundedSize(code, peep, code', peep');
    forall q, p | Reaches(code', q, p, peep') ensures !Clash(code'[q], code'[p]) {
      if Clash(code'[q], code'[p]) {
        ClashNotes(code'[q], code'[p], peep');
        ReachesBack(code, peep, code', peep', q, p);
        MilderClash(code[q], code'[q], code[p], code'[p]);
        assert false;
      }
    }
  }

  lemma BoundedSize(code: seq<Instruction>, peep: bool, code': seq<Instruction>, peep': bool)
    requires Bounded(code, peep, code', peep')
    ensures |code'| == |code|
  {
    hide Anchored, StopStays;
  }

  lemma FusesApartKept(code: seq<Instruction>, peep: bool, code': seq<Instruction>, peep': bool)
    requires Bounded(code, peep, code', peep') && FusesApart(code, peep)
    requires forall k :: 0 <= k < |code| ==> Milder(code[k], code'[k])
    requires forall p :: 0 <= p < |code'| && Lf.FusePair(code', p) ==> Lf.FusePair(code, p) && code'[p] == code[p]
    ensures FusesApart(code', peep')
  {
    hide Bounded, Copying, Lf.FusePair, Stops;
    BoundedSize(code, peep, code', peep');
    forall q, p | Reaches(code', q, p, peep') && Lf.FusePair(code', p)
      ensures !(Copying(code'[q]) && code'[q].a == code'[p].a)
    {
      if Copying(code'[q]) {
        CopyNotes(code[q], code'[q], peep');
        ReachesBack(code, peep, code', peep', q, p);
      }
    }
  }

  lemma CopyNotes(i: Instruction, i': Instruction, peep: bool)
    requires Milder(i, i') && Copying(i')
    ensures !Stops(i', peep) && Copying(i) && i'.a == i.a
  {
  }

  // ---- Loop fusion ------------------------------------------------------------------------------

  lemma AnchorLabels(code: seq<Instruction>, t: int, peep: bool)
    requires Anchored(code, t, peep) && 0 <= t < |code|
    ensures IsLabel(code, t)
  {
    hide JumpDelta;
    var p :| 0 <= p < |code| && Anchors(code[p], p, t, peep);
    assert NamesTarget(code, p, t);
  }

  // What a pair becomes, and what it is made of.
  lemma FusionCounts(i: Instruction, j: Instruction)
    requires Lf.Fusible(i, j)
    ensures var f := Lf.Fusion(i, j);
            && Lasts(f, false) && !Copying(f) && !Writing(f) && f.op != VarArg && JumpDelta(f) == JumpDelta(j) + 1
            && f.a == i.a && (f.op == AddDecJnz ==> f.b == j.a && Cp.InPlace(j.op))
    ensures !Stops(i, false) && !IsTerminator(j.op) && j.op != Jmp && j.op != TryBegin && i.op != TryBegin
    ensures !Copying(j) && !Writing(j)
  {
    SignedUnsigned(JumpDelta(j) + 1);
  }

  lemma NopNotes()
    ensures !Copying(NOP) && !Writing(NOP) && NOP.op != VarArg && !Cp.InPlace(NOP.op)
  {
  }

  lemma FusedBounded(code: seq<Instruction>)
    ensures Bounded(code, false, Lf.Fused(code), false)
  {
    hide Lf.Fused, Lf.FusePair, Lf.Fusible, Lf.Fusion, Stops, Lasts, JumpDelta;
    var code' := Lf.Fused(code);
    forall k | 0 <= k < |code| ensures StopStays(code, false, code', false, k) {
      if Stops(code[k], false) { FusedStop(code, k); }
    }
    forall t | Anchored(code, t, false) ensures Anchored(code', t, false) {
      var p :| 0 <= p < |code| && Anchors(code[p], p, t, false);
      FusedAnchor(code, p, t);
    }
  }

  lemma FusedCases(code: seq<Instruction>, p: int)
    requires 0 <= p < |code|
    ensures var i' := Lf.Fused(code)[p];
            if Lf.FusePair(code, p) then
              p + 1 < |code| && Lf.Fusible(code[p], code[p + 1]) && i' == Lf.Fusion(code[p], code[p + 1])
            else if Lf.FusePair(code, p - 1) then
              && p > 0 && Lf.Fusible(code[p - 1], code[p]) && i' == NOP
              && Lf.Fused(code)[p - 1] == Lf.Fusion(code[p - 1], code[p])
            else i' == code[p]
  {
    hide Lf.Fused, Lf.Fusible, Lf.Fusion;
    Lf.FusedEach(code, p);
    if p > 0 { Lf.FusedEach(code, p - 1); }
    Lf.FuseInside(code);
  }

  lemma FusedStop(code: seq<Instruction>, k: int)
    requires 0 <= k < |code| && Stops(code[k], false)
    ensures Stops(Lf.Fused(code)[k], false) || (k > 0 && Stops(Lf.Fused(code)[k - 1], false))
  {
    hide Lf.Fused, Lf.FusePair, Lf.Fusible, Lf.Fusion, Lasts;
    FusedCases(code, k);
    if Lf.FusePair(code, k) {
      FusionCounts(code[k], code[k + 1]);
    } else if Lf.FusePair(code, k - 1) {
      FusionCounts(code[k - 1], code[k]);
    }
  }

  lemma FusedAnchor(code: seq<Instruction>, p: int, t: int)
    requires 0 <= p < |code| && Anchors(code[p], p, t, false)
    ensures Anchored(Lf.Fused(code), t, false)
  {
    hide Lf.Fused, Lf.FusePair, Lf.Fusible, Lf.Fusion, JumpDelta;
    FusedCases(code, p);
    if Lf.FusePair(code, p) {
      FusionCounts(code[p], code[p + 1]);
      assert false;
    } else if Lf.FusePair(code, p - 1) {
      FusionCounts(code[p - 1], code[p]);
      assert Anchors(Lf.Fused(code)[p - 1], p - 1, t, false);
    } else {
      assert Anchors(Lf.Fused(code)[p], p, t, false);
    }
  }

  lemma FusedNoClash(code: seq<Instruction>)
    requires NoClash(code, false) && FusesApart(code, false) && Lf.FusionSafe(code)
    ensures NoClash(Lf.Fused(code), false)
  {
    hide Lf.Fused, Lf.FusePair, Lf.Fusible, Lf.Fusion, Clash, Copying, Writing, Bounded, Stops, Lf.FusionSafe;
    var code' := Lf.Fused(code);
    FusedBounded(code);
    forall q, p | Reaches(code', q, p, false) ensures !Clash(code'[q], code'[p]) {
      if Clash(code'[q], code'[p]) {
        ClashNotes(code'[q], code'[p], false);
        ReachesBack(code, false, code', false, q, p);
        FusedClash(code, q, p);
      }
    }
  }

  lemma FusedClash(code: seq<Instruction>, q: int, p: int)
    requires NoClash(code, false) && FusesApart(code, false) && Lf.FusionSafe(code) && Reaches(code, q, p, false)
    ensures !Clash(Lf.Fused(code)[q], Lf.Fused(code)[p])
  {
    hide Lf.Fused, Lf.FusePair, Lf.Fusible, Lf.Fusion, Copying, Writing, Stops, Lf.FusionSafe, NoClash, FusesApart,
         Reaches;
    ReachesInside(code, q, p);
    NopNotes();
    FusedCases(code, q);
    FusedCases(code, p);
    if Lf.FusePair(code, q) {
      FusionCounts(code[q], code[q + 1]);
    } else if Lf.FusePair(code, p) {
      FusionCounts(code[p], code[p + 1]);
      FuseApartAt(code, q, p);
      PairReached(code, q, p);
    } else {
      ApartAt(code, q, p);
    }
  }

  lemma ReachesInside(code: seq<Instruction>, q: int, p: int)
    requires Reaches(code, q, p, false)
    ensures 0 <= q < p < |code|
  {
  }

  lemma ApartAt(code: seq<Instruction>, q: int, p: int)
    requires NoClash(code, false) && Reaches(code, q, p, false)
    ensures 0 <= q < p < |code| && !Clash(code[q], code[p])
  {
    hide Clash;
  }

  lemma FuseApartAt(code: seq<Instruction>, q: int, p: int)
    requires FusesApart(code, false) && Reaches(code, q, p, false) && Lf.FusePair(code, p)
    ensures 0 <= q < p < |code| && !(Copying(code[q]) && code[q].a == code[p].a)
  {
    hide Copying, Lf.FusePair;
  }

  lemma PairUnanchored(code: seq<Instruction>, p: int)
    requires Lf.FusionSafe(code) && Lf.FusePair(code, p)
    ensures 0 <= p && p + 1 < |code| && !Stops(code[p], false) && !Anchored(code, p + 1, false)
  {
    hide Anchored, IsLabel, Lf.Fusible, Lf.Fusion, Stops;
    FusionCounts(code[p], code[p + 1]);
    if Anchored(code, p + 1, false) {
      AnchorLabels(code, p + 1, false);
      assert false;
    }
  }

  lemma OneFurther(code: seq<Instruction>, q: int, p: int)
    requires Reaches(code, q, p, false) && p + 1 < |code|
    requires 0 <= p && !Stops(code[p], false) && !Anchored(code, p + 1, false)
    ensures Reaches(code, q, p + 1, false)
  {
    hide Stops, Anchored;
  }

  // The second half of a pair is reached with the first.
  lemma PairReached(code: seq<Instruction>, q: int, p: int)
    requires NoClash(code, false) && Lf.FusionSafe(code) && Reaches(code, q, p, false) && Lf.FusePair(code, p)
    ensures 0 <= q && p + 1 < |code| && !Clash(code[q], code[p + 1])
  {
    hide *;
    PairUnanchored(code, p);
    OneFurther(code, q, p);
    ApartAt(code, q, p + 1);
  }

  // ---- Tail calls ---------------------------------------------------------------------------------

  lemma TailCalledBounded(code: seq<Instruction>)
    ensures Bounded(code, false, Tc.TailCalled(code), false)
    ensures forall k :: 0 <= k < |code| ==> Milder(code[k], Tc.TailCalled(code)[k])
  {
    hide *;
    var code' := Tc.TailCalled(code);
    forall k | 0 <= k < |code| ensures Milder(code[k], code'[k]) && StopStays(code, false, code', false, k) {
      TailCalledCase(code, k);
    }
    forall k, t | 0 <= k < |code| && Anchors(code[k], k, t, false) ensures Anchors(code'[k], k, t, false) {
      TailCalledCase(code, k);
    }
    BoundedIf(code, false, code', false);
  }

  // An instruction that nothing here looks at.
  predicate Quiet(i: Instruction) {
    !Copying(i) && !Writing(i) && !Cp.InPlace(i.op) && i.op != VarArg && !Lasts(i, false) && i.op != TryBegin
  }

  lemma TailQuiet(code: seq<Instruction>, p: int)
    requires Tc.TailPair(code, p)
    ensures 0 <= p && p + 1 < |code| && Quiet(code[p]) && Quiet(code[p + 1]) && Quiet(NOP)
    ensures Quiet(Tc.TailCalling(code[p])) && Stops(Tc.TailCalling(code[p]), false)
  {
  }

  lemma MilderSelf(i: Instruction)
    ensures Milder(i, i)
  {
  }

  lemma TailCalledCase(code: seq<Instruction>, k: int)
    requires 0 <= k < |code|
    ensures Milder(code[k], Tc.TailCalled(code)[k])
    ensures StopStays(code, false, Tc.TailCalled(code), false, k)
    ensures forall t :: Anchors(code[k], k, t, false) ==> Anchors(Tc.TailCalled(code)[k], k, t, false)
  {
    hide Tc.TailCalled, Tc.TailPair, Tc.TailCalling, Stops, Lasts, Copying, Writing, Cp.InPlace, JumpDelta;
    Tc.TailCalledEach(code, k);
    Tc.NoTwoPairs(code, k);
    Tc.NoTwoPairs(code, k - 1);
    if Tc.TailPair(code, k) {
      TailQuiet(code, k);
    } else if Tc.TailPair(code, k - 1) {
      TailQuiet(code, k - 1);
      Tc.TailCalledEach(code, k - 1);
    } else {
      MilderSelf(code[k]);
    }
  }

  // ---- Cleanup --------------------------------------------------------------------------------------

  lemma RetargetedClash(i: Instruction, d: int, j: Instruction, d': int)
    requires -0x8000_0000 <= d < 0x8000_0000 && -0x8000_0000 <= d' < 0x8000_0000
    ensures Clash(WithJumpDelta(i, d), WithJumpDelta(j, d')) == Clash(i, j)
    ensures Stops(WithJumpDelta(i, d), false) == Stops(i, false) && Lasts(WithJumpDelta(i, d), false) == Lasts(i, false)
  {
    RetargetedOp(i, d);
    RetargetedOp(j, d');
  }

  lemma RetargetedOp(i: Instruction, d: int)
    requires -0x8000_0000 <= d < 0x8000_0000
    ensures var i' := WithJumpDelta(i, d);
            && i'.op == i.op && (!IsRelativeJump(i.op) ==> i' == i)
            && (Cp.InPlace(i.op) ==> i'.a == i.a && (i.op == AddDecJnz ==> i'.b == i.b))
  {
  }

  // Survivors of the same code, in the order of their numbers.
  lemma SurvivorsApart(code: seq<Instruction>, j1: nat, j2: nat, k: int)
    requires j1 < j2 < Cl.NewSize(code) && Cl.OldPc(code, j1) < k < Cl.OldPc(code, j2) && code[k].op != Nop
    ensures j1 < Cl.NewPc(code, k) < j2 && Cl.OldPc(code, Cl.NewPc(code, k)) == k
  {
    hide Cl.Places, Cl.NewPc, Cl.OldPc, Cl.NewSize;
    Cl.SurvivorNumber(code, k);
    Numbered(code, j1);
    Numbered(code, j2);
    NumbersGrow(code, Cl.OldPc(code, j1) + 1, k);
    NumbersGrow(code, k + 1, Cl.OldPc(code, j2));
  }

  lemma Numbered(code: seq<Instruction>, j: nat)
    requires j < Cl.NewSize(code)
    ensures Cl.OldPc(code, j) < |code| && code[Cl.OldPc(code, j)].op != Nop
    ensures Cl.NewPc(code, Cl.OldPc(code, j)) == j && Cl.NewPc(code, Cl.OldPc(code, j) + 1) == j + 1
  {
    Cl.PlaceNumber(code, |code|, j);
    Cl.SurvivorNumber(code, Cl.OldPc(code, j));
  }

  lemma NumbersGrow(code: seq<Instruction>, p: nat, q: nat)
    requires p <= q <= |code|
    ensures Cl.NewPc(code, p) <= Cl.NewPc(code, q)
  {
    Cl.PlacesPrefix(code, p, q);
  }

  lemma CompactedStop(code: seq<Instruction>, k: nat)
    requires Cl.Compactable(code) && k < |code| && Stops(code[k], false)
    ensures Cl.NewPc(code, k) < |Cl.Compacted(code)| && Stops(Cl.Compacted(code)[Cl.NewPc(code, k)], false)
    ensures code[k].op != Nop && Lasts(Cl.Compacted(code)[Cl.NewPc(code, k)], false) == Lasts(code[k], false)
  {
    hide Cl.Compactable, Cl.Compacted, Cl.Places, Cl.NewPc, Cl.OldPc, Cl.NewSize, JumpDelta, WithJumpDelta;
    StopIsNoNop(code[k]);
    Cl.SurvivorNumber(code, k);
    Cl.CompactedShape(code, Cl.NewPc(code, k));
    var d :| -0x8000_0000 <= d < 0x8000_0000 && Cl.Compacted(code)[Cl.NewPc(code, k)] == WithJumpDelta(code[k], d);
    RetargetedClash(code[k], d, code[k], d);
  }

  lemma StopIsNoNop(i: Instruction)
    ensures Stops(i, false) ==> i.op != Nop
    ensures Lasts(i, false) ==> IsRelativeJump(i.op) && Stops(i, false)
  {
    hide JumpDelta;
  }

  // A lasting jump anchors the new number of its target.
  lemma CompactedAnchor(code: seq<Instruction>, t: nat)
    requires Cl.Compactable(code) && Cl.TargetsSurvive(code) && t < |code| && Anchored(code, t, false)
    ensures Anchored(Cl.Compacted(code), Cl.NewPc(code, t), false)
  {
    hide Cl.Compactable, Stops, NamesHandler, Cl.Compacted, Cl.Places, Cl.NewPc, Cl.OldPc, Cl.NewSize, JumpDelta,
         WithJumpDelta, Cl.TargetsSurvive, Lasts;
    var k :| 0 <= k < |code| && Anchors(code[k], k, t, false);
    CompactableTries(code, k, t);
    StopIsNoNop(code[k]);
    CompactedStop(code, k);
    Cl.RenumberedJump(code, k);
    assert Anchors(Cl.Compacted(code)[Cl.NewPc(code, k)], Cl.NewPc(code, k), Cl.NewPc(code, t), false);
  }

  lemma CompactableTries(code: seq<Instruction>, k: int, t: int)
    requires Cl.Compactable(code) && 0 <= k < |code|
    ensures !NamesHandler(code[k], t)
  {
    hide Cl.Renumbered;
    assert !IsTryOpcode(code[k].op);
  }

  lemma CompactedReaches(code: seq<Instruction>, j1: int, j2: int)
    requires Cl.Compactable(code) && Cl.TargetsSurvive(code) && Reaches(Cl.Compacted(code), j1, j2, false)
    ensures 0 <= j1 < Cl.NewSize(code) && 0 <= j2 < Cl.NewSize(code)
    ensures Reaches(code, Cl.OldPc(code, j1), Cl.OldPc(code, j2), false)
  {
    hide Cl.Compactable, Cl.Compacted, Cl.Places, Cl.NewPc, Cl.OldPc, Cl.NewSize, Cl.TargetsSurvive, Anchored, Stops;
    var q, p := Cl.OldPc(code, j1), Cl.OldPc(code, j2);
    Numbered(code, j1);
    Numbered(code, j2);
    if p <= q {
      NumbersGrow(code, p, q);
      assert false;
    }
    forall k | q < k < p ensures !Stops(code[k], false) {
      if Stops(code[k], false) {
        CompactedStop(code, k);
        SurvivorsApart(code, j1, j2, k);
        assert false;
      }
    }
    forall t | q < t <= p ensures !Anchored(code, t, false) {
      if Anchored(code, t, false) {
        CompactedAnchor(code, t);
        NumbersGrow(code, q + 1, t);
        NumbersGrow(code, t, p);
        assert false;
      }
    }
  }

  lemma CompactedNoClash(code: seq<Instruction>)
    requires Cl.Compactable(code) && Cl.TargetsSurvive(code) && NoClash(code, false)
    ensures NoClash(Cl.Compacted(code), false)
  {
    hide Cl.Compactable, Cl.Compacted, Cl.OldPc, Cl.NewSize, Cl.TargetsSurvive, Reaches, Clash, WithJumpDelta, NoClash;
    var code' := Cl.Compacted(code);
    forall j1, j2 | Reaches(code', j1, j2, false)
      ensures 0 <= j1 < |code'| && 0 <= j2 < |code'| && !Clash(code'[j1], code'[j2])
    {
      ReachesInside(code', j1, j2);
      CompactedReaches(code, j1, j2);
      var q, p := Cl.OldPc(code, j1), Cl.OldPc(code, j2);
      ApartAt(code, q, p);
      Cl.CompactedShape(code, j1);
      Cl.CompactedShape(code, j2);
      var d :| -0x8000_0000 <= d < 0x8000_0000 && code'[j1] == WithJumpDelta(code[q], d);
      var d' :| -0x8000_0000 <= d' < 0x8000_0000 && code'[j2] == WithJumpDelta(code[p], d');
      RetargetedClash(code[q], d, code[p], d');
    }
    NoClashIf(code');
  }

  lemma NoClashIf(code: seq<Instruction>)
    requires forall q, p :: Reaches(code, q, p, false) ==>
             0 <= q < |code| && 0 <= p < |code| && !Clash(code[q], code[p])
    ensures NoClash(code, false)
  {
    hide Reaches, Clash;
  }

  lemma LaterStop(code: seq<Instruction>, k: int)
    requires 0 <= k < |code|
    ensures Milder(code[k], code[k]) && StopStays(code, true, code, false, k)
    ensures forall t :: Anchors(code[k], k, t, true) ==> Anchors(code[k], k, t, false)
  {
    hide JumpDelta, NamesHandler;
  }

  // The peephole pass left out.
  lemma LaterBounded(code: seq<Instruction>)
    ensures Bounded(code, true, code, false) && forall k :: 0 <= k < |code| ==> Milder(code[k], code[k])
  {
    hide *;
    forall k | 0 <= k < |code| ensures Milder(code[k], code[k]) && StopStays(code, true, code, false, k) {
      LaterStop(code, k);
    }
    forall k, t | 0 <= k < |code| && Anchors(code[k], k, t, true) ensures Anchors(code[k], k, t, false) {
      LaterStop(code, k);
    }
    BoundedIf(code, true, code, false);
  }

  // ---- What the passes believe --------------------------------------------------------------------

  lemma ReachesOn(code: seq<Instruction>, q: int, p: int)
    requires p < |code| && !IsLabel(code, p)
    requires q == p - 1 >= 0 || (Reaches(code, q, p - 1, false) && !Stops(code[p - 1], false))
    ensures Reaches(code, q, p, false)
  {
    hide Stops, IsLabel;
    if Anchored(code, p, false) {
      AnchorLabels(code, p, false);
      assert false;
    }
    hide Anchored;
  }

  lemma StopClears(i: Instruction, alias: Cp.AliasMap)
    requires Stops(i, false)
    ensures Cp.CopiesBehind(i, alias) == map[]
  {
    hide JumpDelta;
  }

  // A copy noted behind an instruction was noted before, or is made by it.
  lemma CopyStep(i: Instruction, alias: Cp.AliasMap, r: int)
    requires r in Cp.CopiesBehind(i, alias)
    ensures var v := Cp.CopiesBehind(i, alias)[r];
            || (r in alias && alias[r] == v)
            || (Copying(i) && r == i.a && v == Cp.Resolve(alias, i.b))
  {
    hide Cp.RemapsC, Cp.KillsA, P.AddsZero, IsTerminator, IsRelativeJump;
  }

  // Where a copy that is believed in was made, and where what it is a copy of was copied.
  lemma {:induction false} CopyReaches(code: seq<Instruction>, p: nat, r: int) returns (q: int, q': int)
    requires p < |code| && r in Cp.CopiesBefore(code, p)
    ensures Reaches(code, q, p, false) && Copying(code[q]) && code[q].a == r
    ensures Reaches(code, q', p, false) && Copying(code[q']) && code[q'].b == Cp.CopiesBefore(code, p)[r]
    decreases p
  {
    hide IsLabel, Cp.CopiesBehind, Copying, Stops, Reaches;
    var i, alias := code[p - 1], Cp.CopiesBefore(code, p - 1);
    if Stops(i, false) {
      StopClears(i, alias);
      assert false;
    }
    CopyStep(i, alias, r);
    if r in alias && alias[r] == Cp.CopiesBefore(code, p)[r] {
      q, q' := CopyReaches(code, p - 1, r);
      ReachesOn(code, q, p);
      ReachesOn(code, q', p);
    } else {
      q, q' := p - 1, p - 1;
      ReachesOn(code, p - 1, p);
      if i.b in alias {
        var _, o := CopyReaches(code, p - 1, i.b);
        q' := o;
        ReachesOn(code, q', p);
      }
    }
  }

  lemma StopKept(i: Instruction, known: Cf.KnownMap)
    requires Stops(i, false)
    ensures Cf.FoldLocally(i, known) == KnownValues.Keep && (IsRelativeJump(i.op) || IsTerminator(i.op))
  {
    hide JumpDelta, KnownValues.AbsCompute;
  }

  lemma StopForgets(i: Instruction, constants: seq<Constant>, known: Cf.KnownMap)
    requires Stops(i, false)
    ensures Cf.KnownBehind(constants, i, known) == map[]
  {
    hide JumpDelta, KnownValues.AbsCompute, KnownValues.Fold, Cf.Learn;
    StopKept(i, known);
  }

  lemma LearnStep(i: Instruction, constants: seq<Constant>, known: Cf.KnownMap, r: int)
    requires r in Cf.KnownBehind(constants, i, known)
    ensures r in known || (Writing(i) && r == i.a)
  {
    hide KnownValues.AbsCompute, KnownValues.AbsLoadK, Cf.FoldLocally;
  }

  lemma {:induction false} KnownReaches(
      code: seq<Instruction>, constants: seq<Constant>, p: nat, r: int) returns (q: int)
    requires p < |code| && r in Cf.KnownBefore(code, constants, p)
    ensures Reaches(code, q, p, false) && Writing(code[q]) && code[q].a == r
    decreases p
  {
    hide IsLabel, Cf.KnownBehind, Writing, Stops, Reaches;
    var i, known := code[p - 1], Cf.KnownBefore(code, constants, p - 1);
    if Stops(i, false) {
      StopForgets(i, constants, known);
      assert false;
    }
    LearnStep(i, constants, known, r);
    if r in known {
      q := KnownReaches(code, constants, p - 1, r);
    } else {
      q := p - 1;
    }
    ReachesOn(code, q, p);
  }

  // Code without clashes is safe to fold and to propagate copies in.
  lemma NoClashKnown(code: seq<Instruction>, constants: seq<Constant>)
    requires NoClash(code, false)
    ensures Cf.WindowsUnknown(code, constants)
  {
    hide Cf.KnownBefore, Reaches, NoClash;
    forall p, r | 0 <= p < |code| && r in Cf.KnownBefore(code, constants, p)
      ensures code[p].op == VarArg ==> !(code[p].a < r < code[p].a + code[p].c)
    {
      var q := KnownReaches(code, constants, p, r);
      ApartAt(code, q, p);
    }
  }

  lemma CopyingWrites(i: Instruction)
    requires Copying(i)
    ensures Writing(i)
  {
  }

  lemma NoClashCopies(code: seq<Instruction>)
    requires NoClash(code, false)
    ensures Cp.PropagationSafe(code)
  {
    hide Cp.CopiesBefore, Reaches, NoClash, Copying, Writing;
    forall p | 0 <= p < |code|
      ensures Cp.InPlaceSafe(code[p], Cp.CopiesBefore(code, p)) && Cp.WindowApart(code[p], Cp.CopiesBefore(code, p))
    {
      var alias := Cp.CopiesBefore(code, p);
      forall r | r in alias
        ensures Cp.InPlace(code[p].op) ==> r != code[p].a && (code[p].op == AddDecJnz ==> r != code[p].b)
        ensures code[p].op == VarArg ==> !(code[p].a < r < code[p].a + code[p].c)
        ensures code[p].op == VarArg ==> !(code[p].a < alias[r] < code[p].a + code[p].c)
      {
        var q, q' := CopyReaches(code, p, r);
        ApartAt(code, q, p);
        ApartAt(code, q', p);
        CopyingWrites(code[q]);
      }
    }
  }
}
