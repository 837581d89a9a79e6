/** Cleanup: Nops are deleted and every relative jump is renumbered. */
module Cleanup {
  import opened Int64
  import opened Bytecode
  import opened Machines
  import opened Interpreter
  import opened Steps
  import opened Runs
  import opened Verifier
  import opened TrustedMode
  import opened Relocation
  import opened Passes

  // ---- Renumbering --------------------------------------------------------------------------

  // The places below `p` that hold something other than a Nop, in order.
  function Places(code: seq<Instruction>, p: nat): (places: seq<nat>)
    requires p <= |code|
    ensures |places| <= p
    ensures forall j :: 0 <= j < |places| ==> places[j] < p && code[places[j]].op != Nop
  {
    if p == 0 then []
    else Places(code, p - 1) + if code[p - 1].op == Nop then [] else [p - 1]
  }

  // The new number of the next surviving instruction at or after `p`.
  function NewPc(code: seq<Instruction>, p: nat): nat
    requires p <= |code|
  {
    |Places(code, p)|
  }

  function NewSize(code: seq<Instruction>): nat { NewPc(code, |code|) }

  function OldPc(code: seq<Instruction>, j: nat): (p: nat)
    requires j < NewSize(code)
    ensures p < |code| && code[p].op != Nop
  {
    Places(code, |code|)[j]
  }

  lemma {:induction false} PlacesPrefix(code: seq<Instruction>, p: nat, q: nat)
    requires p <= q <= |code|
    ensures Places(code, p) <= Places(code, q)
    ensures (forall k :: p <= k < q ==> code[k].op == Nop) <==> NewPc(code, p) == NewPc(code, q)
    decreases q - p
  {
    if p < q { PlacesPrefix(code, p, q - 1); }
  }

  lemma NoSurvivor(code: seq<Instruction>)
    ensures NewSize(code) == 0 <==> forall k :: 0 <= k < |code| ==> code[k].op == Nop
  {
    PlacesPrefix(code, 0, |code|);
  }

  lemma PlacesStep(code: seq<Instruction>, p: nat)
    requires p < |code|
    ensures Places(code, p + 1) == Places(code, p) + if code[p].op == Nop then [] else [p]
  {
  }

  // A surviving instruction keeps its number, and numbers identify survivors.
  lemma SurvivorNumber(code: seq<Instruction>, p: nat)
    requires p < |code| && code[p].op != Nop
    ensures NewPc(code, p) < NewSize(code) && OldPc(code, NewPc(code, p)) == p
    ensures NewPc(code, p + 1) == NewPc(code, p) + 1
  {
    PlacesPrefix(code, p + 1, |code|);
  }

  // A number is that of its survivor.
  lemma {:induction false} PlaceNumber(code: seq<Instruction>, q: nat, j: nat)
    requires q <= |code| && j < |Places(code, q)|
    ensures NewPc(code, Places(code, q)[j]) == j
    decreases q
  {
    PlacesStep(code, q - 1);
    if j < |Places(code, q - 1)| { PlaceNumber(code, q - 1, j); }
  }

  // The next survivor is the old place of the new number.
  lemma {:induction false} NextSurvivor(code: seq<Instruction>, p: nat)
    requires p <= |code| && NewPc(code, p) < NewSize(code)
    ensures var q := OldPc(code, NewPc(code, p));
            p <= q && NewPc(code, q) == NewPc(code, p) && forall k :: p <= k < q ==> code[k].op == Nop
    decreases |code| - p
  {
    assert p < |code|;
    if code[p].op == Nop {
      NextSurvivor(code, p + 1);
    } else {
      SurvivorNumber(code, p);
    }
  }

  // ---- Jump targets ---------------------------------------------------------------------------

  // Where FindMappedTarget sends a jump: to the next survivor, or back to the last one when
  // only Nops follow.
  function MappedTarget(code: seq<Instruction>, t: nat): nat
    requires t < |code| && NewSize(code) > 0
  {
    if NewPc(code, t) < NewSize(code) then NewPc(code, t) else NewSize(code) - 1
  }

  predicate SurvivorFrom(code: seq<Instruction>, t: nat) {
    exists k :: t <= k < |code| && code[k].op != Nop
  }

  // The mapped target is the next survivor exactly when there is one.
  lemma MappedTargetExact(code: seq<Instruction>, t: nat)
    requires t < |code| && NewSize(code) > 0
    ensures MappedTarget(code, t) == NewPc(code, t) <==> SurvivorFrom(code, t)
  {
    PlacesPrefix(code, t, |code|);
  }

  predicate Renumbers(code: seq<Instruction>, oldToNew: seq<int>) {
    && |oldToNew| == |code|
    && forall p :: 0 <= p < |code| ==> oldToNew[p] == if code[p].op == Nop then -1 else NewPc(code, p)
  }

  method FindMappedTarget(ghost code: seq<Instruction>, oldToNew: seq<int>, t: nat) returns (target: Option<nat>)
    requires Renumbers(code, oldToNew)
    ensures target == if t < |code| && NewSize(code) > 0 then Some(MappedTarget(code, t)) else None
  {
    hide Places, NewPc;
    if t >= |oldToNew| { return None; }
    if oldToNew[t] >= 0 {
      SurvivorNumber(code, t);
      return Some(oldToNew[t]);
    }
    for i := t + 1 to |oldToNew|
      invariant forall k :: t <= k < i ==> code[k].op == Nop
    {
      if oldToNew[i] >= 0 {
        PlacesPrefix(code, t, i);
        SurvivorNumber(code, i);
        return Some(oldToNew[i]);
      }
    }
    PlacesPrefix(code, t, |code|);
    var i := t;
    while i > 0
      invariant 0 <= i <= t && forall k :: i <= k < |code| ==> code[k].op == Nop
    {
      i := i - 1;
      if oldToNew[i] >= 0 {
        SurvivorNumber(code, i);
        PlacesPrefix(code, i + 1, |code|);
        return Some(oldToNew[i]);
      }
    }
    NoSurvivor(code);
    target := None;
  }

  // ---- The new code -----------------------------------------------------------------------------

  // The instruction numbered `j` in the new code; none if its jump cannot be expressed.
  function Renumbered(code: seq<Instruction>, j: nat): Option<Instruction>
    requires j < NewSize(code)
  {
    var p := OldPc(code, j);
    var i := code[p];
    if !IsRelativeJump(i.op) then Some(i)
    else
      var t := p + JumpDelta(i);
      if !(0 <= t < |code|) then None
      else
        var delta := MappedTarget(code, t) - j;
        if -0x8000_0000 <= delta < 0x8000_0000 then Some(WithJumpDelta(i, delta)) else None
  }

  // Cleanup goes through: there is something to delete and something to keep, and every
  // jump, old and new, can be expressed.
  predicate Compactable(code: seq<Instruction>) {
    && TryFree(code) && 0 < NewSize(code) < |code|
    && forall j :: 0 <= j < NewSize(code) ==> Renumbered(code, j).Some?
  }

  function Compacted(code: seq<Instruction>): (code': seq<Instruction>)
    requires Compactable(code)
    ensures |code'| == NewSize(code)
  {
    seq(NewSize(code), j requires 0 <= j < NewSize(code) => Renumbered(code, j).value)
  }

  method CountNops(code: seq<Instruction>) returns (nops: nat)
    ensures nops == |code| - NewSize(code)
  {
    nops := 0;
    for i := 0 to |code|
      invariant nops == i - NewPc(code, i)
    {
      if code[i].op == Nop { nops := nops + 1; }
    }
  }

  // The surviving instructions and the two renumbering tables.
  method Gather(code: seq<Instruction>) returns (kept: seq<Instruction>, oldToNew: seq<int>, newToOld: seq<nat>)
    ensures newToOld == Places(code, |code|) && |kept| == |newToOld|
    ensures forall j :: 0 <= j < |kept| ==> kept[j] == code[newToOld[j]]
    ensures Renumbers(code, oldToNew)
  {
    hide Places;
    kept, oldToNew, newToOld := [], [], [];
    assert Places(code, 0) == [];
    for i := 0 to |code|
      invariant newToOld == Places(code, i) && |oldToNew| == i && |kept| == |newToOld|
      invariant forall j :: 0 <= j < |kept| ==> kept[j] == code[newToOld[j]]
      invariant forall p :: 0 <= p < i ==> oldToNew[p] == if code[p].op == Nop then -1 else NewPc(code, p)
    {
      PlacesStep(code, i);
      if code[i].op == Nop {
        oldToNew := oldToNew + [-1];
      } else {
        oldToNew := oldToNew + [|kept|];
        kept := kept + [code[i]];
        newToOld := newToOld + [i];
      }
    }
  }

  method RenumberOne(code: seq<Instruction>, oldToNew: seq<int>, p: nat, j: nat, i: Instruction)
    returns (i': Option<Instruction>)
    requires Renumbers(code, oldToNew) && j < NewSize(code) && p == OldPc(code, j) && i == code[p]
    ensures i' == Renumbered(code, j)
  {
    hide NewPc, Places, OldPc, NewSize, MappedTarget, JumpDelta, WithJumpDelta, Renumbers, IsRelativeJump;
    if !IsRelativeJump(i.op) { return Some(i); }
    var t := p + JumpDelta(i);
    if t < 0 || t >= |code| { return None; }
    var target := FindMappedTarget(code, oldToNew, t);
    if target.None? { return None; }
    var delta := target.value - j;
    if delta < -0x8000_0000 || delta > 0x7FFF_FFFF { return None; }
    i' := Some(WithJumpDelta(i, delta));
  }

  method Compact(code: seq<Instruction>) returns (code': seq<Instruction>, changed: bool)
    ensures changed <==> Compactable(code)
    ensures code' == if Compactable(code) then Compacted(code) else code
  {
    hide Places, Renumbered, Renumbers;
    code', changed := code, false;
    if code == [] || !TryFree(code) { return; }
    var nops := CountNops(code);
    if nops == 0 { return; }
    var kept, oldToNew, newToOld := Gather(code);
    if kept == [] { return; }
    for j := 0 to |kept|
      invariant |kept| == NewSize(code)
      invariant forall k :: 0 <= k < j ==> Renumbered(code, k) == Some(kept[k])
      invariant forall k :: j <= k < |kept| ==> kept[k] == code[OldPc(code, k)]
    {
      var i := RenumberOne(code, oldToNew, newToOld[j], j, kept[j]);
      if i.None? { return; }
      kept := kept[j := i.value];
    }
    code', changed := kept, true;
  }

  // ---- The runs correspond --------------------------------------------------------------------

  // What becomes of a survivor.
  lemma CompactedShape(code: seq<Instruction>, j: nat)
    requires Compactable(code) && j < NewSize(code)
    ensures var i, i' := code[OldPc(code, j)], Compacted(code)[j];
            && (exists d :: -0x8000_0000 <= d < 0x8000_0000 && i' == WithJumpDelta(i, d))
            && (IsRelativeJump(i'.op) ==> 0 <= j + JumpDelta(i') < NewSize(code))
  {
    hide JumpDelta, WithJumpDelta;
    assert Renumbered(code, j).Some?;
    var i := code[OldPc(code, j)];
    if !IsRelativeJump(i.op) { assert WithJumpDelta(i, 0) == i; }
  }

  // Every jump finds a survivor at or after its target.
  predicate TargetsSurvive(code: seq<Instruction>) {
    forall p :: 0 <= p < |code| && IsRelativeJump(code[p].op) && 0 <= p + JumpDelta(code[p]) < |code| ==>
      SurvivorFrom(code, p + JumpDelta(code[p]))
  }

  // The new machine stands on the next surviving instruction.
  ghost predicate Follows(code: seq<Instruction>, n: nat, t: State, s: State) {
    && 0 <= s.pc <= |code| && |s.regs| == n && s.tries == []
    && t == s.(pc := NewPc(code, s.pc))
  }

  // The old machine walks over Nops.
  lemma {:induction false} SkipNops(trusted: bool, f: Frame, s: State, q: nat)
    requires 0 <= s.pc <= q <= |f.code| && forall k :: s.pc <= k < q ==> f.code[k].op == Nop
    ensures Run(Activation(trusted, f), s, q - s.pc) == Running(s.(pc := q))
    decreases q - s.pc
  {
    hide StepOf;
    if s.pc < q {
      NopStep(trusted, f, s);
      SkipNops(trusted, f, s.(pc := s.pc + 1), q);
    } else {
      assert s.(pc := q) == s;
    }
  }

  lemma SurvivorPlace(m: Module, fn: Function, f: Frame, f': Frame, s: State)
    requires Carries(m, fn, f) && Compactable(f.code) && f' == f.(code := Compacted(f.code))
    requires InCode(f, s) && f.code[s.pc].op != Nop
    ensures 0 <= s.pc < |f.code| && 0 <= NewPc(f.code, s.pc) < |f'.code|
    ensures NewPc(f.code, s.pc + 1) == NewPc(f.code, s.pc) + 1
    ensures !IsTryOpcode(f.code[s.pc].op)
    ensures !IsRelativeJump(f.code[s.pc].op) ==> f'.code[NewPc(f.code, s.pc)] == f.code[s.pc]
  {
    hide Places, NewPc, OldPc, NewSize, IsRelativeJump, IsTryOpcode, JumpDelta, WithJumpDelta, MappedTarget;
    SurvivorNumber(f.code, s.pc);
    assert Renumbered(f.code, NewPc(f.code, s.pc)).Some?;
  }

  lemma SurvivorPlain(trusted: bool, m: Module, fn: Function, f: Frame, f': Frame, s: State)
    requires Carries(m, fn, f) && Compactable(f.code)
    requires f' == f.(code := Compacted(f.code)) && |s.regs| == fn.regCount && s.tries == []
    requires InCode(f, s) && f.code[s.pc].op != Nop && !IsRelativeJump(f.code[s.pc].op)
    requires NewPc(f.code, s.pc) < NewSize(f.code)
    ensures match StepOf(trusted, f, s)
            case Done(o) => StepOf(trusted, f', s.(pc := NewPc(f.code, s.pc))) == Done(o)
            case Next(u) =>
              && StepOf(trusted, f', s.(pc := NewPc(f.code, s.pc))).Next?
              && Follows(f.code, fn.regCount, StepOf(trusted, f', s.(pc := NewPc(f.code, s.pc))).s, u)
  {
    hide StepOf, Carries, Compactable, Compacted, NewPc, NewSize, IsRelativeJump, IsTryOpcode;
    SurvivorPlace(m, fn, f, f', s);
    StepRelocated(trusted, f, f', s, NewPc(f.code, s.pc));
    StepKeepsSize(trusted, m, fn, f, s);
  }

  // From related states, the surviving instruction takes both machines to related states.
  lemma SurvivorStep(trusted: bool, m: Module, fn: Function, f: Frame, f': Frame, s: State)
    requires Carries(m, fn, f) && Compactable(f.code) && TargetsSurvive(f.code)
    requires f' == f.(code := Compacted(f.code)) && |s.regs| == fn.regCount && s.tries == []
    requires InCode(f, s) && f.code[s.pc].op != Nop
    requires NewPc(f.code, s.pc) < NewSize(f.code)
    ensures match StepOf(trusted, f, s)
            case Done(o) => StepOf(trusted, f', s.(pc := NewPc(f.code, s.pc))) == Done(o)
            case Next(u) =>
              && StepOf(trusted, f', s.(pc := NewPc(f.code, s.pc))).Next?
              && Follows(f.code, fn.regCount, StepOf(trusted, f', s.(pc := NewPc(f.code, s.pc))).s, u)
  {
    hide *;
    SurvivorPlace(m, fn, f, f', s);
    if IsRelativeJump(f.code[s.pc].op) {
      SurvivorJump(trusted, m, fn, f, f', s);
    } else {
      SurvivorPlain(trusted, m, fn, f, f', s);
    }
  }

  // A surviving jump lands on the new number of its target.
  lemma RenumberedJump(code: seq<Instruction>, p: nat)
    requires Compactable(code) && TargetsSurvive(code) && p < |code|
    requires code[p].op != Nop && IsRelativeJump(code[p].op) && 0 <= p + JumpDelta(code[p]) < |code|
    ensures NewPc(code, p) < NewSize(code)
    ensures var i' := Compacted(code)[NewPc(code, p)];
            && -0x8000_0000 <= JumpDelta(i') < 0x8000_0000 && i' == WithJumpDelta(code[p], JumpDelta(i'))
            && JumpDelta(i') == NewPc(code, p + JumpDelta(code[p])) - NewPc(code, p)
            && NewPc(code, p + JumpDelta(code[p])) < NewSize(code)
  {
    hide Places, IsRelativeJump, JumpDelta, WithJumpDelta;
    SurvivorNumber(code, p);
    assert Renumbered(code, NewPc(code, p)).Some?;
    MappedTargetExact(code, p + JumpDelta(code[p]));
  }

  lemma SurvivorJump(trusted: bool, m: Module, fn: Function, f: Frame, f': Frame, s: State)
    requires Carries(m, fn, f) && Compactable(f.code) && TargetsSurvive(f.code)
    requires f' == f.(code := Compacted(f.code)) && |s.regs| == fn.regCount && s.tries == []
    requires InCode(f, s) && f.code[s.pc].op != Nop && IsRelativeJump(f.code[s.pc].op)
    requires NewPc(f.code, s.pc) < NewSize(f.code)
    ensures StepOf(trusted, f, s).Next? && StepOf(trusted, f', s.(pc := NewPc(f.code, s.pc))).Next?
    ensures Follows(f.code, fn.regCount, StepOf(trusted, f', s.(pc := NewPc(f.code, s.pc))).s, StepOf(trusted, f, s).s)
  {
    hide StepOf, Places, Branch, Carries, CodeOk, InstructionOk, IsRelativeJump, JumpDelta, WithJumpDelta,
         BranchRegsOk, Compactable, Compacted, TargetsSurvive, NewPc, NewSize, OldPc;
    var p := s.pc;
    var j := NewPc(f.code, p);
    CarriedOk(m, fn, f, p);
    RenumberedJump(f.code, p);
    SurvivorNumber(f.code, p);
    JumpStep(trusted, m, fn, f, s);
    RenumberedJumpStep(trusted, m, fn, f, f', s, j);
  }

  // The same jump with another distance, at another place.
  lemma RenumberedJumpStep(trusted: bool, m: Module, fn: Function, f: Frame, f': Frame, s: State, j: nat)
    requires InCode(f, s) && j < |f'.code| && |s.regs| == fn.regCount && IsRelativeJump(f.code[s.pc].op)
    requires InstructionOk(m, fn, f.code[s.pc], s.pc, |f.code|) && !IsTryOpcode(f.code[s.pc].op)
    requires var i' := f'.code[j];
             && -0x8000_0000 <= JumpDelta(i') < 0x8000_0000 && i' == WithJumpDelta(f.code[s.pc], JumpDelta(i'))
             && 0 <= j + JumpDelta(i') < |f'.code|
    ensures BranchRegsOk(f.code[s.pc], |s.regs|)
    ensures var b := Branch(f.code[s.pc], s.regs);
            StepOf(trusted, f', s.(pc := j)) ==
              Next(s.(regs := b.regs, pc := j + if b.taken then JumpDelta(f'.code[j]) else 1))
  {
    hide StepOf, Branch, InstructionOk, IsRelativeJump, JumpDelta, WithJumpDelta, BranchRegsOk;
    JumpStep(trusted, m, fn, f, s);
    BranchRetargeted(f.code[s.pc], f'.code[j], s.regs);
    RenumberedOk(m, fn, f.code[s.pc], f'.code[j], s.pc, |f.code|, j, |f'.code|);
    JumpStep(trusted, m, fn, f', s.(pc := j));
  }

  lemma CarriedOk(m: Module, fn: Function, f: Frame, p: nat)
    requires Carries(m, fn, f) && p < |f.code|
    ensures InstructionOk(m, fn, f.code[p], p, |f.code|)
    ensures IsRelativeJump(f.code[p].op) ==>
              0 <= p + JumpDelta(f.code[p]) < |f.code| && !IsTryOpcode(f.code[p].op)
  {
  }

  lemma RenumberedOk(
      m: Module, fn: Function, i: Instruction, i': Instruction, p: int, size: nat, j: int, size': nat)
    requires InstructionOk(m, fn, i, p, size) && !IsTryOpcode(i.op)
    requires if IsRelativeJump(i.op)
             then -0x8000_0000 <= JumpDelta(i') < 0x8000_0000 && i' == WithJumpDelta(i, JumpDelta(i'))
                  && 0 <= j + JumpDelta(i') < size'
             else i' == i
    ensures InstructionOk(m, fn, i', j, size')
  {
    if IsRelativeJump(i.op) { hide IsBound, IsSymbol, AcceptsCount, WindowFits; }
  }

  lemma CompactedRun(trusted: bool, m: Module, fn: Function, f: Frame, f': Frame, s: State)
    requires Carries(m, fn, f) && Compactable(f.code) && TargetsSurvive(f.code)
    requires f' == f.(code := Compacted(f.code))
    requires s.pc == 0 && |s.regs| == fn.regCount && s.tries == []
    ensures Result(Activation(trusted, f'), s) == Result(Activation(trusted, f), s)
  {
    var rel := (t: State, u: State) => Follows(f.code, fn.regCount, t, u);
    forall t, u | rel(t, u)
      ensures Matched(Activation(trusted, f'), Activation(trusted, f), rel, t, u)
    {
      CompactedMatch(trusted, m, fn, f, f', rel, t, u);
    }
    assert NewPc(f.code, 0) == 0;
    assert s.(pc := 0) == s;
    SimulatedResult(Activation(trusted, f'), Activation(trusted, f), rel, s, s);
  }

  lemma CompactedMatch(
      trusted: bool, m: Module, fn: Function, f: Frame, f': Frame, rel: (State, State) -> bool, t: State, u: State)
    requires Carries(m, fn, f) && Compactable(f.code) && TargetsSurvive(f.code)
    requires f' == f.(code := Compacted(f.code))
    requires forall x, y :: rel(x, y) <==> Follows(f.code, fn.regCount, x, y)
    requires Follows(f.code, fn.regCount, t, u)
    ensures Matched(Activation(trusted, f'), Activation(trusted, f), rel, t, u)
  {
    hide StepOf, Places, Carries, Compactable, TargetsSurvive;
    PlacesPrefix(f.code, u.pc, |f.code|);
    if t.pc == NewSize(f.code) {
      NopsToTheEnd(trusted, f, u);
    } else {
      NextSurvivor(f.code, u.pc);
      var q := OldPc(f.code, t.pc);
      var v := u.(pc := q);
      assert v.(pc := t.pc) == t;
      SurvivorStep(trusted, m, fn, f, f', v);
      NopsThenStep(trusted, f, u, q);
    }
  }

  lemma NopsToTheEnd(trusted: bool, f: Frame, u: State)
    requires 0 <= u.pc <= |f.code| && forall k :: u.pc <= k < |f.code| ==> f.code[k].op == Nop
    ensures Result(Activation(trusted, f), u) == Failed(PcEscaped, u.world)
  {
    hide StepOf;
    SkipNops(trusted, f, u, |f.code|);
    ResultAfter(Activation(trusted, f), u, |f.code| - u.pc);
    ResultOfStep(Activation(trusted, f), u.(pc := |f.code|));
  }

  lemma {:induction false} NopsThenStep(trusted: bool, f: Frame, u: State, q: nat)
    requires 0 <= u.pc <= q < |f.code| && forall k :: u.pc <= k < q ==> f.code[k].op == Nop
    ensures match StepOf(trusted, f, u.(pc := q))
            case Done(o) => Result(Activation(trusted, f), u) == o
            case Next(w) => Run(Activation(trusted, f), u, q - u.pc + 1) == Running(w)
  {
    hide StepOf;
    var a, v := Activation(trusted, f), u.(pc := q);
    SkipNops(trusted, f, u, q);
    ResultOfStep(a, v);
    ResultAfter(a, u, q - u.pc);
    RunSplit(a, u, q - u.pc, 1);
    if StepOf(trusted, f, v).Next? { assert Run(a, v, 1) == Running(StepOf(trusted, f, v).s); }
  }

  // ---- The pass -----------------------------------------------------------------------------

  lemma CompactedOk(m: Module, fn: Function, code: seq<Instruction>)
    requires CodeOk(m, fn, code) && Compactable(code)
    ensures CodeOk(m, fn, Compacted(code))
  {
    hide Places, InstructionOk;
    var code' := Compacted(code);
    forall j | 0 <= j < |code'| ensures InstructionOk(m, fn, code'[j], j, |code'|) {
      assert Renumbered(code, j).Some?;
      var p := OldPc(code, j);
      assert InstructionOk(m, fn, code[p], p, |code|);
      RenumberedOk(m, fn, code[p], code'[j], p, |code|, j, |code'|);
    }
  }

  lemma CompactedFunction(trusted: bool, m: Module, m': Module, fi: nat)
    requires Accepted(m) && fi < |m.functions| && Compactable(m.functions[fi].Code())
    requires TargetsSurvive(m.functions[fi].Code())
    requires m' == m.(functions := m'.functions) && |m'.functions| == |m.functions|
    requires m'.functions[fi] == m.functions[fi].(blocks := m'.functions[fi].blocks)
    requires m'.functions[fi].Code() == Compacted(m.functions[fi].Code())
    ensures SameFunction(trusted, m, m', fi)
  {
    hide Compactable, Compacted, TargetsSurvive;
    var fn := m.functions[fi];
    assert FunctionOk(m, fn);
    forall closure, varargs, env, args, w
      ensures Result(Activation(trusted, FrameOf(m, fi, closure, varargs, env)), EntryState(fn.regCount, args, w))
           == Result(Activation(trusted, FrameOf(m', fi, closure, varargs, env)), EntryState(fn.regCount, args, w))
    {
      CompactedRun(trusted, m, fn, FrameOf(m, fi, closure, varargs, env), FrameOf(m', fi, closure, varargs, env),
                   EntryState(fn.regCount, args, w));
    }
  }

  // Code with handlers, or whose jumps cannot be renumbered, is left alone.  No run changes,
  // provided every jump finds a surviving instruction at or after its target.
  method RunCleanupPass(ws: Workspace, fi: nat) returns (changed: bool)
    requires ws.Valid() && Accepted(ws.View()) && fi < |ws.functions|
    modifies ws`functions
    ensures ws.Valid() && Accepted(ws.View()) && Recoded(old(ws.View()), ws.View(), fi)
    ensures ws.functions[fi].regCount == old(ws.functions)[fi].regCount
    ensures changed <==> Compactable(old(ws.functions)[fi].Code())
    ensures !changed ==> ws.functions == old(ws.functions)
    ensures changed ==> ws.functions[fi].Code() == Compacted(old(ws.functions)[fi].Code())
    ensures (changed ==> TargetsSurvive(old(ws.functions)[fi].Code())) ==>
              forall trusted :: SameFunction(trusted, old(ws.View()), ws.View(), fi)
  {
    hide Compactable, Compacted, TargetsSurvive;
    ghost var m := ws.View();
    assert FunctionOk(m, m.functions[fi]);
    var code;
    code, changed := Compact(ws.functions[fi].Code());
    if changed {
      CompactedOk(m, m.functions[fi], m.functions[fi].Code());
      ws.Install(fi, code);
      InstalledOk(m, ws.View(), fi, code);
      RecodedAccepted(m, ws.View(), fi);
      if TargetsSurvive(m.functions[fi].Code()) {
        forall trusted ensures SameFunction(trusted, m, ws.View(), fi) {
          CompactedFunction(trusted, m, ws.View(), fi);
        }
      }
    }
  }

  // ---- A jump to trailing Nops ----------------------------------------------------------------

  function JumpOverReturn(): seq<Instruction> { [Make(Jmp, 2, 0, 0), Make(Ret, 0, 0, 0), NOP] }

  // The verifier accepts that code.
  lemma JumpOverReturnOk(m: Module, fn: Function)
    requires fn.regCount > 0
    ensures CodeOk(m, fn, JumpOverReturn())
  {
  }

  // Falling off the end becomes returning: the jump is sent back to the last survivor.
  lemma JumpSentBack(trusted: bool, f: Frame, w: World)
    requires f.code == JumpOverReturn() && f.returnType == AnyType
    ensures Compactable(f.code) && !TargetsSurvive(f.code)
    ensures Compacted(f.code) == [Make(Jmp, 1, 0, 0), Make(Ret, 0, 0, 0)]
    ensures Result(Activation(trusted, f), EntryState(1, [], w)) == Failed(PcEscaped, w)
    ensures Result(Activation(trusted, f.(code := Compacted(f.code))), EntryState(1, [], w)) == Returned(NULL, w)
  {
    JumpOverReturnCompacted();
    JumpOverReturnRuns(trusted, f, f.(code := Compacted(f.code)), w);
  }

  lemma JumpOverReturnPlaces()
    ensures var code := JumpOverReturn();
            NewSize(code) == 2 && OldPc(code, 0) == 0 && OldPc(code, 1) == 1 && NewPc(code, 2) == 2
  {
    var code := JumpOverReturn();
    hide Places;
    PlacesStep(code, 0);
    PlacesStep(code, 1);
    PlacesStep(code, 2);
    assert Places(code, 0) == [];
    assert Places(code, 2) == Places(code, 3) == [0, 1];
  }

  lemma JumpOverReturnTarget()
    ensures var code := JumpOverReturn();
            && JumpDelta(code[0]) == 2 && WithJumpDelta(code[0], 1) == Make(Jmp, 1, 0, 0)
            && NewSize(code) == 2 && MappedTarget(code, 2) == 1 && !SurvivorFrom(code, 2)
  {
    hide Places, NewPc, NewSize, OldPc;
    JumpOverReturnPlaces();
  }

  lemma JumpOverReturnCompacted()
    ensures var code := JumpOverReturn();
            Compactable(code) && !TargetsSurvive(code) && Compacted(code) == [Make(Jmp, 1, 0, 0), Make(Ret, 0, 0, 0)]
  {
    hide Places, NewPc, NewSize, OldPc, WithJumpDelta, JumpDelta, MappedTarget, SurvivorFrom;
    var code := JumpOverReturn();
    JumpOverReturnPlaces();
    JumpOverReturnTarget();
    assert Renumbered(code, 0) == Some(Make(Jmp, 1, 0, 0));
    assert Renumbered(code, 1) == Some(Make(Ret, 0, 0, 0));
  }

  lemma JumpOverReturnRuns(trusted: bool, f: Frame, g: Frame, w: World)
    requires f.code == JumpOverReturn() && f.returnType == g.returnType == AnyType
    requires g.code == [Make(Jmp, 1, 0, 0), Make(Ret, 0, 0, 0)]
    ensures Result(Activation(trusted, f), EntryState(1, [], w)) == Failed(PcEscaped, w)
    ensures Result(Activation(trusted, g), EntryState(1, [], w)) == Returned(NULL, w)
  {
    hide StepOf;
    var s := EntryState(1, [], w);
    BranchStep(trusted, f, s);
    BranchStep(trusted, g, s);
    ResultOfStep(Activation(trusted, f), s);
    NopStep(trusted, f, s.(pc := 2));
    ResultOfStep(Activation(trusted, f), s.(pc := 2));
    ResultOfStep(Activation(trusted, f), s.(pc := 3));
    ResultOfStep(Activation(trusted, g), s);
    ReturnStep(trusted, g, s.(pc := 1));
    ResultOfStep(Activation(trusted, g), s.(pc := 1));
  }
}
