/** Sparse conditional constant propagation: the worklist analysis, proved to compute the
    least solution of its flow equations within a bounded number of pushes. */
module SccpAnalysis {
  import opened Int64
  import opened Bytecode
  import opened Interpreter
  import opened KnownValues

  type RegState = seq<Known>

  function AllUnknown(n: nat): (st: RegState)
    ensures |st| == n
  {
    seq(n, _ => Anything)
  }

  function ReadReg(st: RegState, r: U32): Known { if r < |st| then st[r] else Anything }

  function SetReg(st: RegState, r: int, k: Known): RegState { if 0 <= r < |st| then st[r := k] else st }

  function ForgetRange(st: RegState, base: U32, count: nat): (r: RegState)
    ensures |r| == |st|
    ensures forall k :: 0 <= k < |st| ==> r[k] == st[k] || r[k] == Anything
    ensures forall k :: 0 <= k < count && AddU32(base, k) < |st| ==> r[AddU32(base, k)] == Anything
  {
    if count == 0 then st else SetReg(ForgetRange(st, base, count - 1), AddU32(base, count - 1), Anything)
  }

  // The knowledge after an instruction.
  function Transfer(constants: seq<Constant>, i: Instruction, st: RegState): (r: RegState)
    ensures |r| == |st|
  {
    if IsCompute(i.op) then
      SetReg(st, i.a, AbsCompute(i, ReadReg(st, Operand1(i)), ReadReg(st, Operand2(i))))
    else
      match i.op
      case LoadK => SetReg(st, i.a, AbsLoadK(constants, i.b))
      case DecJnz =>
        var x := ReadReg(st, i.a);
        SetReg(st, i.a, if x.KnownInt? then KnownInt(Int64.Sub(x.v, 1)) else Anything)
      case AddDecJnz =>
        var x, y := ReadReg(st, i.a), ReadReg(st, i.b);
        if x.KnownInt? && y.KnownInt? then
          SetReg(SetReg(st, i.a, KnownInt(Int64.Add(x.v, y.v))), i.b, KnownInt(Int64.Sub(y.v, 1)))
        else SetReg(SetReg(st, i.a, Anything), i.b, Anything)
      case SubImmJnz | AddImmJnz =>
        var x := ReadReg(st, i.a);
        SetReg(st, i.a, if x.KnownInt? then KnownInt(CountedBy(i, x.v)) else Anything)
      case Call | CallClosure | FfiCall | Closure | GetUpval | StrLen | StrConcat | NewObject | Invoke =>
        SetReg(st, i.a, Anything)
      case VarArg => ForgetRange(st, i.a, i.c)
      case _ => st
  }

  function CountedBy(i: Instruction, x: I64): I64 {
    if i.op == SubImmJnz then Int64.Sub(x, SignedU32(i.b)) else Int64.Add(x, SignedU32(i.b))
  }

  // Whether a conditional jump is known to be taken.
  function Decision(i: Instruction, st: RegState): Option<bool> {
    var x := ReadReg(st, i.a);
    match i.op
    case JmpIf => if x.Anything? then None else Some(KnownTruthy(x))
    case JmpIfZero => if x.KnownInt? then Some(x.v == 0) else None
    case JmpIfNotZero => if x.KnownInt? then Some(x.v != 0) else None
    case DecJnz => if x.KnownInt? then Some(Int64.Sub(x.v, 1) != 0) else None
    case AddDecJnz =>
      var y := ReadReg(st, i.b);
      if x.KnownInt? && y.KnownInt? then Some(Int64.Sub(y.v, 1) != 0) else None
    case SubImmJnz | AddImmJnz => if x.KnownInt? then Some(CountedBy(i, x.v) != 0) else None
    case _ => None
  }

  // Control may pass from `pc` to `t` when the registers are known to be in `st`.
  predicate MayPass(code: seq<Instruction>, pc: nat, st: RegState, t: int)
    requires pc < |code|
  {
    && 0 <= t < |code| && Flows(code, pc, t)
    && var d := Decision(code[pc], st);
       d.None? || (d.value && t == pc + JumpDelta(code[pc])) || (!d.value && t == pc + 1)
  }

  lemma DecidedJump(i: Instruction, st: RegState)
    ensures Decision(i, st).Some? ==> IsRelativeJump(i.op) && i.op != Jmp
  {
  }

  // The ways out that the transfer of a pc takes.
  lemma PassesOn(code: seq<Instruction>, pc: nat, st: RegState)
    requires pc < |code|
    ensures forall t ::
              MayPass(code, pc, st, t) <==>
                && 0 <= t < |code|
                && var i, d := code[pc], Decision(code[pc], st);
                   || (t == pc + JumpDelta(i) && IsRelativeJump(i.op) && (d.None? || d.value))
                   || (t == pc + 1 && i.op != Jmp && !IsTerminator(i.op) && (d.None? || !d.value))
  {
    hide JumpDelta;
  }

  // ---- Solutions -----------------------------------------------------------------------------

  datatype Analysis = Analysis(reachable: seq<bool>, states: seq<RegState>)

  // `y` says no more than `x`.
  predicate Vaguer(x: RegState, y: RegState) {
    |x| == |y| && forall r :: 0 <= r < |x| ==> y[r] == Anything || y[r] == x[r]
  }

  predicate Shaped(a: Analysis, size: nat, regCount: nat) {
    && |a.reachable| == size && |a.states| == size
    && forall pc :: 0 <= pc < size ==> |a.states[pc]| == regCount
  }

  predicate Covers(a: Analysis, t: int, st: RegState) {
    0 <= t < |a.reachable| && t < |a.states| && a.reachable[t] && Vaguer(st, a.states[t])
  }

  // Everything that may follow `pc` is accounted for.
  ghost predicate Closed(code: seq<Instruction>, constants: seq<Constant>, a: Analysis, pc: nat)
    requires pc < |code| && pc < |a.states|
  {
    forall t :: MayPass(code, pc, a.states[pc], t) ==> Covers(a, t, Transfer(constants, code[pc], a.states[pc]))
  }

  ghost predicate Solution(code: seq<Instruction>, constants: seq<Constant>, regCount: nat, a: Analysis) {
    && Shaped(a, |code|, regCount)
    && (code != [] ==> Covers(a, 0, AllUnknown(regCount)))
    && forall pc :: 0 <= pc < |code| && a.reachable[pc] ==> Closed(code, constants, a, pc)
  }

  // `a` reaches no more than `b` and knows at least as much.
  ghost predicate AtMost(a: Analysis, b: Analysis) {
    && |a.reachable| == |b.reachable| == |a.states| == |b.states|
    && forall pc :: 0 <= pc < |a.reachable| && a.reachable[pc] ==> Covers(b, pc, a.states[pc])
  }

  ghost predicate LeastSolution(code: seq<Instruction>, constants: seq<Constant>, regCount: nat, a: Analysis) {
    && Solution(code, constants, regCount, a)
    && forall b :: Solution(code, constants, regCount, b) ==> AtMost(a, b)
  }

  predicate VaguerKnown(x: Known, y: Known) { y.Anything? || y == x }

  lemma ComputeMonotone(i: Instruction, x: Known, y: Known, x': Known, y': Known)
    requires IsCompute(i.op) && VaguerKnown(x, x') && VaguerKnown(y, y')
    ensures VaguerKnown(AbsCompute(i, x, y), AbsCompute(i, x', y'))
  {
  }

  lemma DecisionMonotone(i: Instruction, x: RegState, y: RegState)
    requires Vaguer(x, y)
    ensures Decision(i, y).None? || Decision(i, y) == Decision(i, x)
  {
  }

  lemma TransferMonotone(constants: seq<Constant>, i: Instruction, x: RegState, y: RegState)
    requires Vaguer(x, y)
    ensures Vaguer(Transfer(constants, i, x), Transfer(constants, i, y))
  {
    hide AbsCompute, Operand1, Operand2;
    if i.op == VarArg {
      ForgetMonotone(x, y, i.a, i.c);
      hide IsCompute;
    } else if IsCompute(i.op) {
      ComputeMonotone(i, ReadReg(x, Operand1(i)), ReadReg(x, Operand2(i)),
                      ReadReg(y, Operand1(i)), ReadReg(y, Operand2(i)));
      hide IsCompute;
    }
  }

  // More knowledge before an instruction gives more knowledge and fewer ways out after it.
  lemma Monotone(code: seq<Instruction>, constants: seq<Constant>, pc: nat, x: RegState, y: RegState, t: int)
    requires pc < |code| && Vaguer(x, y)
    ensures Vaguer(Transfer(constants, code[pc], x), Transfer(constants, code[pc], y))
    ensures MayPass(code, pc, x, t) ==> MayPass(code, pc, y, t)
  {
    hide Transfer, Decision, Vaguer;
    TransferMonotone(constants, code[pc], x, y);
    DecisionMonotone(code[pc], x, y);
  }

  lemma {:induction false} ForgetMonotone(x: RegState, y: RegState, base: U32, count: nat)
    requires Vaguer(x, y)
    ensures Vaguer(ForgetRange(x, base, count), ForgetRange(y, base, count))
    decreases count
  {
    if count > 0 { ForgetMonotone(x, y, base, count - 1); }
  }

  // ---- Merging -------------------------------------------------------------------------------

  function MergeKnown(x: Known, y: Known): Known {
    if x.Anything? || y.Anything? then Anything else if x == y then x else Anything
  }

  function MergeStates(x: RegState, y: RegState): RegState
    requires |x| == |y|
  {
    seq(|x|, r requires 0 <= r < |x| => MergeKnown(x[r], y[r]))
  }

  lemma MergeIsJoin(x: RegState, y: RegState, z: RegState)
    requires |x| == |y| == |z|
    ensures Vaguer(x, MergeStates(x, y)) && Vaguer(y, MergeStates(x, y))
    ensures Vaguer(x, z) && Vaguer(y, z) ==> Vaguer(MergeStates(x, y), z)
  {
  }

  // What remains to be learnt or forgotten at one pc: one for reaching it, then one for
  // every register still known.
  function KnownCount(st: RegState): (k: nat)
    ensures k <= |st|
  {
    if st == [] then 0 else (if st[0].Anything? then 0 else 1) + KnownCount(st[1..])
  }

  function Weight(reached: bool, st: RegState): nat { if reached then KnownCount(st) else |st| + 1 }

  function Total(reachable: seq<bool>, states: seq<RegState>): nat
    requires |reachable| == |states|
  {
    if reachable == [] then 0 else Weight(reachable[0], states[0]) + Total(reachable[1..], states[1..])
  }

  lemma {:induction false} TotalUpdate(reachable: seq<bool>, states: seq<RegState>, t: nat, b: bool, st: RegState)
    requires t < |reachable| == |states|
    ensures Total(reachable[t := b], states[t := st]) + Weight(reachable[t], states[t])
         == Total(reachable, states) + Weight(b, st)
    decreases t
  {
    if t > 0 {
      TotalUpdate(reachable[1..], states[1..], t - 1, b, st);
      assert reachable[t := b][1..] == reachable[1..][t - 1 := b];
      assert states[t := st][1..] == states[1..][t - 1 := st];
    } else {
      assert reachable[t := b][1..] == reachable[1..];
      assert states[t := st][1..] == states[1..];
    }
  }

  lemma {:induction false} ForgettingLowers(x: RegState, y: RegState)
    requires Vaguer(x, y)
    ensures KnownCount(y) <= KnownCount(x)
    ensures x != y ==> KnownCount(y) < KnownCount(x)
  {
    if x != [] {
      ForgettingLowers(x[1..], y[1..]);
      assert x == [x[0]] + x[1..] && y == [y[0]] + y[1..];
    }
  }

  lemma {:induction false} InitialTotal(reachable: seq<bool>, states: seq<RegState>, n: nat)
    requires |reachable| == |states|
    requires forall k :: 0 <= k < |states| ==> |states[k]| == n
    ensures Total(reachable, states) <= |reachable| * (n + 1)
  {
    if reachable != [] {
      InitialTotal(reachable[1..], states[1..], n);
      assert |reachable| * (n + 1) == (|reachable| - 1) * (n + 1) + (n + 1);
    }
  }

  // ---- The worklist --------------------------------------------------------------------------

  // The state after `incoming` has flowed into `t`.
  function Merged(a: Analysis, t: nat, incoming: RegState): RegState
    requires Shaped(a, |a.reachable|, |incoming|) && t < |a.reachable|
  {
    if a.reachable[t] then MergeStates(a.states[t], incoming) else incoming
  }

  method MergeInto(a: Analysis, worklist: seq<nat>, t: int, incoming: RegState)
    returns (a': Analysis, worklist': seq<nat>)
    requires Shaped(a, |a.reachable|, |incoming|)
    ensures Shaped(a', |a.reachable|, |incoming|)
    ensures !(0 <= t < |a.reachable|) ==> a' == a && worklist' == worklist
    ensures 0 <= t < |a.reachable| ==>
              && a' == Analysis(a.reachable[t := true], a.states[t := Merged(a, t, incoming)])
              && worklist' == if a' == a then worklist else worklist + [t]
  {
    if !(0 <= t < |a.reachable|) { return a, worklist; }
    var changed := false;
    var states := a.states;
    if !a.reachable[t] {
      states := states[t := incoming];
      changed := true;
    } else {
      var n := |incoming|;
      for r := 0 to n
        invariant |states| == |a.states| && forall k :: 0 <= k < |states| && k != t ==> states[k] == a.states[k]
        invariant |states[t]| == n
        invariant forall k :: 0 <= k < r ==> states[t][k] == MergeKnown(a.states[t][k], incoming[k])
        invariant forall k :: r <= k < n ==> states[t][k] == a.states[t][k]
        invariant changed <==> states[t] != a.states[t]
      {
        ghost var before := states[t];
        var merged := MergeKnown(states[t][r], incoming[r]);
        if merged != states[t][r] {
          states := states[t := states[t][r := merged]];
          changed := true;
          assert states[t][r] != a.states[t][r];
        }
        assert merged == states[t][r];
      }
      assert states[t] == MergeStates(a.states[t], incoming);
    }
    a' := Analysis(a.reachable[t := true], states);
    assert states == a.states[t := states[t]];
    assert a.reachable[t] ==> a.reachable[t := true] == a.reachable;
    assert changed <==> a' != a;
    worklist' := if changed then worklist + [t] else worklist;
  }

  // Merging covers the new flow, loses none of the old, and pays for each push.
  lemma MergeProgress(a: Analysis, t: nat, incoming: RegState, a': Analysis)
    requires Shaped(a, |a.reachable|, |incoming|) && t < |a.reachable|
    requires a' == Analysis(a.reachable[t := true], a.states[t := Merged(a, t, incoming)])
    ensures Covers(a', t, incoming)
    ensures forall u, st :: Covers(a, u, st) ==> Covers(a', u, st)
    ensures a' != a ==> Total(a'.reachable, a'.states) < Total(a.reachable, a.states)
  {
    if a.reachable[t] { MergeIsJoin(a.states[t], incoming, a.states[t]); }
    forall u, st | Covers(a, u, st) ensures Covers(a', u, st) {
    }
    TotalUpdate(a.reachable, a.states, t, true, a'.states[t]);
    if a' != a {
      if a.reachable[t] {
        assert a.reachable[t := true] == a.reachable;
        assert a.states[t := a.states[t]] == a.states;
        ForgettingLowers(a.states[t], a'.states[t]);
      }
    }
  }

  lemma MergeStaysLeast(
      code: seq<Instruction>, constants: seq<Constant>, regCount: nat, a: Analysis, a': Analysis,
      pc: nat, st: RegState, t: int, b: Analysis)
    requires Shaped(a, |code|, regCount) && pc < |code| && |st| == regCount
    requires MayPass(code, pc, st, t)
    requires a' == Analysis(a.reachable[t := true],
                            a.states[t := Merged(a, t, Transfer(constants, code[pc], st))])
    requires Solution(code, constants, regCount, b) && AtMost(a, b) && Covers(b, pc, st)
    ensures AtMost(a', b)
  {
    Monotone(code, constants, pc, st, b.states[pc], t);
    assert Covers(b, t, Transfer(constants, code[pc], b.states[pc]));
    var incoming := Transfer(constants, code[pc], st);
    if a.reachable[t] { MergeIsJoin(a.states[t], incoming, b.states[t]); }
    assert Covers(b, t, a'.states[t]);
  }

  // The loop invariant while `pc`, whose registers are known to be in `st`, is processed:
  // everything reached is closed, waiting, or `pc` itself; and no solution does with less.
  ghost predicate Processing(
      code: seq<Instruction>, constants: seq<Constant>, regCount: nat, a: Analysis, worklist: seq<nat>,
      pc: nat, st: RegState)
  {
    && Shaped(a, |code|, regCount) && |st| == regCount && pc < |code|
    && Covers(a, 0, AllUnknown(regCount))
    && (forall k :: 0 <= k < |worklist| ==> worklist[k] < |code|)
    && a.reachable[pc] && (pc in worklist || a.states[pc] == st)
    && (forall p :: 0 <= p < |code| && a.reachable[p] && p != pc && p !in worklist ==> Closed(code, constants, a, p))
    && (forall b :: Solution(code, constants, regCount, b) ==> AtMost(a, b) && Covers(b, pc, st))
  }

  lemma ProcessedFlow(
      code: seq<Instruction>, constants: seq<Constant>, regCount: nat, a: Analysis, worklist: seq<nat>,
      pc: nat, st: RegState, t: nat, a': Analysis, worklist': seq<nat>)
    requires Processing(code, constants, regCount, a, worklist, pc, st) && MayPass(code, pc, st, t)
    requires a' == Analysis(a.reachable[t := true],
                            a.states[t := Merged(a, t, Transfer(constants, code[pc], st))])
    requires worklist' == if a' == a then worklist else worklist + [t]
    ensures Processing(code, constants, regCount, a', worklist', pc, st)
    ensures Covers(a', t, Transfer(constants, code[pc], st))
    ensures forall u, s :: Covers(a, u, s) ==> Covers(a', u, s)
    ensures Total(a'.reachable, a'.states) + |worklist'| <= Total(a.reachable, a.states) + |worklist|
    ensures a' != a ==> Total(a'.reachable, a'.states) < Total(a.reachable, a.states)
  {
    var incoming := Transfer(constants, code[pc], st);
    MergeProgress(a, t, incoming, a');
    forall b | Solution(code, constants, regCount, b) ensures AtMost(a', b) {
      MergeStaysLeast(code, constants, regCount, a, a', pc, st, t, b);
    }
    forall p | 0 <= p < |code| && a'.reachable[p] && p != pc && p !in worklist'
      ensures Closed(code, constants, a', p)
    {
      if a' != a { assert worklist'[|worklist|] == t; }
      assert a'.states[p] == a.states[p] && a.reachable[p];
      forall k | 0 <= k < |worklist| ensures worklist[k] != p {
        assert worklist'[k] == worklist[k];
      }
      assert Closed(code, constants, a, p);
    }
    assert pc in worklist ==> pc in worklist';
    if a' != a && t == pc { assert worklist'[|worklist|] == pc; }
  }

  function Initial(size: nat, regCount: nat): (a: Analysis)
    requires size > 0
    ensures Shaped(a, size, regCount)
  {
    Analysis(seq(size, _ => false)[0 := true], seq(size, _ => AllUnknown(regCount)))
  }

  lemma InitialFacts(code: seq<Instruction>, constants: seq<Constant>, regCount: nat)
    requires code != []
    ensures var a := Initial(|code|, regCount);
            && Covers(a, 0, AllUnknown(regCount))
            && Total(a.reachable, a.states) <= |code| * (regCount + 1)
            && (forall p :: 0 <= p < |code| && a.reachable[p] ==> p == 0)
            && (forall b :: Solution(code, constants, regCount, b) ==> AtMost(a, b))
  {
    var a := Initial(|code|, regCount);
    InitialTotal(a.reachable, a.states, regCount);
  }

  // One of the merges of a pop: into a pc that control may pass to, or into none.
  method MergeFlow(
      code: seq<Instruction>, constants: seq<Constant>, ghost regCount: nat, a: Analysis, worklist: seq<nat>,
      ghost pc: nat, ghost st: RegState, t: int, out: RegState)
    returns (a': Analysis, worklist': seq<nat>)
    requires Processing(code, constants, regCount, a, worklist, pc, st)
    requires pc < |code| && out == Transfer(constants, code[pc], st)
    requires 0 <= t < |code| ==> MayPass(code, pc, st, t)
    ensures Processing(code, constants, regCount, a', worklist', pc, st)
    ensures 0 <= t < |code| ==> Covers(a', t, out)
    ensures forall u, s :: Covers(a, u, s) ==> Covers(a', u, s)
    ensures |worklist| <= |worklist'|
    ensures Total(a'.reachable, a'.states) + |worklist'| <= Total(a.reachable, a.states) + |worklist|
  {
    hide Transfer, Total, Merged, Covers, MayPass, Processing;
    ProcessingMeans(code, constants, regCount, a, worklist, pc, st);
    a', worklist' := MergeInto(a, worklist, t, out);
    if 0 <= t < |code| { ProcessedFlow(code, constants, regCount, a, worklist, pc, st, t, a', worklist'); }
  }

  lemma ProcessingMeans(
      code: seq<Instruction>, constants: seq<Constant>, regCount: nat, a: Analysis, worklist: seq<nat>,
      pc: nat, st: RegState)
    requires Processing(code, constants, regCount, a, worklist, pc, st)
    ensures Shaped(a, |code|, regCount) && |st| == regCount && pc < |code| && (pc in worklist || a.states[pc] == st)
  {
    hide Covers, Closed, Solution, AtMost;
  }

  lemma ClosedIf(code: seq<Instruction>, constants: seq<Constant>, a: Analysis, pc: nat)
    requires pc < |code| && pc < |a.states|
    requires forall t :: MayPass(code, pc, a.states[pc], t) ==>
               Covers(a, t, Transfer(constants, code[pc], a.states[pc]))
    ensures Closed(code, constants, a, pc)
  {
    hide MayPass, Covers, Transfer;
  }

  // One pop of the worklist: lets the knowledge before `pc` flow to wherever control may go.
  method Propagate(
      code: seq<Instruction>, constants: seq<Constant>, regCount: nat, a: Analysis, worklist: seq<nat>, pc: nat)
    returns (a': Analysis, worklist': seq<nat>)
    requires pc < |code| && pc < |a.states|
    requires Processing(code, constants, regCount, a, worklist, pc, a.states[pc])
    ensures Processing(code, constants, regCount, a', worklist', pc, a.states[pc])
    ensures pc in worklist' || Closed(code, constants, a', pc)
    ensures |worklist'| >= |worklist|
    ensures Total(a'.reachable, a'.states) + |worklist'| <= Total(a.reachable, a.states) + |worklist|
  {
    hide Transfer, Decision, Total, Covers, IsRelativeJump, IsTerminator, JumpDelta, MayPass, Processing, Closed;
    ProcessingMeans(code, constants, regCount, a, worklist, pc, a.states[pc]);
    PassesOn(code, pc, a.states[pc]);
    a', worklist' := a, worklist;
    var i, st := code[pc], a.states[pc];
    var out, decision := Transfer(constants, i, st), Decision(i, st);
    var target := pc + JumpDelta(i);
    if IsRelativeJump(i.op) && (decision.None? || decision.value) {
      a', worklist' := MergeFlow(code, constants, regCount, a', worklist', pc, st, target, out);
    }
    if i.op != Jmp && !IsTerminator(i.op) && (decision.None? || !decision.value) {
      a', worklist' := MergeFlow(code, constants, regCount, a', worklist', pc, st, pc + 1, out);
    }
    ProcessingMeans(code, constants, regCount, a', worklist', pc, st);
    if pc !in worklist' { ClosedIf(code, constants, a', pc); }
  }

  method Analyze(code: seq<Instruction>, constants: seq<Constant>, regCount: nat)
    returns (a: Analysis, ghost pushes: nat)
    requires code != []
    ensures LeastSolution(code, constants, regCount, a)
    ensures pushes <= |code| * (regCount + 1) + 1
  {
    hide Transfer, Decision, Merged, Vaguer, Closed, MayPass;
    a := Initial(|code|, regCount);
    var worklist: seq<nat> := [0];
    pushes := 1;
    InitialFacts(code, constants, regCount);
    while worklist != []
      invariant Shaped(a, |code|, regCount)
      invariant Covers(a, 0, AllUnknown(regCount))
      invariant forall k :: 0 <= k < |worklist| ==> worklist[k] < |code|
      invariant forall p :: 0 <= p < |code| && a.reachable[p] && p !in worklist ==> Closed(code, constants, a, p)
      invariant forall b :: Solution(code, constants, regCount, b) ==> AtMost(a, b)
      invariant pushes + Total(a.reachable, a.states) <= |code| * (regCount + 1) + 1
      decreases Total(a.reachable, a.states) + |worklist|
    {
      var pc := worklist[|worklist| - 1];
      ghost var waiting := worklist;
      worklist := worklist[..|worklist| - 1];
      assert waiting == worklist + [pc];
      if !a.reachable[pc] { continue; }
      assert Processing(code, constants, regCount, a, worklist, pc, a.states[pc]);
      ghost var popped := |worklist|;
      a, worklist := Propagate(code, constants, regCount, a, worklist, pc);
      pushes := pushes + (|worklist| - popped);
    }
  }
}
