/** Dead code elimination: code no path reaches becomes Nops. */
module Dce {
  import opened Int64
  import opened Bytecode
  import opened Machines
  import opened Interpreter
  import opened Runs
  import opened Verifier
  import opened TrustedMode
  import opened KnownValues
  import opened SccpAnalysis
  import opened Sccp
  import opened Passes

  // Contains the entry and everything control may pass to from inside.
  ghost predicate FlowClosed(code: seq<Instruction>, r: seq<bool>) {
    && |r| == |code| && (code != [] ==> r[0])
    && forall p, t :: 0 <= p < |code| && r[p] && 0 <= t < |code| && Flows(code, p, t) ==> r[t]
  }

  predicate Within(r: seq<bool>, r': seq<bool>) {
    |r| == |r'| && forall p :: 0 <= p < |r| && r[p] ==> r'[p]
  }

  ghost predicate ExactlyReachable(code: seq<Instruction>, r: seq<bool>) {
    FlowClosed(code, r) && forall r' :: FlowClosed(code, r') ==> Within(r, r')
  }

  // A path of the control-flow graph.
  ghost predicate IsPath(code: seq<Instruction>, path: seq<nat>) {
    && path != [] && path[0] == 0
    && (forall k :: 0 <= k < |path| ==> path[k] < |code|)
    && forall k :: 0 <= k < |path| - 1 ==> Flows(code, path[k], path[k + 1])
  }

  // Reachability is the existence of a path from the entry.
  lemma {:induction false} PathReached(code: seq<Instruction>, r: seq<bool>, path: seq<nat>, k: nat)
    requires FlowClosed(code, r) && IsPath(code, path) && k < |path|
    ensures r[path[k]]
    decreases k
  {
    if k > 0 {
      PathReached(code, r, path, k - 1);
      assert Flows(code, path[k - 1], path[k - 1 + 1]);
    }
  }

  ghost predicate HasPath(code: seq<Instruction>, p: nat) {
    exists path: seq<nat> :: IsPath(code, path) && path[|path| - 1] == p
  }

  lemma ReachableIffPath(code: seq<Instruction>, r: seq<bool>, p: nat)
    requires ExactlyReachable(code, r) && p < |code|
    ensures r[p] <==> HasPath(code, p)
  {
    if path: seq<nat> :| IsPath(code, path) && path[|path| - 1] == p {
      PathReached(code, r, path, |path| - 1);
    }
    var r' := seq(|code|, (k: int) => 0 <= k && HasPath(code, k));
    assert IsPath(code, [0]) && [0 as nat][|[0 as nat]| - 1] == 0;
    forall q, t | 0 <= q < |code| && r'[q] && 0 <= t < |code| && Flows(code, q, t) ensures r'[t] {
      var path: seq<nat> :| IsPath(code, path) && path[|path| - 1] == q;
      var longer: seq<nat> := path + [t];
      assert IsPath(code, longer) && longer[|longer| - 1] == t;
    }
    assert FlowClosed(code, r');
  }

  function Unreached(r: seq<bool>): nat {
    if r == [] then 0 else (if r[0] then 0 else 1) + Unreached(r[1..])
  }

  lemma {:induction false} ReachingLowers(r: seq<bool>, t: nat)
    requires t < |r| && !r[t]
    ensures Unreached(r[t := true]) == Unreached(r) - 1
    decreases t
  {
    if t > 0 {
      ReachingLowers(r[1..], t - 1);
      assert r[t := true][1..] == r[1..][t - 1 := true];
    } else {
      assert r[t := true][1..] == r[1..];
    }
  }

  // Marks a target and puts it on the worklist, unless it is outside or already marked.
  method PushIfValid(r: seq<bool>, worklist: seq<nat>, t: int) returns (r': seq<bool>, worklist': seq<nat>)
    ensures 0 <= t < |r| && !r[t] ==>
              r' == r[t := true] && worklist' == worklist + [t] && Unreached(r') == Unreached(r) - 1
    ensures !(0 <= t < |r| && !r[t]) ==> r' == r && worklist' == worklist
  {
    r', worklist' := r, worklist;
    if 0 <= t < |r| && !r[t] {
      ReachingLowers(r, t);
      r', worklist' := r[t := true], worklist + [t];
    }
  }

  // Everything marked is on the worklist, or is `pc`, or has its successors marked; and
  // nothing is marked that a closed set could do without.
  ghost predicate Visiting(code: seq<Instruction>, r: seq<bool>, worklist: seq<nat>, pc: int) {
    && |r| == |code| && code != [] && r[0]
    && (forall k :: 0 <= k < |worklist| ==> worklist[k] < |code| && r[worklist[k]])
    && (forall p, t :: 0 <= p < |code| && r[p] && p != pc && p !in worklist ==>
          0 <= t < |code| && Flows(code, p, t) ==> r[t])
    && (forall r' :: FlowClosed(code, r') ==> Within(r, r'))
  }

  lemma PushKeepsVisiting(
      code: seq<Instruction>, r: seq<bool>, worklist: seq<nat>, pc: nat, t: nat, r': seq<bool>, worklist': seq<nat>)
    requires Visiting(code, r, worklist, pc) && pc < |code| && r[pc] && t < |code| && Flows(code, pc, t) && !r[t]
    requires r' == r[t := true] && worklist' == worklist + [t]
    ensures Visiting(code, r', worklist', pc)
  {
    hide Flows;
    forall q | FlowClosed(code, q) ensures Within(r', q) {
      assert Within(r, q);
    }
    assert worklist'[|worklist|] == t;
    forall p, u | 0 <= p < |code| && r'[p] && p != pc && p !in worklist' && 0 <= u < |code| && Flows(code, p, u)
      ensures r'[u]
    {
      assert p != t && p !in worklist;
    }
  }

  method Visit(code: seq<Instruction>, r: seq<bool>, worklist: seq<nat>, pc: nat)
    returns (r': seq<bool>, worklist': seq<nat>)
    requires Visiting(code, r, worklist, pc) && pc < |code| && r[pc]
    ensures Visiting(code, r', worklist', -1)
    ensures Unreached(r') + |worklist'| == Unreached(r) + |worklist|
  {
    hide Visiting, FlowClosed, Within, Unreached, IsRelativeJump, JumpDelta, IsTerminator;
    assert |r| == |code| by { VisitingSize(code, r, worklist, pc); }
    var i := code[pc];
    r', worklist' := r, worklist;
    if IsRelativeJump(i.op) {
      r', worklist' := PushIfValid(r, worklist, pc + JumpDelta(i));
      if r' != r { PushKeepsVisiting(code, r, worklist, pc, pc + JumpDelta(i), r', worklist'); }
    }
    if i.op != Jmp && !IsTerminator(i.op) {
      var r1, w1 := r', worklist';
      r', worklist' := PushIfValid(r1, w1, pc + 1);
      if r' != r1 { PushKeepsVisiting(code, r1, w1, pc, pc + 1, r', worklist'); }
    }
    assert forall t :: 0 <= t < |code| && Flows(code, pc, t) ==> r'[t];
    Visited(code, r', worklist', pc);
  }

  lemma VisitingSize(code: seq<Instruction>, r: seq<bool>, worklist: seq<nat>, pc: int)
    requires Visiting(code, r, worklist, pc)
    ensures |r| == |code|
  {
  }

  lemma Visited(code: seq<Instruction>, r: seq<bool>, worklist: seq<nat>, pc: nat)
    requires Visiting(code, r, worklist, pc) && pc < |code|
    requires forall t :: 0 <= t < |code| && t < |r| && Flows(code, pc, t) ==> r[t]
    ensures Visiting(code, r, worklist, -1)
  {
    hide Flows;
  }

  method FindReachable(code: seq<Instruction>) returns (r: seq<bool>)
    requires code != []
    ensures ExactlyReachable(code, r)
  {
    hide Flows;
    r := seq(|code|, _ => false)[0 := true];
    var worklist: seq<nat> := [0];
    while worklist != []
      invariant Visiting(code, r, worklist, -1)
      decreases Unreached(r) + |worklist|
    {
      var pc := worklist[|worklist| - 1];
      assert worklist == worklist[..|worklist| - 1] + [pc];
      worklist := worklist[..|worklist| - 1];
      r, worklist := Visit(code, r, worklist, pc);
    }
  }

  // ---- The pass -----------------------------------------------------------------------------

  predicate Swept(r: seq<bool>, code: seq<Instruction>, code': seq<Instruction>) {
    && |r| == |code| == |code'|
    && forall p :: 0 <= p < |code| ==> code'[p] == if r[p] || code[p].op == Nop then code[p] else NOP
  }

  lemma SweptRun(trusted: bool, m: Module, fn: Function, f: Frame, f': Frame, r: seq<bool>, s: State)
    requires Carries(m, fn, f) && Recodes(f, f') && TryFree(f.code)
    requires FlowClosed(f.code, r) && Swept(r, f.code, f'.code)
    requires |s.regs| == fn.regCount && s.tries == [] && (0 <= s.pc < |f.code| ==> r[s.pc])
    ensures Result(Activation(trusted, f), s) == Result(Activation(trusted, f'), s)
  {
    var inv := (t: State) => |t.regs| == fn.regCount && t.tries == [] && (0 <= t.pc < |f.code| ==> r[t.pc]);
    forall t | inv(t) && InCode(f, t)
      ensures StepOf(trusted, f, t) == StepOf(trusted, f', t)
      ensures StepOf(trusted, f, t).Next? ==> inv(StepOf(trusted, f, t).s)
    {
      KeptStep(trusted, m, fn, f, f', t);
      StepAccounted(trusted, m, fn, f, t, AllUnknown(fn.regCount));
    }
    AgreeingResults(Activation(trusted, f), Activation(trusted, f'), inv, s);
  }

  lemma SweptFunction(trusted: bool, m: Module, m': Module, fi: nat, r: seq<bool>)
    requires Accepted(m) && Recoded(m, m', fi) && TryFree(m.functions[fi].Code())
    requires m'.functions[fi].regCount == m.functions[fi].regCount
    requires FlowClosed(m.functions[fi].Code(), r) && Swept(r, m.functions[fi].Code(), m'.functions[fi].Code())
    ensures SameFunction(trusted, m, m', fi)
  {
    var fn := m.functions[fi];
    assert FunctionOk(m, fn);
    forall closure, varargs, env, args, w
      ensures Result(Activation(trusted, FrameOf(m, fi, closure, varargs, env)), EntryState(fn.regCount, args, w))
           == Result(Activation(trusted, FrameOf(m', fi, closure, varargs, env)), EntryState(fn.regCount, args, w))
    {
      SweptRun(trusted, m, fn, FrameOf(m, fi, closure, varargs, env), FrameOf(m', fi, closure, varargs, env), r,
               EntryState(fn.regCount, args, w));
    }
  }

  lemma SweptOk(m: Module, m': Module, fi: nat, r: seq<bool>, code': seq<Instruction>)
    requires Accepted(m) && Recoded(m, m', fi) && m'.functions[fi].regCount == m.functions[fi].regCount
    requires Swept(r, m.functions[fi].Code(), code')
    ensures CodeOk(m', m'.functions[fi], code')
  {
    var fn := m.functions[fi];
    var code := fn.Code();
    assert FunctionOk(m, fn);
    forall pc | 0 <= pc < |code'| ensures InstructionOk(m', m'.functions[fi], code'[pc], pc, |code'|) {
      assert InstructionOk(m, fn, code[pc], pc, |code|);
      RecodedInstruction(m, m', fi, fn, code[pc], pc, |code|);
      SameSignatureOk(m', fn, m'.functions[fi], code[pc], pc, |code|);
    }
  }

  method Sweep(r: seq<bool>, code: seq<Instruction>) returns (code': seq<Instruction>, changed: bool)
    requires |r| == |code|
    ensures Swept(r, code, code') && (!changed ==> code' == code)
  {
    code', changed := code, false;
    for i := 0 to |code|
      invariant |code'| == |code| && (!changed ==> code' == code)
      invariant forall k :: i <= k < |code| ==> code'[k] == code[k]
      invariant forall k :: 0 <= k < i ==> code'[k] == if r[k] || code[k].op == Nop then code[k] else NOP
    {
      if !r[i] && code[i].op != Nop {
        code' := code'[i := NOP];
        changed := true;
      }
    }
  }

  // Code with handlers is left alone; otherwise exactly the unreachable instructions go, and
  // no run changes.
  method RunDcePass(ws: Workspace, fi: nat) returns (changed: bool)
    requires ws.Valid() && Accepted(ws.View()) && fi < |ws.functions|
    modifies ws`functions
    ensures ws.Valid() && Accepted(ws.View()) && Recoded(old(ws.View()), ws.View(), fi)
    ensures ws.functions[fi].regCount == old(ws.functions)[fi].regCount
    ensures !TryFree(old(ws.functions)[fi].Code()) ==> ws.functions == old(ws.functions)
    ensures TryFree(old(ws.functions)[fi].Code()) ==>
              exists r :: && ExactlyReachable(old(ws.functions)[fi].Code(), r)
                          && Swept(r, old(ws.functions)[fi].Code(), ws.functions[fi].Code())
    ensures forall trusted :: SameFunction(trusted, old(ws.View()), ws.View(), fi)
  {
    hide Accepted, TryFree, Swept, SameFunction, Flows;
    ghost var m := ws.View();
    AcceptedFunction(m, fi);
    var code := ws.functions[fi].Code();
    changed := false;
    if !TryFree(code) {
      forall trusted ensures SameFunction(trusted, m, ws.View(), fi) { SameCode(trusted, m, ws.View(), fi); }
      return;
    }
    var r := FindReachable(code);
    code, changed := Sweep(r, code);
    if changed { ws.Install(fi, code); }
    SweptOk(m, ws.View(), fi, r, code);
    RecodedAccepted(m, ws.View(), fi);
    forall trusted ensures SameFunction(trusted, m, ws.View(), fi) {
      SweptFunction(trusted, m, ws.View(), fi, r);
    }
  }
}
