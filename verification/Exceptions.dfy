/** The try/catch/finally machine inside the interpreter, on every run of any bytecode,
    verified or not. */
module Exceptions {
  import opened Int64
  import opened Bytecode
  import opened Machines
  import opened Interpreter
  import opened Steps
  import opened Runs

  // ---- One try frame -------------------------------------------------------------------------

  // A frame protects its block, then runs its catch, then its finally: never two at a time,
  // and it rethrows only out of a finally, and only what it was given.
  predicate FrameDisciplined(t: TryFrame) {
    && !(t.inCatch && t.inFinally)
    && (t.inCatch ==> t.catchTarget != INVALID_TRY_TARGET && t.pending.Some? && !t.rethrow)
    && (t.inFinally ==> t.finallyTarget != INVALID_TRY_TARGET)
    && (t.rethrow ==> t.inFinally)
    && (t.inFinally ==> (t.rethrow <==> t.pending.Some?))
    && (!t.inCatch && !t.inFinally ==> t.pending.None?)
  }

  ghost predicate Disciplined(tries: seq<TryFrame>) {
    forall k :: 0 <= k < |tries| ==> FrameDisciplined(tries[k])
  }

  function Rank(t: TryFrame): (r: nat)
    ensures r <= 2
  {
    if t.inFinally then 2 else if t.inCatch then 1 else 0
  }

  predicate SameTargets(t: TryFrame, t': TryFrame) {
    t'.catchTarget == t.catchTarget && t'.finallyTarget == t.finallyTarget && t'.endTarget == t.endTarget
  }

  // Frames that stay on the stack keep their targets and only move on.
  ghost predicate Advanced(tries: seq<TryFrame>, tries': seq<TryFrame>) {
    forall k :: 0 <= k < |tries| && k < |tries'| ==>
      SameTargets(tries[k], tries'[k]) && Rank(tries[k]) <= Rank(tries'[k])
  }

  // ---- Unwinding ---------------------------------------------------------------------------------

  predicate CanCatch(t: TryFrame) { Rank(t) == 0 && t.catchTarget != INVALID_TRY_TARGET }

  predicate OwesFinally(t: TryFrame) { Rank(t) < 2 && t.finallyTarget != INVALID_TRY_TARGET }

  // Where and how a frame takes an exception; a catch is preferred to a finally.
  function Taken(t: TryFrame, fault: Fault): TryFrame {
    if CanCatch(t) then t.(inCatch := true, pending := Some(fault), rethrow := false)
    else t.(inCatch := false, inFinally := true, pending := Some(fault), rethrow := true)
  }

  function Entry(t: TryFrame): U32 { if CanCatch(t) then t.catchTarget else t.finallyTarget }

  // The topmost frame takes the exception or is discarded.
  lemma UnwindOnce(fault: Fault, s: State)
    ensures Unwind(fault, s) ==
              if s.tries == [] then None
              else
                var k := |s.tries| - 1;
                var t := s.tries[k];
                if CanCatch(t) || OwesFinally(t)
                then Some(s.(pc := Entry(t), tries := s.tries[..k] + [Taken(t, fault)]))
                else Unwind(fault, s.(tries := s.tries[..k]))
  {
    if s.tries != [] {
      var k := |s.tries| - 1;
      assert s.tries[k := Taken(s.tries[k], fault)] == s.tries[..k] + [Taken(s.tries[k], fault)];
    }
  }

  // Unwinding stops at the topmost frame that can still catch or still owes its finally, and
  // discards only frames that can do neither.
  lemma {:induction false} UnwindExact(fault: Fault, s: State)
    ensures Unwind(fault, s).None? <==>
              forall k :: 0 <= k < |s.tries| ==> !CanCatch(s.tries[k]) && !OwesFinally(s.tries[k])
    ensures Unwind(fault, s).Some? ==>
              var h := Unwind(fault, s).value;
              && h.tries != [] && |h.tries| <= |s.tries|
              && var k := |h.tries| - 1;
                 && (CanCatch(s.tries[k]) || OwesFinally(s.tries[k]))
                 && (forall j :: k < j < |s.tries| ==> !CanCatch(s.tries[j]) && !OwesFinally(s.tries[j]))
                 && h == s.(pc := Entry(s.tries[k]), tries := s.tries[..k] + [Taken(s.tries[k], fault)])
    decreases |s.tries|
  {
    UnwindOnce(fault, s);
    hide *;
    if s.tries != [] {
      var k := |s.tries| - 1;
      if !CanCatch(s.tries[k]) && !OwesFinally(s.tries[k]) {
        UnwindExact(fault, s.(tries := s.tries[..k]));
        if Unwind(fault, s).Some? {
          var j := |Unwind(fault, s).value.tries| - 1;
          assert s.tries[..k][..j] == s.tries[..j];
        }
      }
    }
  }

  // ---- One step ---------------------------------------------------------------------------------

  // What an instruction may do to the try stack before any handler is looked for.
  ghost predicate Orderly(e: Effect, s: State) {
    match e
    case Go(t) => Disciplined(t.tries) && Advanced(s.tries, t.tries)
    case Raise(_, t) => Disciplined(t.tries) && Advanced(s.tries, t.tries) && |t.tries| <= |s.tries|
    case Stop(_) => true
  }

  lemma TryOrderly(size: nat, i: Instruction, s: State)
    requires IsTryOpcode(i.op) && Disciplined(s.tries)
    ensures Orderly(ExecTry(size, i, s), s)
  {
  }

  lemma ExecOrderly(trusted: bool, f: Frame, s: State)
    requires InCode(f, s) && Disciplined(s.tries)
    ensures Orderly(Exec(trusted, f, s), s)
  {
    hide ExecTry, ExecCompute, ExecBranch, ExecCall, ExecForeign, ExecVarArg, ExecString, ExecLoadK, ExecEnd;
    if IsTryOpcode(f.code[s.pc].op) {
      TryOrderly(|f.code|, f.code[s.pc], s);
    } else {
      ExecKeepsTries(trusted, f, s);
    }
  }

  // The discipline is kept by every step of any code.
  lemma StepDisciplined(trusted: bool, f: Frame, s: State)
    requires InCode(f, s) && Disciplined(s.tries)
    ensures StepOf(trusted, f, s).Next? ==>
              Disciplined(StepOf(trusted, f, s).s.tries) && Advanced(s.tries, StepOf(trusted, f, s).s.tries)
  {
    hide Exec;
    ExecOrderly(trusted, f, s);
    var e := Exec(trusted, f, s);
    if e.Raise? { UnwindExact(e.fault, e.s); }
  }

  // A frame in its finally takes nothing.
  lemma UnwindSpares(fault: Fault, s: State, k: nat)
    requires k < |s.tries| && s.tries[k].inFinally && Unwind(fault, s).Some?
    ensures var h := Unwind(fault, s).value; k < |h.tries| ==> h.tries[k] == s.tries[k]
  {
    UnwindExact(fault, s);
    hide Unwind;
  }

  // What the try instructions do to a frame that owes an exception, before any handler is
  // looked for.
  lemma OwedByTry(size: nat, i: Instruction, s: State, k: nat)
    requires IsTryOpcode(i.op) && Disciplined(s.tries) && k < |s.tries| && s.tries[k].rethrow
    ensures var e := ExecTry(size, i, s);
            var last := k == |s.tries| - 1;
            && !e.Stop?
            && (last && (i.op == TryEnd || i.op == EndCatch) ==>
                  && e.Go? && e.s.tries == s.tries[k := s.tries[k].(rethrow := false, pending := None)]
                  && e.s.pc == s.tries[k].finallyTarget)
            && (last && i.op == EndFinally ==>
                  e.Raise? && |e.s.tries| <= k && e.fault == s.tries[k].pending.value)
            && (!last || i.op == TryBegin ==> k < |e.s.tries| && e.s.tries[k] == s.tries[k])
  {
  }

  // What becomes of the exception frame `k` owes.  While the frame stays so does the exception,
  // unless a block is left again: that runs the finally a second time and forgets it.  When the
  // frame goes the exception is raised at the end of the finally, or gives way to another one.
  lemma OwedException(trusted: bool, f: Frame, s: State, k: nat)
    requires InCode(f, s) && Disciplined(s.tries) && k < |s.tries| && s.tries[k].rethrow
    requires StepOf(trusted, f, s).Next?
    ensures var t, op := StepOf(trusted, f, s).s, f.code[s.pc].op;
            var leaves := k == |s.tries| - 1 && (op == TryEnd || op == EndCatch);
            && (leaves ==> t.tries == s.tries[k := s.tries[k].(rethrow := false, pending := None)]
                           && t.pc == s.tries[k].finallyTarget)
            && (k < |t.tries| && !leaves ==> t.tries[k] == s.tries[k])
            && (|t.tries| <= k ==> Exec(trusted, f, s).Raise?)
            && (k == |s.tries| - 1 && op == EndFinally ==>
                  |t.tries| <= k && Exec(trusted, f, s).fault == s.tries[k].pending.value)
  {
    var i, e := f.code[s.pc], Exec(trusted, f, s);
    StepIs(trusted, f, s);
    assert s.tries[k].inFinally;
    if IsTryOpcode(i.op) {
      TryExec(trusted, f, s);
      OwedByTry(|f.code|, i, s, k);
    } else {
      ExecKeepsTries(trusted, f, s);
    }
    if e.Raise? && k < |e.s.tries| { UnwindSpares(e.fault, e.s, k); }
    if e.Raise? { UnwindExact(e.fault, e.s); }
    hide Exec, ExecTry, Unwind, StepOf, Disciplined, CanCatch, OwesFinally;
  }

  // ---- Handlers are bounded -------------------------------------------------------------------

  // How many more exceptions the frames can take: two each, less their rank.
  function Owed(tries: seq<TryFrame>): nat {
    if tries == [] then 0 else Owed(tries[..|tries| - 1]) + (2 - Rank(tries[|tries| - 1]))
  }

  lemma {:induction false} OwedPrefix(tries: seq<TryFrame>, k: nat)
    requires k <= |tries|
    ensures Owed(tries[..k]) <= Owed(tries)
    decreases |tries|
  {
    if k < |tries| {
      assert tries[..|tries| - 1][..k] == tries[..k];
      OwedPrefix(tries[..|tries| - 1], k);
    } else {
      assert tries[..k] == tries;
    }
  }

  lemma {:induction false} OwedPush(tries: seq<TryFrame>, t: TryFrame)
    ensures Owed(tries + [t]) == Owed(tries) + (2 - Rank(t))
  {
    assert (tries + [t])[..|tries|] == tries;
  }

  // Taking an exception costs.
  lemma {:induction false} UnwindOwes(fault: Fault, s: State)
    requires Unwind(fault, s).Some?
    ensures Owed(Unwind(fault, s).value.tries) < Owed(s.tries)
  {
    UnwindExact(fault, s);
    var k := |Unwind(fault, s).value.tries| - 1;
    OwedPush(s.tries[..k], Taken(s.tries[k], fault));
    OwedPush(s.tries[..k], s.tries[k]);
    assert s.tries[..k] + [s.tries[k]] == s.tries[..k + 1];
    OwedPrefix(s.tries, k + 1);
  }

  // The step hands an exception to a handler; the step opens a try statement.
  predicate Handles(trusted: bool, f: Frame, s: State)
    requires InCode(f, s)
  {
    var e := Exec(trusted, f, s);
    e.Raise? && Unwind(e.fault, e.s).Some?
  }

  predicate Opens(f: Frame, s: State)
    requires InCode(f, s)
  {
    f.code[s.pc].op == TryBegin
  }

  lemma TryOwes(size: nat, i: Instruction, s: State)
    requires IsTryOpcode(i.op)
    ensures var e := ExecTry(size, i, s);
            match e
            case Go(t) => Owed(t.tries) <= Owed(s.tries) + if i.op == TryBegin then 2 else 0
            case Raise(_, t) => Owed(t.tries) <= Owed(s.tries)
            case Stop(_) => true
  {
    if i.op == TryBegin {
      OwedPush(s.tries, TryFrame(i.a, i.b, i.c, false, false, false, None));
    } else if s.tries != [] {
      var k := |s.tries| - 1;
      OwedPrefix(s.tries, k);
      var t := s.tries[k];
      var t' := t.(inCatch := false, inFinally := true, rethrow := false, pending := None);
      assert s.tries[k := t'] == s.tries[..k] + [t'];
      OwedPush(s.tries[..k], t');
    }
  }

  lemma StepOwes(trusted: bool, f: Frame, s: State)
    requires InCode(f, s) && StepOf(trusted, f, s).Next?
    ensures Owed(StepOf(trusted, f, s).s.tries) + (if Handles(trusted, f, s) then 1 else 0)
         <= Owed(s.tries) + if Opens(f, s) then 2 else 0
  {
    hide ExecTry, ExecCompute, ExecBranch, ExecCall, ExecForeign, ExecVarArg, ExecString, ExecLoadK, ExecEnd;
    if IsTryOpcode(f.code[s.pc].op) {
      TryOwes(|f.code|, f.code[s.pc], s);
    } else {
      ExecKeepsTries(trusted, f, s);
    }
    hide Exec;
    var e := Exec(trusted, f, s);
    if e.Raise? { UnwindOwes(e.fault, e.s); }
  }

  function Handling(trusted: bool, f: Frame): State -> bool { s => InCode(f, s) && Handles(trusted, f, s) }

  function Opening(f: Frame): State -> bool { s => InCode(f, s) && Opens(f, s) }

  // However a run loops and throws, every try statement it opens takes at most two
  // exceptions.
  lemma {:induction false} HandlersBounded(trusted: bool, f: Frame, s: State, n: nat)
    ensures CountIn(Activation(trusted, f), Handling(trusted, f), s, n)
         <= 2 * CountIn(Activation(trusted, f), Opening(f), s, n) + Owed(s.tries)
    decreases n
  {
    hide StepOf, Exec, Handles;
    if n > 0 && InCode(f, s) {
      if StepOf(trusted, f, s).Next? {
        StepOwes(trusted, f, s);
        HandlersBounded(trusted, f, StepOf(trusted, f, s).s, n - 1);
      } else {
        EndHandlesNothing(trusted, f, s);
      }
    }
  }

  lemma EndHandlesNothing(trusted: bool, f: Frame, s: State)
    requires InCode(f, s) && StepOf(trusted, f, s).Done?
    ensures !Handles(trusted, f, s)
  {
    hide Exec;
  }

  // ---- Whole runs ---------------------------------------------------------------------------------

  // From a state without try frames, every state a run reaches is disciplined.
  lemma {:induction false} RunDisciplined(trusted: bool, f: Frame, s: State, n: nat)
    requires Disciplined(s.tries) && Run(Activation(trusted, f), s, n).Running?
    ensures Disciplined(Run(Activation(trusted, f), s, n).s.tries)
    decreases n
  {
    hide StepOf, Disciplined;
    if n > 0 {
      StepDisciplined(trusted, f, s);
      RunDisciplined(trusted, f, StepOf(trusted, f, s).s, n - 1);
    }
  }

  // The frame at level k is on the stack all through the next n steps.
  ghost predicate Stays(trusted: bool, f: Frame, s: State, n: nat, k: nat)
    decreases n
  {
    && k < |s.tries|
    && (n > 0 ==> InCode(f, s) && StepOf(trusted, f, s).Next? && Stays(trusted, f, StepOf(trusted, f, s).s, n - 1, k))
  }

  // While a frame stays it only moves on: from its block to its catch to its finally.
  lemma {:induction false} RankGrows(trusted: bool, f: Frame, s: State, n: nat, k: nat)
    requires Disciplined(s.tries) && Stays(trusted, f, s, n, k)
    ensures Run(Activation(trusted, f), s, n).Running? && k < |Run(Activation(trusted, f), s, n).s.tries|
    ensures Rank(s.tries[k]) <= Rank(Run(Activation(trusted, f), s, n).s.tries[k])
    ensures Disciplined(Run(Activation(trusted, f), s, n).s.tries)
    decreases n
  {
    hide StepOf, Disciplined, Rank;
    if n > 0 {
      StepDisciplined(trusted, f, s);
      RankGrows(trusted, f, StepOf(trusted, f, s).s, n - 1, k);
    }
  }

  // The step enters the catch of the frame at level k.
  ghost predicate EntersCatch(trusted: bool, f: Frame, s: State, k: nat) {
    && InCode(f, s) && StepOf(trusted, f, s).Next?
    && k < |s.tries| && k < |StepOf(trusted, f, s).s.tries|
    && !s.tries[k].inCatch && StepOf(trusted, f, s).s.tries[k].inCatch
  }

  // A catch is entered at most once while its frame stays.
  lemma {:induction false} CatchEnteredOnce(trusted: bool, f: Frame, s: State, n: nat, k: nat)
    requires Disciplined(s.tries) && EntersCatch(trusted, f, s, k)
    requires Stays(trusted, f, StepOf(trusted, f, s).s, n, k)
    ensures Run(Activation(trusted, f), StepOf(trusted, f, s).s, n).Running?
    ensures !EntersCatch(trusted, f, Run(Activation(trusted, f), StepOf(trusted, f, s).s, n).s, k)
  {
    hide StepOf;
    StepDisciplined(trusted, f, s);
    RankGrows(trusted, f, StepOf(trusted, f, s).s, n, k);
    var t := Run(Activation(trusted, f), StepOf(trusted, f, s).s, n).s;
    if InCode(f, t) { StepDisciplined(trusted, f, t); }
  }
}
