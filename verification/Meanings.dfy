/** The meaning of a call in a module: its outcome once calls may nest deeply enough. */
module Meanings {
  import opened Int64
  import opened Bytecode
  import opened Machines
  import opened Interpreter
  import opened Runs

  ghost function Meaning(
      trusted: bool, m: Module, base: Env, fi: nat, args: seq<Value>, closure: Option<I64>, w: World): Outcome
  {
    if exists d: nat :: Execute(trusted, m, base, d, fi, args, closure, w) != Diverges then
      var d: nat :| Execute(trusted, m, base, d, fi, args, closure, w) != Diverges;
      Execute(trusted, m, base, d, fi, args, closure, w)
    else Diverges
  }

  // Nesting deeper changes nothing that has ended.
  lemma {:induction false} Deeper(
      trusted: bool, m: Module, base: Env, d: nat, d': nat, fi: nat, args: seq<Value>, closure: Option<I64>, w: World)
    requires d <= d'
    ensures Execute(trusted, m, base, d, fi, args, closure, w) == Diverges
         || Execute(trusted, m, base, d', fi, args, closure, w) == Execute(trusted, m, base, d, fi, args, closure, w)
    decreases d, 0
  {
    hide Activate, EnvAt, Refines;
    if d > 0 {
      DeeperRefines(trusted, m, base, d - 1, d' - 1);
      ActivateRefines(trusted, m, EnvAt(trusted, m, base, d - 1), EnvAt(trusted, m, base, d' - 1), fi, args, closure,
          w);
    }
  }

  lemma {:induction false} DeeperRefines(trusted: bool, m: Module, base: Env, d: nat, d': nat)
    requires d <= d'
    ensures Refines(EnvAt(trusted, m, base, d), EnvAt(trusted, m, base, d'))
    decreases d, 1
  {
    hide Execute;
    var e, e' := EnvAt(trusted, m, base, d), EnvAt(trusted, m, base, d');
    forall q: Request, v: World ensures e.ask(q, v) == Diverges || e.ask(q, v) == e'.ask(q, v) {
      if q.CallFunction? { Deeper(trusted, m, base, d, d', q.callee, q.args, q.closure, v); }
    }
  }

  lemma {:induction false} MeaningIs(
      trusted: bool, m: Module, base: Env, d: nat, fi: nat, args: seq<Value>, closure: Option<I64>, w: World)
    requires Execute(trusted, m, base, d, fi, args, closure, w) != Diverges
    ensures Meaning(trusted, m, base, fi, args, closure, w) == Execute(trusted, m, base, d, fi, args, closure, w)
  {
    var d': nat :| Execute(trusted, m, base, d', fi, args, closure, w) != Diverges
      && Meaning(trusted, m, base, fi, args, closure, w) == Execute(trusted, m, base, d', fi, args, closure, w);
    if d <= d' {
      Deeper(trusted, m, base, d, d', fi, args, closure, w);
    } else {
      Deeper(trusted, m, base, d', d, fi, args, closure, w);
    }
  }

  ghost predicate SameMeaning(trusted: bool, m: Module, m': Module) {
    forall base, fi: nat, args, closure, w ::
      Meaning(trusted, m, base, fi, args, closure, w) == Meaning(trusted, m', base, fi, args, closure, w)
  }

  // What ends in `m` ends the same way in `m'`, though perhaps nested one deeper.
  ghost predicate CaughtAt(
      trusted: bool, m: Module, m': Module, base: Env, d: nat, fi: nat, args: seq<Value>, closure: Option<I64>,
      w: World)
  {
    var o := Execute(trusted, m, base, d, fi, args, closure, w);
    o == Diverges || Execute(trusted, m', base, d + 1, fi, args, closure, w) == o
  }

  ghost predicate Caught(trusted: bool, m: Module, m': Module) {
    forall base, d: nat, fi: nat, args, closure, w :: CaughtAt(trusted, m, m', base, d, fi, args, closure, w)
  }

  lemma CaughtMeaning(
      trusted: bool, m: Module, m': Module, base: Env, fi: nat, args: seq<Value>, closure: Option<I64>, w: World)
    requires Caught(trusted, m, m')
    ensures var o := Meaning(trusted, m, base, fi, args, closure, w);
            o == Diverges || Meaning(trusted, m', base, fi, args, closure, w) == o
  {
    hide Execute;
    if Meaning(trusted, m, base, fi, args, closure, w) != Diverges {
      var d: nat :| Execute(trusted, m, base, d, fi, args, closure, w) != Diverges
        && Meaning(trusted, m, base, fi, args, closure, w) == Execute(trusted, m, base, d, fi, args, closure, w);
      hide Meaning;
      assert CaughtAt(trusted, m, m', base, d, fi, args, closure, w);
      MeaningIs(trusted, m', base, d + 1, fi, args, closure, w);
    }
  }

  lemma CaughtBothWays(trusted: bool, m: Module, m': Module)
    requires Caught(trusted, m, m') && Caught(trusted, m', m)
    ensures SameMeaning(trusted, m, m')
  {
    hide Meaning, Caught;
    forall base, fi: nat, args, closure, w
      ensures Meaning(trusted, m, base, fi, args, closure, w) == Meaning(trusted, m', base, fi, args, closure, w)
    {
      CaughtMeaning(trusted, m, m', base, fi, args, closure, w);
      CaughtMeaning(trusted, m', m, base, fi, args, closure, w);
    }
  }

  lemma {:induction false} SameExecutionsSameMeaning(
      trusted: bool, m: Module, m': Module, base: Env, fi: nat, args: seq<Value>, closure: Option<I64>, w: World)
    requires forall d: nat ::
               Execute(trusted, m, base, d, fi, args, closure, w) == Execute(trusted, m', base, d, fi, args, closure, w)
    ensures Meaning(trusted, m, base, fi, args, closure, w) == Meaning(trusted, m', base, fi, args, closure, w)
  {
    if d: nat :| Execute(trusted, m, base, d, fi, args, closure, w) != Diverges {
      MeaningIs(trusted, m, base, d, fi, args, closure, w);
      MeaningIs(trusted, m', base, d, fi, args, closure, w);
    }
  }

  lemma SameActivationsSameMeaning(trusted: bool, m: Module, m': Module)
    requires SameActivations(trusted, m, trusted, m')
    ensures SameMeaning(trusted, m, m')
  {
    hide Execute, Meaning, SameActivations;
    forall base, fi: nat, args, closure, w
      ensures Meaning(trusted, m, base, fi, args, closure, w) == Meaning(trusted, m', base, fi, args, closure, w)
    {
      forall d: nat
        ensures Execute(trusted, m, base, d, fi, args, closure, w)
             == Execute(trusted, m', base, d, fi, args, closure, w)
      {
        SameExecutions(trusted, m, trusted, m', base, d, fi, args, closure, w);
      }
      SameExecutionsSameMeaning(trusted, m, m', base, fi, args, closure, w);
    }
  }

  lemma SameMeaningTransitive(trusted: bool, m0: Module, m1: Module, m2: Module)
    requires SameMeaning(trusted, m0, m1) && SameMeaning(trusted, m1, m2)
    ensures SameMeaning(trusted, m0, m2)
  {
    forall base, fi: nat, args, closure, w
      ensures Meaning(trusted, m0, base, fi, args, closure, w) == Meaning(trusted, m2, base, fi, args, closure, w)
    {
      assert Meaning(trusted, m0, base, fi, args, closure, w) == Meaning(trusted, m1, base, fi, args, closure, w);
    }
  }
}
