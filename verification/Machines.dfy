/** Deterministic machines that step until they stop, and the two ways used here to show
    that two of them end alike: taking equal steps, and simulation with stuttering. */
module Machines {

  datatype Step<S, O> = Next(s: S) | Done(o: O)

  // `end` is the outcome of a state that is not running, `never` that of an endless run.
  datatype Machine<!S, O> = Machine(running: S -> bool, step: S -> Step<S, O>, end: S -> O, never: O)

  datatype Progress<S, O> = Running(s: S) | Finished(o: O)

  function Run<S, O>(m: Machine<S, O>, s: S, fuel: nat): Progress<S, O>
    decreases fuel
  {
    if fuel == 0 then Running(s)
    else if !m.running(s) then Finished(m.end(s))
    else
      match m.step(s)
      case Next(t) => Run(m, t, fuel - 1)
      case Done(o) => Finished(o)
  }

  // The end of a run, however long it takes.
  ghost function Result<S, O>(m: Machine<S, O>, s: S): O {
    if exists n :: Run(m, s, n).Finished? then
      var n :| Run(m, s, n).Finished?;
      Run(m, s, n).o
    else m.never
  }

  lemma {:induction false} MoreFuel<S, O>(m: Machine<S, O>, s: S, n: nat, k: nat)
    requires Run(m, s, n).Finished? && n <= k
    ensures Run(m, s, k) == Run(m, s, n)
    decreases n
  {
    if m.running(s) && n > 0 && m.step(s).Next? {
      MoreFuel(m, m.step(s).s, n - 1, k - 1);
    }
  }

  // A run has one result, whatever fuel finds it.
  lemma {:induction false} ResultIs<S, O>(m: Machine<S, O>, s: S, n: nat)
    requires Run(m, s, n).Finished?
    ensures Result(m, s) == Run(m, s, n).o
  {
    forall k: nat | Run(m, s, k).Finished? ensures Run(m, s, k) == Run(m, s, n) {
      if k <= n { MoreFuel(m, s, k, n); } else { MoreFuel(m, s, n, k); }
    }
  }

  lemma {:induction false} RunSplit<S, O>(m: Machine<S, O>, s: S, n: nat, k: nat)
    requires Run(m, s, n).Running?
    ensures Run(m, s, n + k) == Run(m, Run(m, s, n).s, k)
    decreases n
  {
    if n > 0 { RunSplit(m, m.step(s).s, n - 1, k); }
  }

  lemma {:induction false} ResultAfter<S, O>(m: Machine<S, O>, s: S, n: nat)
    requires Run(m, s, n).Running?
    ensures Result(m, s) == Result(m, Run(m, s, n).s)
  {
    var t := Run(m, s, n).s;
    if k: nat :| Run(m, t, k).Finished? {
      RunSplit(m, s, n, k);
      ResultIs(m, t, k);
      ResultIs(m, s, n + k);
    } else if k: nat :| Run(m, s, k).Finished? {
      if k <= n { MoreFuel(m, s, k, n); } else { RunSplit(m, s, n, k - n); }
    }
  }

  lemma ResultOfStep<S, O>(m: Machine<S, O>, s: S)
    ensures Result(m, s) ==
      if !m.running(s) then m.end(s)
      else match m.step(s)
           case Next(t) => Result(m, t)
           case Done(o) => o
  {
    assert Run(m, s, 1) == if !m.running(s) then Finished(m.end(s)) else
      match m.step(s) case Next(t) => Run(m, t, 0) case Done(o) => Finished(o);
    if Run(m, s, 1).Finished? {
      ResultIs(m, s, 1);
    } else {
      ResultAfter(m, s, 1);
    }
  }

  lemma {:induction false} NeverEnds<S, O>(m: Machine<S, O>, s: S)
    requires forall n: nat :: Run(m, s, n).Running?
    ensures Result(m, s) == m.never
  {
  }

  // How many of the first n steps start in a state with property p.
  function CountIn<S, O>(m: Machine<S, O>, p: S -> bool, s: S, n: nat): nat
    decreases n
  {
    if n == 0 || !m.running(s) then 0
    else (if p(s) then 1 else 0) +
         match m.step(s)
         case Next(t) => CountIn(m, p, t, n - 1)
         case Done(_) => 0
  }

  // What every step keeps true of the state, and every outcome from there shows, holds of the
  // result.
  lemma ResultUnder<S(!new), O>(m: Machine<S, O>, inv: S -> bool, p: O -> bool, s: S)
    requires inv(s) && p(m.never) && forall t :: inv(t) && !m.running(t) ==> p(m.end(t))
    requires forall t :: inv(t) && m.running(t) ==> match m.step(t) case Next(u) => inv(u) case Done(o) => p(o)
    ensures p(Result(m, s))
  {
    if n: nat :| Run(m, s, n).Finished? {
      FinishedUnder(m, inv, p, s, n);
      ResultIs(m, s, n);
    }
  }

  lemma {:induction false} FinishedUnder<S(!new), O>(m: Machine<S, O>, inv: S -> bool, p: O -> bool, s: S, n: nat)
    requires inv(s) && forall t :: inv(t) && !m.running(t) ==> p(m.end(t))
    requires forall t :: inv(t) && m.running(t) ==> match m.step(t) case Next(u) => inv(u) case Done(o) => p(o)
    requires Run(m, s, n).Finished?
    ensures p(Run(m, s, n).o)
    decreases n
  {
    if n > 0 && m.running(s) && m.step(s).Next? { FinishedUnder(m, inv, p, m.step(s).s, n - 1); }
  }

  // ---- Equal steps ------------------------------------------------------------------------

  // Where `inv` holds the machines take the same step, and it keeps holding.
  ghost predicate Agree<S(!new), O>(m: Machine<S, O>, m': Machine<S, O>, inv: S -> bool) {
    && m.never == m'.never
    && forall s :: inv(s) ==>
         && m.running(s) == m'.running(s)
         && (!m.running(s) ==> m.end(s) == m'.end(s))
         && (m.running(s) ==> m.step(s) == m'.step(s))
         && (m.running(s) && m.step(s).Next? ==> inv(m.step(s).s))
  }

  lemma {:induction false} AgreeingRuns<S(!new), O>(m: Machine<S, O>, m': Machine<S, O>, inv: S -> bool, s: S, n: nat)
    requires Agree(m, m', inv) && inv(s)
    ensures Run(m, s, n) == Run(m', s, n)
    decreases n
  {
    if m.running(s) && n > 0 && m.step(s).Next? {
      AgreeingRuns(m, m', inv, m.step(s).s, n - 1);
    }
  }

  lemma AgreeingResults<S(!new), O>(m: Machine<S, O>, m': Machine<S, O>, inv: S -> bool, s: S)
    requires Agree(m, m', inv) && inv(s)
    ensures Result(m, s) == Result(m', s)
  {
    if n: nat :| Run(m, s, n).Finished? {
      AgreeingRuns(m, m', inv, s, n);
      ResultIs(m, s, n);
      ResultIs(m', s, n);
    } else {
      forall n: nat ensures Run(m', s, n).Running? { AgreeingRuns(m, m', inv, s, n); }
    }
  }

  // ---- Refinement -------------------------------------------------------------------------

  // `m'` takes the steps of `m`, except that it may go on where `m` gives up for ever.
  ghost predicate Extends<S(!new), O>(m: Machine<S, O>, m': Machine<S, O>) {
    && m.never == m'.never
    && forall s ::
         && m.running(s) == m'.running(s)
         && m.end(s) == m'.end(s)
         && (m.step(s) == m'.step(s) || m.step(s) == Done(m.never))
  }

  lemma {:induction false} ExtendedRuns<S(!new), O>(m: Machine<S, O>, m': Machine<S, O>, s: S, n: nat)
    requires Extends(m, m') && Run(m, s, n).Finished? && Run(m, s, n).o != m.never
    ensures Run(m', s, n) == Run(m, s, n)
    decreases n
  {
    if m.running(s) && n > 0 && m.step(s).Next? {
      ExtendedRuns(m, m', m.step(s).s, n - 1);
    }
  }

  lemma ExtendedResult<S(!new), O>(m: Machine<S, O>, m': Machine<S, O>, s: S)
    requires Extends(m, m')
    ensures Result(m, s) == m.never || Result(m, s) == Result(m', s)
  {
    if n: nat :| Run(m, s, n).Finished? && Run(m, s, n).o != m.never {
      ExtendedRuns(m, m', s, n);
      ResultIs(m, s, n);
      ResultIs(m', s, n);
    }
  }

  // ---- Simulation -------------------------------------------------------------------------

  // Every step of `m` is matched by one or more steps of `m'`.
  ghost predicate Matched<S, T(!new), O>(m: Machine<S, O>, m': Machine<T, O>, rel: (S, T) -> bool, s: S, t: T) {
    if !m.running(s) then Result(m', t) == m.end(s)
    else
      match m.step(s)
      case Done(o) => Result(m', t) == o
      case Next(s') => exists k: nat :: k > 0 && Run(m', t, k).Running? && rel(s', Run(m', t, k).s)
  }

  ghost predicate Simulates<S(!new), T(!new), O>(m: Machine<S, O>, m': Machine<T, O>, rel: (S, T) -> bool) {
    && m.never == m'.never
    && forall s, t :: rel(s, t) ==> Matched(m, m', rel, s, t)
  }

  lemma {:induction false} SimulatedEnd<S(!new), T(!new), O>(
      m: Machine<S, O>, m': Machine<T, O>, rel: (S, T) -> bool, s: S, t: T, n: nat)
    requires Simulates(m, m', rel) && rel(s, t) && Run(m, s, n).Finished?
    ensures Result(m', t) == Run(m, s, n).o
    decreases n
  {
    assert Matched(m, m', rel, s, t);
    if m.running(s) && n > 0 && m.step(s).Next? {
      var k: nat :| k > 0 && Run(m', t, k).Running? && rel(m.step(s).s, Run(m', t, k).s);
      SimulatedEnd(m, m', rel, m.step(s).s, Run(m', t, k).s, n - 1);
      ResultAfter(m', t, k);
    }
  }

  lemma {:induction false} SimulatedOnward<S(!new), T(!new), O>(
      m: Machine<S, O>, m': Machine<T, O>, rel: (S, T) -> bool, s: S, t: T, n: nat)
    requires Simulates(m, m', rel) && rel(s, t)
    requires forall k: nat :: Run(m, s, k).Running?
    ensures Run(m', t, n).Running?
    decreases n
  {
    assert Matched(m, m', rel, s, t);
    assert Run(m, s, 0).Running? && Run(m, s, 1).Running?;
    var k: nat :| k > 0 && Run(m', t, k).Running? && rel(m.step(s).s, Run(m', t, k).s);
    if Run(m', t, n).Finished? {
      if n < k {
        MoreFuel(m', t, n, k);
      } else {
        forall j: nat ensures Run(m, m.step(s).s, j).Running? {
          assert Run(m, s, j + 1).Running?;
        }
        SimulatedOnward(m, m', rel, m.step(s).s, Run(m', t, k).s, n - k);
        RunSplit(m', t, k, n - k);
      }
    }
  }

  lemma SimulatedResult<S(!new), T(!new), O>(
      m: Machine<S, O>, m': Machine<T, O>, rel: (S, T) -> bool, s: S, t: T)
    requires Simulates(m, m', rel) && rel(s, t)
    ensures Result(m, s) == Result(m', t)
  {
    if n: nat :| Run(m, s, n).Finished? {
      ResultIs(m, s, n);
      SimulatedEnd(m, m', rel, s, t, n);
    } else {
      forall n: nat ensures Run(m', t, n).Running? { SimulatedOnward(m, m', rel, s, t, n); }
      NeverEnds(m', t);
    }
  }

  // ---- Running inside another machine ------------------------------------------------------

  // While `m` steps on, `m'` steps along with it.
  ghost predicate Accompanies<S(!new), T(!new), O>(m: Machine<S, O>, m': Machine<T, O>, rel: (S, T) -> bool) {
    forall s, t :: rel(s, t) ==>
      && m.running(s)
      && (m.step(s).Next? ==> m'.running(t) && m'.step(t).Next? && rel(m.step(s).s, m'.step(t).s))
  }

  // The last states of a run that ends.
  lemma {:induction false} AccompaniedToEnd<S(!new), T(!new), O>(
      m: Machine<S, O>, m': Machine<T, O>, rel: (S, T) -> bool, s: S, t: T, n: nat)
      returns (k: nat, s': S, t': T)
    requires Accompanies(m, m', rel) && rel(s, t) && Run(m, s, n).Finished?
    ensures rel(s', t') && Run(m', t, k) == Running(t') && m.step(s') == Done(Run(m, s, n).o)
    decreases n
  {
    if m.step(s).Done? {
      k, s', t' := 0, s, t;
    } else {
      k, s', t' := AccompaniedToEnd(m, m', rel, m.step(s).s, m'.step(t).s, n - 1);
      k := k + 1;
    }
  }

  lemma {:induction false} AccompaniedForever<S(!new), T(!new), O>(
      m: Machine<S, O>, m': Machine<T, O>, rel: (S, T) -> bool, s: S, t: T, n: nat)
    requires Accompanies(m, m', rel) && rel(s, t) && Run(m, s, n).Running?
    ensures Run(m', t, n).Running?
    decreases n
  {
    if n > 0 { AccompaniedForever(m, m', rel, m.step(s).s, m'.step(t).s, n - 1); }
  }
}
