/** Passes that make one instruction of two neighbours and leave a Nop in the second place. */
module Pairs {
  import opened Int64
  import opened Bytecode
  import opened Machines
  import opened Interpreter
  import opened Steps
  import opened Runs
  import opened Verifier
  import opened TrustedMode
  import opened KnownValues
  import opened Blocks

  // `code'` is `code` with the instructions at `pairs` merged with the ones behind them.
  ghost predicate Merged(code: seq<Instruction>, pairs: set<int>, code': seq<Instruction>) {
    && |code'| == |code|
    && (forall p :: p in pairs ==> 0 <= p && p + 1 < |code| && p + 1 !in pairs)
    && forall q :: 0 <= q < |code| && q !in pairs ==>
         code'[q] == if q - 1 in pairs then NOP else code[q]
  }

  // No jump or handler comes in between a pair.
  ghost predicate Undivided(code: seq<Instruction>, pairs: set<int>) {
    forall p :: p in pairs ==> !IsLabel(code, p + 1)
  }

  // The merged code at `s` and the original at `t`: in the same state outside pairs; on the
  // Nop of a pair, the original still has the second instruction to do.
  ghost predicate Level(trusted: bool, f: Frame, n: nat, pairs: set<int>, s: State, t: State) {
    && |t.regs| == n && HandlersLabelled(f.code, t.tries)
    && if s.pc - 1 in pairs
       then && InCode(f, s) && t.pc == s.pc && InCode(f, t)
            && StepOf(trusted, f, t) == Next(s.(pc := s.pc + 1))
       else s == t
  }

  // Away from pairs both do the same.
  lemma LevelStep(
      trusted: bool, m: Module, fn: Function, f: Frame, f': Frame, pairs: set<int>, s: State, t: State)
    requires Carries(m, fn, f) && f' == f.(code := f'.code)
    requires Merged(f.code, pairs, f'.code) && Undivided(f.code, pairs)
    requires Level(trusted, f, fn.regCount, pairs, s, t) && s.pc !in pairs && InCode(f, s)
    ensures InCode(f', s) && InCode(f, t) && StepOf(trusted, f', s) == StepOf(trusted, f, t)
    ensures StepOf(trusted, f, t).Next? ==>
              Level(trusted, f, fn.regCount, pairs, StepOf(trusted, f, t).s, StepOf(trusted, f, t).s)
  {
    hide StepOf, Exec, IsLabel, HandlersLabelled, Carries;
    if s.pc - 1 in pairs {
      NopStep(trusted, f', s);
    } else {
      KeptStep(trusted, m, fn, f, f', s);
    }
    if StepOf(trusted, f, t).Next? { StepStays(trusted, m, fn, f, t); }
  }

  lemma LevelMatch(
      trusted: bool, m: Module, fn: Function, f: Frame, f': Frame, pairs: set<int>, s: State, t: State)
    requires Carries(m, fn, f) && f' == f.(code := f'.code)
    requires Merged(f.code, pairs, f'.code) && Undivided(f.code, pairs)
    requires Level(trusted, f, fn.regCount, pairs, s, t) && s.pc !in pairs
    ensures Matched(Activation(trusted, f'), Activation(trusted, f),
                    (x: State, y: State) => Level(trusted, f, fn.regCount, pairs, x, y), s, t)
  {
    hide StepOf, HandlersLabelled, Carries, Undivided;
    var c, c' := Activation(trusted, f), Activation(trusted, f');
    ResultOfStep(c, t);
    if InCode(f, s) {
      LevelStep(trusted, m, fn, f, f', pairs, s, t);
      hide Merged;
      if StepOf(trusted, f, t).Next? { assert Run(c, t, 1) == Running(c.step(t).s); }
    }
  }

  // If pairs match too, the merged code ends the way the original does.
  lemma MergedRun(trusted: bool, m: Module, fn: Function, f: Frame, f': Frame, pairs: set<int>, s: State)
    requires Carries(m, fn, f) && f' == f.(code := f'.code)
    requires Merged(f.code, pairs, f'.code) && Undivided(f.code, pairs)
    requires forall x: State :: x.pc in pairs && |x.regs| == fn.regCount && HandlersLabelled(f.code, x.tries) ==>
               Matched(Activation(trusted, f'), Activation(trusted, f),
                       (y: State, z: State) => Level(trusted, f, fn.regCount, pairs, y, z), x, x)
    requires |s.regs| == fn.regCount && s.tries == [] && s.pc == 0
    ensures Result(Activation(trusted, f), s) == Result(Activation(trusted, f'), s)
  {
    hide StepOf, Carries, Undivided;
    var rel := (x: State, y: State) => Level(trusted, f, fn.regCount, pairs, x, y);
    forall x: State, y: State | rel(x, y)
      ensures Matched(Activation(trusted, f'), Activation(trusted, f), rel, x, y)
    {
      if x.pc !in pairs { LevelMatch(trusted, m, fn, f, f', pairs, x, y); }
    }
    SimulatedResult(Activation(trusted, f'), Activation(trusted, f), rel, s, s);
  }
}
