/** The optimizer as a whole: which passes run, in which order, that the module stays
    acceptable, and when the program keeps its meaning. */
module Pipeline {
  import opened Int64
  import opened Bytecode
  import opened Machines
  import opened Interpreter
  import opened Runs
  import opened Verifier
  import opened Passes
  import opened Meanings
  import opened SteadyStrings
  import Blocks
  import KnownValues
  import SccpAnalysis
  import P = Peephole
  import Tc = Tailcall
  import Lf = LoopFusion
  import Li = Licm
  import Sr = StrengthReduction
  import Cf = ConstFold
  import Sc = Sccp
  import Ce = ConstExec
  import Cp = CopyProp
  import D = Dce
  import Cl = Cleanup
  import Ff = FfiBypass
  import I = Inline
  import Ir = InlineRuns
  import Ip = InlinePass

  datatype Level = O0 | O1 | O2 | O3

  datatype Pass = Peephole | LoopFusion | ConstFold | CopyProp | Dce | Tailcall | InlineSmall | Cleanup

  datatype Options = Options(level: Level, enable: seq<Pass>, disable: seq<Pass>, inlineMaxInst: nat, verifyInput: bool)

  function BasePasses(level: Level): seq<Pass> {
    match level
    case O0 => []
    case O1 => [Peephole, Tailcall, LoopFusion, Cleanup]
    case O2 => [Peephole, Tailcall, LoopFusion, Cleanup, ConstFold, CopyProp, Dce, Cleanup]
    case O3 =>
      [Peephole, Tailcall, LoopFusion, Cleanup, ConstFold, CopyProp, Dce, Cleanup, InlineSmall, CopyProp, Dce, Cleanup]
  }

  // A pass that is enabled comes after the others, unless it is among them.
  function Extended(passes: seq<Pass>, enable: seq<Pass>): (r: seq<Pass>)
    ensures passes <= r && forall p :: p in r <==> p in passes || p in enable
    decreases |enable|
  {
    if enable == [] then passes
    else
      var before := Extended(passes, enable[..|enable| - 1]);
      var p := enable[|enable| - 1];
      if p in before then before else before + [p]
  }

  function Without(passes: seq<Pass>, disable: seq<Pass>): (r: seq<Pass>)
    ensures forall p :: p in r <==> p in passes && p !in disable
    decreases |passes|
  {
    if passes == [] then []
    else
      var k := |passes| - 1;
      if passes[k] in disable then Without(passes[..k], disable) else Without(passes[..k], disable) + [passes[k]]
  }

  // What is not disabled occurs as often as before, and nothing changes if nothing is.
  lemma {:induction false} WithoutCounts(passes: seq<Pass>, disable: seq<Pass>, p: Pass)
    ensures multiset(Without(passes, disable))[p] == if p in disable then 0 else multiset(passes)[p]
    ensures disable == [] ==> Without(passes, disable) == passes
    decreases |passes|
  {
    if passes != [] {
      var before, last := passes[..|passes| - 1], passes[|passes| - 1];
      assert passes == before + [last];
      assert Without(passes, disable) == Without(before, disable) + if last in disable then [] else [last];
      hide Without;
      WithoutCounts(before, disable, p);
      CountsOneMore(before, last, p);
      if last !in disable { CountsOneMore(Without(before, disable), last, p); }
    }
  }

  lemma CountsOneMore(passes: seq<Pass>, last: Pass, p: Pass)
    ensures multiset(passes + [last])[p] == multiset(passes)[p] + if p == last then 1 else 0
  {
  }

  // The passes of the level in their order, as often as they occur there, then the enabled
  // ones that are new, and of all these the ones that are not disabled.
  method BuildPassPipeline(options: Options) returns (passes: seq<Pass>)
    ensures passes == Without(Extended(BasePasses(options.level), options.enable), options.disable)
  {
    hide BasePasses;
    var all := BasePasses(options.level);
    for k := 0 to |options.enable|
      invariant all == Extended(BasePasses(options.level), options.enable[..k])
    {
      assert options.enable[..k + 1][..k] == options.enable[..k];
      if options.enable[k] !in all { all := all + [options.enable[k]]; }
    }
    assert options.enable[..|options.enable|] == options.enable;
    passes := [];
    for k := 0 to |all|
      invariant passes == Without(all[..k], options.disable)
    {
      assert all[..k + 1][..k] == all[..k];
      if all[k] !in options.disable { passes := passes + [all[k]]; }
    }
    assert all[..|all|] == all;
  }

  // ---- What the pipeline does, transformation by transformation --------------------------------

  datatype Work = Peep | TailCalls | Fuse | Hoist | Reduce | Fold | Propagate | Sccp | Execute | Sweep | Compact

  datatype Stage = On(work: Work, fi: nat) | BypassForwarders | InlineAll(maxInst: nat)

  function WorksOf(pass: Pass, level: Level): seq<Work> {
    match pass
    case Peephole => [Peep]
    case Tailcall => [TailCalls]
    case LoopFusion => [Fuse] + if level == O3 then [Hoist, Reduce] else []
    case ConstFold => [Fold] + if level == O3 then [Sccp, Execute] else []
    case CopyProp => [Propagate]
    case Dce => [Sweep]
    case Cleanup => [Compact]
    case InlineSmall => []
  }

  function OnFunction(works: seq<Work>, fi: nat): (stages: seq<Stage>)
    ensures |stages| == |works|
  {
    seq(|works|, k requires 0 <= k < |works| => On(works[k], fi))
  }

  // Every function in turn, the first `n` of them.
  function OnFunctions(works: seq<Work>, n: nat): seq<Stage> {
    if n == 0 then [] else OnFunctions(works, n - 1) + OnFunction(works, n - 1)
  }

  function StagesOf(pass: Pass, options: Options, n: nat): seq<Stage> {
    if pass == InlineSmall then [BypassForwarders, InlineAll(options.inlineMaxInst)]
    else OnFunctions(WorksOf(pass, options.level), n)
  }

  function Schedule(passes: seq<Pass>, options: Options, n: nat): seq<Stage> {
    if passes == [] then []
    else Schedule(passes[..|passes| - 1], options, n) + StagesOf(passes[|passes| - 1], options, n)
  }

  // ---- What one transformation makes of a module --------------------------------------------------

  ghost predicate DidHoist(code: seq<Instruction>, code': seq<Instruction>) {
    exists preds :: Li.IsPredecessors(code, preds) && |preds| == |code| &&
      code' == if TryFree(code) then Li.Hoisted(code, preds) else code
  }

  ghost predicate DidSccp(m: Module, fn: Function, code': seq<Instruction>, constants': seq<Constant>) {
    exists a :: SccpAnalysis.LeastSolution(fn.Code(), m.constants, fn.regCount, a)
             && Sc.Rewritten(a, fn.Code(), code', constants')
  }

  ghost predicate DidSweep(code: seq<Instruction>, code': seq<Instruction>) {
    if TryFree(code) then exists r :: D.ExactlyReachable(code, r) && D.Swept(r, code, code') else code' == code
  }

  ghost predicate DidWork(work: Work, fi: nat, m: Module, m': Module)
    requires fi < |m.functions| && fi < |m'.functions|
  {
    var fn, code, code' := m.functions[fi], m.functions[fi].Code(), m'.functions[fi].Code();
    match work
    case Peep => code' == P.SimplifiedCode(code) && m'.constants == m.constants
    case TailCalls => code' == Tc.TailCalled(code) && m'.constants == m.constants
    case Fuse => code' == Lf.Fused(code) && m'.constants == m.constants
    case Hoist => DidHoist(code, code') && m'.constants == m.constants
    case Reduce => Sr.Reduced(code, m.constants, code', m'.constants)
    case Fold => Cf.Folded(code, m.constants, code', m'.constants)
    case Propagate => code' == Cp.PropagatedCode(code) && m'.constants == m.constants
    case Sccp => DidSccp(m, fn, code', m'.constants)
    case Execute => Ce.Replaced(m, m', fi)
    case Sweep => DidSweep(code, code') && m'.constants == m.constants
    case Compact => code' == (if Cl.Compactable(code) then Cl.Compacted(code) else code) && m'.constants == m.constants
  }

  ghost predicate DidInline(maxInst: nat, m: Module, m': Module) {
    exists can :: Ip.IsCandidates(m, maxInst, can) && I.BodiesExist(m, can) && Ip.Halfway(m, m', can, |can|)
  }

  ghost predicate Did(stage: Stage, m: Module, m': Module) {
    match stage
    case On(work, fi) =>
      && Recoded(m, m', fi) && m'.functions[fi].regCount == m.functions[fi].regCount
      && |m'.constants| <= |m.constants| + |m.functions[fi].Code()|
      && DidWork(work, fi, m, m')
    case BypassForwarders => Ff.PartlyBypassed(m, m', |m.functions|)
    case InlineAll(maxInst) => DidInline(maxInst, m, m')
  }

  // ---- When a transformation keeps the meaning of the program ------------------------------------

  ghost predicate SafeWork(work: Work, m: Module, fn: Function) {
    var code := fn.Code();
    match work
    case Peep => P.ZerosMeetInts(fn, m.constants)
    case TailCalls => Tc.TailsSafe(m, fn)
    case Fuse => Lf.FusionSafe(code)
    case Hoist =>
      TryFree(code) ==> forall preds :: Li.IsPredecessors(code, preds) && |preds| == |code| ==>
        Li.SideEntryFree(code, preds) && Li.HeadersPlain(code, m.constants, preds)
    case Reduce =>
      Sr.WindowsUnreduced(code, m.constants) && Sr.UnitsMeetInts(fn, m.constants)
          && |m.constants| + |code| <= 0x1_0000_0000
    case Fold => Cf.WindowsUnknown(code, m.constants) && |m.constants| + |code| <= 0x1_0000_0000
    case Propagate => Cp.PropagationSafe(code)
    case Sccp =>
      && (TryFree(code) || forall a :: SccpAnalysis.LeastSolution(code, m.constants, fn.regCount, a) ==>
            Sc.HandlersCovered(code, fn.regCount, a))
      && |m.constants| + |code| <= 0x1_0000_0000
    case Execute => |m.constants| + |code| <= 0x1_0000_0000
    case Sweep => true
    case Compact => Cl.Compactable(code) ==> Cl.TargetsSurvive(code)
  }

  ghost predicate SafeInline(maxInst: nat, m: Module) {
    forall can :: Ip.IsCandidates(m, maxInst, can) && I.BodiesExist(m, can) ==>
      && Ir.AllPlainspoken(m, can)
      && forall j :: 0 <= j < |can| ==>
           && Ir.ArgumentsTyped(m, can, m.functions[j])
           && |Ip.InlinedFunction(m, can, m.functions[j]).Code()| < 0x8000_0000
  }

  ghost predicate Safe(stage: Stage, m: Module) {
    match stage
    case On(work, fi) => fi < |m.functions| ==> SafeWork(work, m, m.functions[fi])
    case BypassForwarders =>
      forall j, p :: 0 <= j < |m.functions| && 0 <= p < |m.functions[j].Code()| ==>
        !Ff.Bypassable(m, m.functions[j].Code()[p])
    case InlineAll(maxInst) => SafeInline(maxInst, m)
  }

  // A transformation that finds nothing to do.
  ghost predicate Idle(stage: Stage, m: Module, m': Module) {
    match stage
    case On(_, fi) => fi < |m.functions| && fi < |m'.functions| && m'.functions[fi].Code() == m.functions[fi].Code()
    case _ => m' == m
  }

  ghost predicate Harmless(stage: Stage, m: Module, m': Module) { Idle(stage, m, m') || Safe(stage, m) }

  // The rewritten function, for passes that keep the code in place.
  lemma LocalWork(trusted: bool, work: Work, fi: nat, m: Module, m': Module)
    requires Accepted(m) && Did(On(work, fi), m, m') && SafeWork(work, m, m.functions[fi])
    requires work.Peep? || work.Fuse? || work.Reduce? || work.Fold?
    ensures SameFunction(trusted, m, m', fi)
  {
    hide Accepted, SameFunction, P.ZerosMeetInts, P.SimplifiedCode, Lf.FusionSafe,
         Lf.Fused, Cf.WindowsUnknown, Sr.WindowsUnreduced, Sr.UnitsMeetInts, Sr.Reduced, Cf.Folded;
    match work {
      case Peep => P.SimplifiedFunction(trusted, m, m', fi);
      case Fuse => Lf.FusedFunction(trusted, m, m', fi);
      case Reduce => Sr.ReducedFunction(trusted, m, m', fi);
      case Fold => Cf.FoldedFunction(trusted, m, m', fi);
      case _ =>
    }
  }

  // The rewritten function, for passes that look at the whole control flow.
  lemma FlowWork(trusted: bool, work: Work, fi: nat, m: Module, m': Module)
    requires Accepted(m) && Did(On(work, fi), m, m') && SafeWork(work, m, m.functions[fi])
    requires work.Sccp? || work.Hoist? || work.Sweep? || work.Compact?
    ensures SameFunction(trusted, m, m', fi)
  {
    hide Accepted, SameFunction, Sc.HandlersCovered, Li.IsPredecessors, Li.SideEntryFree, Li.HeadersPlain, Li.Hoisted,
         Sc.Rewritten, TryFree,
         D.FlowClosed, D.Swept, Cl.Compactable, Cl.Compacted, Cl.TargetsSurvive, SccpAnalysis.Solution,
         SccpAnalysis.AtMost;
    var fn, code, code' := m.functions[fi], m.functions[fi].Code(), m'.functions[fi].Code();
    match work {
      case Sccp =>
        var a :| SccpAnalysis.LeastSolution(code, m.constants, fn.regCount, a)
            && Sc.Rewritten(a, code, code', m'.constants);
        if TryFree(code) { Sc.NoHandlers(code, fn.regCount, a); }
        Sc.RewrittenFunction(trusted, m, m', fi, a);
      case Hoist =>
        var preds :| Li.IsPredecessors(code, preds) && |preds| == |code|
          && code' == if TryFree(code) then Li.Hoisted(code, preds) else code;
        if TryFree(code) {
          Li.HoistedPlainFunction(trusted, m, m', fi, preds);
        } else {
          SameCode(trusted, m, m', fi);
        }
      case Sweep =>
        if TryFree(code) {
          var r :| D.ExactlyReachable(code, r) && D.Swept(r, code, code');
          D.SweptFunction(trusted, m, m', fi, r);
        } else {
          SameCode(trusted, m, m', fi);
        }
      case Compact =>
        if Cl.Compactable(code) {
          Cl.CompactedFunction(trusted, m, m', fi);
        } else {
          SameCode(trusted, m, m', fi);
        }
      case _ =>
    }
  }

  lemma OtherWork(trusted: bool, work: Work, fi: nat, m: Module, m': Module)
    requires Accepted(m) && Did(On(work, fi), m, m') && SafeWork(work, m, m.functions[fi])
    requires work.Propagate? || work.Execute?
    ensures SameFunction(trusted, m, m', fi)
  {
    hide Accepted, SameFunction, Cp.PropagationSafe, Cp.PropagatedCode, Ce.TryRun, Ce.Eligible;
    if work.Propagate? {
      Cp.PropagatedFunction(trusted, m, m', fi);
    } else if m'.functions == m.functions {
      SameCode(trusted, m, m', fi);
    } else {
      var v: I64, k: U32 :| Ce.ReplacedBy(m, m', fi, v, k);
      Ce.ReplacedFunction(trusted, m, m', fi, v, k);
    }
  }

  lemma TailWork(trusted: bool, fi: nat, m: Module, m': Module)
    requires Accepted(m) && Accepted(m') && Did(On(TailCalls, fi), m, m') && SafeWork(TailCalls, m, m.functions[fi])
    ensures SameMeaning(trusted, m, m')
  {
    hide Accepted, SameMeaning, Tc.TailsSafe, Tc.TailCalled;
    Tc.TailCalledMeaning(trusted, m, m', fi);
  }

  // A safe transformation, or one that finds nothing to do, keeps the meaning of every
  // function of the module.
  lemma StageMeaning(trusted: bool, stage: Stage, m: Module, m': Module)
    requires Accepted(m) && Accepted(m') && Did(stage, m, m') && Harmless(stage, m, m')
    ensures SameMeaning(trusted, m, m')
  {
    hide Accepted, SameMeaning, DidWork, SafeWork, SafeInline, DidInline, SameFunction, SameActivations;
    match stage {
      case On(work, fi) =>
        if work.TailCalls? && !Idle(stage, m, m') {
          TailWork(trusted, fi, m, m');
          return;
        }
        if Idle(stage, m, m') {
          SameCode(trusted, m, m', fi);
        } else if work.Peep? || work.Fuse? || work.Reduce? || work.Fold? {
          LocalWork(trusted, work, fi, m, m');
        } else if work.Propagate? || work.Execute? {
          OtherWork(trusted, work, fi, m, m');
        } else {
          FlowWork(trusted, work, fi, m, m');
        }
        RecodedActivations(trusted, m, m', fi);
        SameActivationsSameMeaning(trusted, m, m');
      case BypassForwarders =>
        if m' != m { NothingBypassed(m, m'); }
        Ip.MeaningReflexive(trusted, m);
      case InlineAll(maxInst) =>
        if m' == m {
          Ip.MeaningReflexive(trusted, m);
        } else {
          InlinedMeaning(trusted, maxInst, m, m');
        }
    }
  }

  lemma NothingBypassed(m: Module, m': Module)
    requires Ff.PartlyBypassed(m, m', |m.functions|) && Safe(BypassForwarders, m)
    ensures m' == m
  {
    hide Ff.Bypassable;
    forall j | 0 <= j < |m.functions| ensures m'.functions[j] == m.functions[j] {
      assert Ff.BypassedCode(m, m.functions[j].Code()) == m.functions[j].Code();
    }
    assert m'.functions == m.functions;
  }

  lemma InlinedMeaning(trusted: bool, maxInst: nat, m: Module, m': Module)
    requires Accepted(m) && DidInline(maxInst, m, m') && SafeInline(maxInst, m)
    ensures SameMeaning(trusted, m, m')
  {
    hide Accepted, SameMeaning, I.BodiesExist, Ip.IsCandidates, Ir.AllPlainspoken, Ir.ArgumentsTyped,
         Ip.InlinedFunction;
    var can :| Ip.IsCandidates(m, maxInst, can) && I.BodiesExist(m, can) && Ip.Halfway(m, m', can, |can|);
    Ip.HalfwayMeaning(trusted, m, m', maxInst, can, |can|);
  }

  // ---- Whole pipelines ---------------------------------------------------------------------------

  // The modules between the transformations, each acceptable.
  ghost predicate History(stages: seq<Stage>, trace: seq<Module>) {
    && |trace| == |stages| + 1
    && (forall k :: 0 <= k < |trace| ==> Accepted(trace[k]))
    && forall k :: 0 <= k < |stages| ==> Did(stages[k], trace[k], trace[k + 1])
  }

  ghost predicate AllSafe(stages: seq<Stage>, trace: seq<Module>) {
    |trace| == |stages| + 1 && forall k :: 0 <= k < |stages| ==> Harmless(stages[k], trace[k], trace[k + 1])
  }

  // The main result: a pipeline whose every transformation is safe where it is applied, or
  // finds nothing to do there, keeps the meaning of the program.
  lemma {:induction false} PipelineMeaning(trusted: bool, stages: seq<Stage>, trace: seq<Module>, n: nat)
    requires History(stages, trace) && AllSafe(stages, trace) && n <= |stages|
    ensures SameMeaning(trusted, trace[0], trace[n])
    decreases n
  {
    hide Accepted, SameMeaning, Did, Harmless;
    if n == 0 {
      Ip.MeaningReflexive(trusted, trace[0]);
    } else {
      PipelineMeaning(trusted, stages, trace, n - 1);
      StageMeaning(trusted, stages[n - 1], trace[n - 1], trace[n]);
      SameMeaningTransitive(trusted, trace[0], trace[n - 1], trace[n]);
    }
  }

  lemma HistoryGrows(stages: seq<Stage>, trace: seq<Module>, stage: Stage, m: Module)
    requires History(stages, trace) && Accepted(m) && Did(stage, trace[|stages|], m)
    ensures History(stages + [stage], trace + [m])
  {
    hide Accepted, Did;
  }

  method RunLocal(ws: Workspace, work: Work, fi: nat)
    requires ws.Valid() && Accepted(ws.View()) && fi < |ws.functions|
    requires work.Peep? || work.TailCalls? || work.Fuse? || work.Reduce? || work.Fold?
    modifies ws
    ensures ws.Valid() && Accepted(ws.View()) && Did(On(work, fi), old(ws.View()), ws.View())
  {
    hide Accepted, P.ZerosMeetInts, P.SimplifiedCode, Tc.TailCallsSafe, Tc.TailsSafe, SameMeaning, Tc.TailCalled,
         Lf.FusionSafe, Lf.Fused, Cf.WindowsUnknown, Sr.WindowsUnreduced, Sr.UnitsMeetInts, Sr.Reduced, Cf.Folded,
         SameFunction;
    var changed;
    match work
    case Peep => changed := P.RunPeepholePass(ws, fi);
    case TailCalls => changed := Tc.RunTailcallPass(ws, fi);
    case Fuse => changed := Lf.RunLoopFusionPass(ws, fi);
    case Reduce => changed := Sr.RunStrengthReductionPass(ws, fi);
    case Fold => changed := Cf.RunConstFoldPass(ws, fi);
  }

  method RunFlow(ws: Workspace, work: Work, fi: nat)
    requires ws.Valid() && Accepted(ws.View()) && fi < |ws.functions|
    requires work.Sccp? || work.Hoist? || work.Sweep? || work.Compact? || work.Propagate? || work.Execute?
    modifies ws
    ensures ws.Valid() && Accepted(ws.View()) && Did(On(work, fi), old(ws.View()), ws.View())
  {
    hide Accepted, Sc.HandlersCovered, Li.IsPredecessors, Li.SideEntryFree, Li.HeadersPlain, Li.Hoisted, Sc.Rewritten,
         TryFree, SameFunction,
         D.ExactlyReachable, D.Swept, Cl.Compactable, Cl.Compacted, Cl.TargetsSurvive, SccpAnalysis.LeastSolution,
         Cp.PropagationSafe, Cp.PropagatedCode, Ce.Replaced, Li.SameWithStrings;
    AcceptedFunction(ws.View(), fi);
    var changed;
    match work
    case Sccp => changed := Sc.RunSccpPass(ws, fi);
    case Hoist => ghost var preds; changed, preds := Li.RunLicmHeaderLoadPass(ws, fi);
    case Sweep => changed := D.RunDcePass(ws, fi);
    case Compact => changed := Cl.RunCleanupPass(ws, fi);
    case Propagate => changed := Cp.RunCopyPropPass(ws, fi);
    case Execute => changed := Ce.RunO3ConstExecPass(ws, fi);
  }

  method RunWork(ws: Workspace, work: Work, fi: nat)
    requires ws.Valid() && Accepted(ws.View()) && fi < |ws.functions|
    modifies ws
    ensures ws.Valid() && Accepted(ws.View()) && Did(On(work, fi), old(ws.View()), ws.View())
  {
    hide Accepted, DidWork;
    if work.Peep? || work.TailCalls? || work.Fuse? || work.Reduce? || work.Fold? {
      RunLocal(ws, work, fi);
    } else {
      RunFlow(ws, work, fi);
    }
  }

  // Forwarders first, then small functions.
  method RunInlining(ws: Workspace, maxInst: nat, ghost done: seq<Stage>, ghost past: seq<Module>)
    returns (ghost trace: seq<Module>)
    requires ws.Valid() && Accepted(ws.View()) && History(done, past) && past[|done|] == ws.View()
    modifies ws
    ensures ws.Valid() && Accepted(ws.View()) && |ws.functions| == |old(ws.functions)|
    ensures var stages := done + [BypassForwarders, InlineAll(maxInst)];
            History(stages, trace) && past <= trace && trace[|stages|] == ws.View()
  {
    hide Accepted, DidInline, Did, Ff.PartlyBypassed, Ip.Halfway, Ip.InlinedFunction, Ip.IsCandidates, I.BodiesExist,
         Ip.Faithful, SameMeaning;
    ghost var before := ws.View();
    Ff.RunFfiForwarderBypassPass(ws);
    ghost var between := ws.View();
    BypassDid(before, between);
    HistoryGrows(done, past, BypassForwarders, between);
    ghost var can := Ip.RunInlineSmallPass(ws, maxInst);
    InlineDid(maxInst, between, ws.View(), can);
    HistoryGrows(done + [BypassForwarders], past + [between], InlineAll(maxInst), ws.View());
    trace := past + [between] + [ws.View()];
    assert done + [BypassForwarders, InlineAll(maxInst)] == done + [BypassForwarders] + [InlineAll(maxInst)];
  }

  // All the works of a pass on one function.
  method RunOnFunction(ws: Workspace, works: seq<Work>, fi: nat, ghost done: seq<Stage>, ghost past: seq<Module>)
    returns (ghost trace: seq<Module>)
    requires ws.Valid() && Accepted(ws.View()) && History(done, past) && past[|done|] == ws.View()
    requires fi < |ws.functions|
    modifies ws
    ensures ws.Valid() && Accepted(ws.View()) && |ws.functions| == |old(ws.functions)|
    ensures var stages := done + OnFunction(works, fi);
            History(stages, trace) && past <= trace && trace[|stages|] == ws.View()
  {
    hide Accepted, DidWork, DidInline;
    trace := past;
    ghost var stages := done;
    for k := 0 to |works|
      invariant ws.Valid() && Accepted(ws.View()) && |ws.functions| == |old(ws.functions)|
      invariant stages == done + OnFunction(works, fi)[..k] && History(stages, trace)
      invariant past <= trace && trace[|stages|] == ws.View()
    {
      RunWork(ws, works[k], fi);
      HistoryGrows(stages, trace, On(works[k], fi), ws.View());
      stages, trace := stages + [On(works[k], fi)], trace + [ws.View()];
    }
  }

  // One pass over all functions, or over the module as a whole.
  method RunPass(ws: Workspace, pass: Pass, options: Options, ghost done: seq<Stage>, ghost past: seq<Module>)
    returns (ghost trace: seq<Module>)
    requires ws.Valid() && Accepted(ws.View()) && History(done, past) && past[|done|] == ws.View()
    modifies ws
    ensures ws.Valid() && Accepted(ws.View()) && |ws.functions| == |old(ws.functions)|
    ensures var stages := done + StagesOf(pass, options, |ws.functions|);
            History(stages, trace) && past <= trace && trace[|stages|] == ws.View()
  {
    hide Accepted, Did;
    if pass == InlineSmall {
      trace := RunInlining(ws, options.inlineMaxInst, done, past);
    } else {
      trace := past;
      ghost var stages := done;
      var works := WorksOf(pass, options.level);
      for fi := 0 to |ws.functions|
        invariant ws.Valid() && Accepted(ws.View()) && |ws.functions| == |old(ws.functions)|
        invariant stages == done + OnFunctions(works, fi) && History(stages, trace)
        invariant past <= trace && trace[|stages|] == ws.View()
      {
        trace := RunOnFunction(ws, works, fi, stages, trace);
        stages := stages + OnFunction(works, fi);
      }
    }
  }

  lemma BypassDid(m: Module, m': Module)
    requires Ff.PartlyBypassed(m, m', |m'.functions|)
    ensures Did(BypassForwarders, m, m') && |m'.functions| == |m.functions|
  {
  }

  lemma InlineDid(maxInst: nat, m: Module, m': Module, can: seq<bool>)
    requires Ip.IsCandidates(m, maxInst, can) && I.BodiesExist(m, can) && Ip.Halfway(m, m', can, |can|)
    ensures Did(InlineAll(maxInst), m, m') && |m'.functions| == |m.functions|
  {
    hide Ip.InlinedFunction;
  }

  datatype Report = InvalidArgument(message: string) | NotVerified(status: Status) | Optimized(module_: Module)

  // The whole optimizer.  An acceptable module is always optimized into an acceptable one:
  // the final verification never fails.
  method OptimizeBytecodeModuleInPlace(m: Module, options: Options)
    returns (r: Report, passes: seq<Pass>, ghost trace: seq<Module>)
    requires KnownValues.Indexable(m.constants) && (options.verifyInput || Accepted(m))
    ensures options.inlineMaxInst == 0 ==> r.InvalidArgument?
    ensures options.inlineMaxInst > 0 && !Accepted(m) ==> r.NotVerified?
    ensures options.inlineMaxInst > 0 && Accepted(m) ==>
              && r.Optimized? && Accepted(r.module_)
              && passes == Without(Extended(BasePasses(options.level), options.enable), options.disable)
              && var stages := Schedule(passes, options, |m.functions|);
                 History(stages, trace) && trace[0] == m && trace[|stages|] == r.module_
  {
    hide Accepted, Did, BasePasses, Extended, Without, StagesOf;
    passes, trace := [], [];
    if options.inlineMaxInst == 0 { return InvalidArgument("inline_max_inst must be >= 1"), passes, trace; }
    if options.verifyInput {
      var status, _ := Verify(m);
      if !status.Ok? { return NotVerified(status), passes, trace; }
    }
    passes := BuildPassPipeline(options);
    var ws := new Workspace(m);
    trace := [m];
    ghost var stages: seq<Stage> := [];
    for k := 0 to |passes|
      invariant ws.Valid() && Accepted(ws.View()) && |ws.functions| == |m.functions|
      invariant stages == Schedule(passes[..k], options, |m.functions|)
      invariant History(stages, trace) && trace[0] == m && trace[|stages|] == ws.View()
    {
      trace := RunPass(ws, passes[k], options, stages, trace);
      stages := stages + StagesOf(passes[k], options, |m.functions|);
      assert passes[..k + 1][..k] == passes[..k];
    }
    assert passes[..|passes|] == passes;
    var m' := ws.rest.(functions := ws.functions, constants := ws.constants);
    var status, _ := Verify(m');
    if !status.Ok? { return NotVerified(status), passes, trace; }
    r := Optimized(m');
  }

  // Both together: if every transformation was safe, the optimized program is the old one.
  lemma OptimizedMeaning(trusted: bool, m: Module, m': Module, stages: seq<Stage>, trace: seq<Module>)
    requires History(stages, trace) && trace[0] == m && trace[|stages|] == m' && AllSafe(stages, trace)
    ensures SameMeaning(trusted, m, m')
  {
    PipelineMeaning(trusted, stages, trace, |stages|);
  }

  // ---- Where interned strings are kept ------------------------------------------------------------

  // Back edges may then be retargeted to the load of a string, too.
  ghost predicate Steady(stage: Stage, m: Module, m': Module) {
    || Harmless(stage, m, m')
    || (stage.On? && stage.work.Hoist? && stage.fi < |m.functions| && EnteredOnce(m.functions[stage.fi].Code()))
  }

  ghost predicate EnteredOnce(code: seq<Instruction>) {
    forall preds :: Li.IsPredecessors(code, preds) && |preds| == |code| ==> Li.SideEntryFree(code, preds)
  }

  lemma StageSteady(trusted: bool, stage: Stage, m: Module, m': Module)
    requires Accepted(m) && Accepted(m') && Did(stage, m, m') && Steady(stage, m, m')
    ensures SteadyMeaning(trusted, m, m')
  {
    hide Accepted, SameMeaning, SteadyMeaning, Safe, DidWork, EnteredOnce;
    if Harmless(stage, m, m') {
      StageMeaning(trusted, stage, m, m');
      SteadyFromSame(trusted, m, m');
    } else {
      HoistSteady(trusted, stage.fi, m, m');
    }
  }

  lemma HoistSteady(trusted: bool, fi: nat, m: Module, m': Module)
    requires Accepted(m) && Accepted(m') && Did(On(Hoist, fi), m, m')
    requires !Idle(On(Hoist, fi), m, m') && EnteredOnce(m.functions[fi].Code())
    ensures SteadyMeaning(trusted, m, m')
  {
    hide Accepted, SteadyMeaning, Li.IsPredecessors, Li.SideEntryFree, Li.Hoisted, TryFree;
    var code, code' := m.functions[fi].Code(), m'.functions[fi].Code();
    var preds :| Li.IsPredecessors(code, preds) && |preds| == |code|
      && code' == if TryFree(code) then Li.Hoisted(code, preds) else code;
    Li.HoistedMeaning(trusted, m, m', fi, preds);
  }

  lemma {:induction false} PipelineSteady(trusted: bool, stages: seq<Stage>, trace: seq<Module>, n: nat)
    requires History(stages, trace) && n <= |stages|
    requires forall k :: 0 <= k < |stages| ==> Steady(stages[k], trace[k], trace[k + 1])
    ensures SteadyMeaning(trusted, trace[0], trace[n])
    decreases n
  {
    hide Accepted, SteadyMeaning, SameMeaning, Did, Steady;
    if n == 0 {
      Ip.MeaningReflexive(trusted, trace[0]);
      SteadyFromSame(trusted, trace[0], trace[0]);
    } else {
      PipelineSteady(trusted, stages, trace, n - 1);
      StageSteady(trusted, stages[n - 1], trace[n - 1], trace[n]);
      SteadyTransitive(trusted, trace[0], trace[n - 1], trace[n]);
    }
  }

  // For any options: where interned strings are kept, the optimized program is the old one if
  // every transformation was safe, loops with strings at their headers included.
  lemma OptimizedSteady(trusted: bool, m: Module, m': Module, stages: seq<Stage>, trace: seq<Module>)
    requires History(stages, trace) && trace[0] == m && trace[|stages|] == m'
    requires forall k :: 0 <= k < |stages| ==> Steady(stages[k], trace[k], trace[k + 1])
    ensures SteadyMeaning(trusted, m, m')
  {
    hide Accepted, SteadyMeaning, Did, Steady;
    PipelineSteady(trusted, stages, trace, |stages|);
  }
}
