/** The generational mark/sweep collector and its bookkeeping. */
module Gc {
  import opened Bytecode

  datatype Cell = Cell(marked: bool, pinned: bool, generation: U8, edges: set<nat>, finalizer: Option<nat>)

  type Heap = map<nat, Cell>

  // ---- Reachability ------------------------------------------------------------------------------

  predicate IsStart(heap: Heap, roots: set<nat>, x: nat) {
    x in heap && (x in roots || heap[x].pinned)
  }

  predicate HasEdge(heap: Heap, x: nat, y: nat) {
    x in heap && y in heap && y in heap[x].edges
  }

  ghost predicate IsPath(heap: Heap, roots: set<nat>, path: seq<nat>, x: nat) {
    && path != [] && IsStart(heap, roots, path[0]) && path[|path| - 1] == x
    && forall k :: 0 <= k < |path| - 1 ==> HasEdge(heap, path[k], path[k + 1])
  }

  ghost predicate Reachable(heap: Heap, roots: set<nat>, x: nat) {
    exists path :: IsPath(heap, roots, path, x)
  }

  lemma ReachableStart(heap: Heap, roots: set<nat>, x: nat)
    requires IsStart(heap, roots, x)
    ensures Reachable(heap, roots, x)
  {
    assert IsPath(heap, roots, [x], x);
  }

  lemma ReachableEdge(heap: Heap, roots: set<nat>, x: nat, y: nat)
    requires Reachable(heap, roots, x) && HasEdge(heap, x, y)
    ensures Reachable(heap, roots, y)
  {
    var path :| IsPath(heap, roots, path, x);
    assert IsPath(heap, roots, path + [y], y);
  }

  // A set with the starts in it that edges do not lead out of has everything reachable.
  lemma {:induction false} PathInside(heap: Heap, roots: set<nat>, path: seq<nat>, x: nat, s: set<nat>)
    requires IsPath(heap, roots, path, x)
    requires forall r :: IsStart(heap, roots, r) ==> r in s
    requires forall a, b :: a in s && HasEdge(heap, a, b) ==> b in s
    ensures x in s && x in heap
    decreases |path|
  {
    if |path| > 1 {
      var before := path[..|path| - 1];
      assert IsPath(heap, roots, before, path[|path| - 2]);
      PathInside(heap, roots, before, path[|path| - 2], s);
      assert HasEdge(heap, path[|path| - 2], path[|path| - 2 + 1]);
    }
  }

  lemma ReachableInside(heap: Heap, roots: set<nat>, x: nat, s: set<nat>)
    requires Reachable(heap, roots, x)
    requires forall r :: IsStart(heap, roots, r) ==> r in s
    requires forall a, b :: a in s && HasEdge(heap, a, b) ==> b in s
    ensures x in s && x in heap
  {
    var path :| IsPath(heap, roots, path, x);
    PathInside(heap, roots, path, x, s);
  }

  // ---- What the phases make of the heap ------------------------------------------------------------

  ghost function MarkedHeap(heap: Heap, live: set<nat>): Heap {
    map x | x in heap :: heap[x].(marked := heap[x].marked || x in live)
  }

  ghost function PromotedHeap(heap: Heap): Heap {
    map x | x in heap ::
      if heap[x].marked && heap[x].generation == 0 then heap[x].(generation := 1) else heap[x]
  }

  // What a collection is for: the live objects, and after a minor one the old ones too.
  ghost function AfterMinor(heap: Heap, live: set<nat>): Heap {
    map x | x in heap && (x in live || heap[x].generation > 0) ::
      if heap[x].generation == 0 then heap[x].(generation := 1) else heap[x]
  }

  ghost function AfterMajor(heap: Heap, live: set<nat>): Heap {
    map x | x in heap && x in live :: heap[x]
  }

  ghost predicate IsLive(heap: Heap, roots: set<nat>, live: set<nat>) {
    forall x :: x in live <==> Reachable(heap, roots, x)
  }

  ghost predicate Unmarked(heap: Heap) { forall x :: x in heap ==> !heap[x].marked }

  lemma LiveInHeap(heap: Heap, roots: set<nat>, live: set<nat>)
    requires IsLive(heap, roots, live)
    ensures live <= heap.Keys
    ensures forall x :: x in heap && (x in roots || heap[x].pinned) ==> x in live
  {
    forall x | x in live ensures x in heap {
      var path :| IsPath(heap, roots, path, x);
      PathInside(heap, roots, path, x, heap.Keys);
    }
    forall x | x in heap && (x in roots || heap[x].pinned) ensures x in live { ReachableStart(heap, roots, x); }
  }

  lemma MinorPhases(heap: Heap, live: set<nat>)
    requires Unmarked(heap) && live <= heap.Keys && forall x :: x in heap && heap[x].pinned ==> x in live
    ensures SweptHeap(PromotedHeap(MarkedHeap(heap, live)), true) == AfterMinor(heap, live)
    ensures Young(AfterMinor(heap, live)) == {} && Unmarked(AfterMinor(heap, live))
  {
    var marked := MarkedHeap(heap, live);
    var promoted := PromotedHeap(marked);
    var swept, after := SweptHeap(promoted, true), AfterMinor(heap, live);
    forall x ensures (x in swept <==> x in after) && (x in swept ==> swept[x] == after[x]) {
      if x in heap { assert promoted[x].marked == (x in live); }
    }
  }

  lemma MajorPhases(heap: Heap, live: set<nat>)
    requires Unmarked(heap) && live <= heap.Keys && forall x :: x in heap && heap[x].pinned ==> x in live
    ensures SweptHeap(MarkedHeap(heap, live), false) == AfterMajor(heap, live)
    ensures Unmarked(AfterMajor(heap, live)) && AfterMajor(heap, live).Keys == live
  {
    var swept, after := SweptHeap(MarkedHeap(heap, live), false), AfterMajor(heap, live);
    forall x ensures (x in swept <==> x in after) && (x in swept ==> swept[x] == after[x]) {
    }
  }

  lemma MarkNone(heap: Heap)
    ensures MarkedHeap(heap, {}) == heap
  {
  }

  lemma MarkOne(heap: Heap, live: set<nat>, x: nat)
    requires x in heap
    ensures x in MarkedHeap(heap, live)
    ensures MarkedHeap(heap, live + {x}) == MarkedHeap(heap, live)[x := MarkedHeap(heap, live)[x].(marked := true)]
  {
  }

  lemma MarkedYoung(heap: Heap, live: set<nat>)
    ensures Young(MarkedHeap(heap, live)) == Young(heap)
  {
  }

  lemma PhaseKeys(heap: Heap, live: set<nat>)
    ensures MarkedHeap(heap, live).Keys == heap.Keys && PromotedHeap(heap).Keys == heap.Keys
    ensures SameFinalizers(heap, MarkedHeap(heap, live)) && SameFinalizers(heap, PromotedHeap(heap))
  {
  }

  ghost predicate SameFinalizers(heap: Heap, heap': Heap) {
    heap'.Keys == heap.Keys && forall x :: x in heap ==> heap'[x].finalizer == heap[x].finalizer
  }

  predicate Survives(c: Cell, youngOnly: bool) {
    (youngOnly && c.generation > 0) || c.marked || c.pinned
  }

  ghost function SweptHeap(heap: Heap, youngOnly: bool): Heap {
    map x | x in heap && Survives(heap[x], youngOnly) :: heap[x].(marked := false)
  }

  function Young(heap: Heap): set<nat> { set x | x in heap && heap[x].generation == 0 }

  // How many references lead to x.
  function LeadersTo(refs: map<nat, nat>, x: nat): set<nat> { set r | r in refs && refs[r] == x }

  function Leading(refs: map<nat, nat>, x: nat): nat { |LeadersTo(refs, x)| }

  lemma LeadingMore(refs: map<nat, nat>, r: nat, t: nat, x: nat)
    requires r !in refs
    ensures Leading(refs[r := t], x) == Leading(refs, x) + if t == x then 1 else 0
  {
    assert LeadersTo(refs[r := t], x) == if t == x then LeadersTo(refs, x) + {r} else LeadersTo(refs, x);
  }

  lemma YoungUpdated(heap: Heap, x: nat, c: Cell)
    requires x in heap && c.generation == heap[x].generation
    ensures Young(heap[x := c]) == Young(heap)
  {
  }

  lemma YoungRemoved(heap: Heap, x: nat)
    requires x in heap
    ensures Young(heap - {x}) == Young(heap) - {x}
    ensures |Young(heap - {x})| == |Young(heap)| - if heap[x].generation == 0 then 1 else 0
  {
    assert Young(heap - {x}) == Young(heap) - {x};
    assert x in Young(heap) <==> heap[x].generation == 0;
  }

  // References whose target is not among the dead.
  function Lasting(refs: map<nat, nat>, dead: set<nat>): map<nat, nat> {
    map r | r in refs && refs[r] !in dead :: refs[r]
  }

  function Lost(refs: map<nat, nat>, dead: set<nat>): map<nat, nat> {
    map r | r in refs && refs[r] in dead :: refs[r]
  }

  lemma LeadingTogether(a: map<nat, nat>, b: map<nat, nat>, x: nat)
    requires a.Keys !! b.Keys
    ensures Leading(a + b, x) == Leading(a, x) + Leading(b, x)
  {
    assert LeadersTo(a + b, x) == LeadersTo(a, x) + LeadersTo(b, x) && LeadersTo(a, x) !! LeadersTo(b, x);
  }

  // Dropping what cannot be reached leaves what can be reached as it was.
  lemma ReachableKept(heap: Heap, heap': Heap, roots: set<nat>, x: nat)
    requires forall y :: y in heap' ==>
             y in heap && heap'[y].edges == heap[y].edges && heap'[y].pinned == heap[y].pinned
    requires forall y :: Reachable(heap, roots, y) ==> y in heap'
    ensures Reachable(heap', roots, x) <==> Reachable(heap, roots, x)
  {
    if path :| IsPath(heap, roots, path, x) { PathKept(heap, heap', roots, path, x); }
    if path :| IsPath(heap', roots, path, x) {
      forall k | 0 <= k < |path| - 1 ensures HasEdge(heap, path[k], path[k + 1]) {
        assert HasEdge(heap', path[k], path[k + 1]);
      }
      assert IsPath(heap, roots, path, x);
    }
  }

  lemma PathKept(heap: Heap, heap': Heap, roots: set<nat>, path: seq<nat>, x: nat)
    requires forall y :: y in heap' ==>
             y in heap && heap'[y].edges == heap[y].edges && heap'[y].pinned == heap[y].pinned
    requires forall y :: Reachable(heap, roots, y) ==> y in heap'
    requires IsPath(heap, roots, path, x)
    ensures IsPath(heap', roots, path, x)
  {
    forall k | 0 <= k < |path| ensures path[k] in heap' {
      assert forall j :: 0 <= j < k ==> HasEdge(heap, path[j], path[j + 1]);
      assert IsPath(heap, roots, path[..k + 1], path[k]);
    }
    forall k | 0 <= k < |path| - 1 ensures HasEdge(heap', path[k], path[k + 1]) {
      assert HasEdge(heap, path[k], path[k + 1]);
    }
  }

  // The finalizers of the reclaimed objects, each once.
  ghost predicate CallsOf(heap: Heap, reclaimed: set<nat>, calls: seq<(nat, nat)>) {
    && (forall k :: 0 <= k < |calls| ==>
         calls[k].0 in reclaimed && calls[k].0 in heap && heap[calls[k].0].finalizer == Some(calls[k].1))
    && (forall x :: x in reclaimed && x in heap && heap[x].finalizer.Some? ==>
        exists k :: 0 <= k < |calls| && calls[k].0 == x)
    && (forall j, k :: 0 <= j < k < |calls| ==> calls[j].0 != calls[k].0)
  }

  lemma SameCalls(heap: Heap, heap': Heap, reclaimed: set<nat>, calls: seq<(nat, nat)>)
    requires SameFinalizers(heap, heap') && CallsOf(heap', reclaimed, calls)
    ensures CallsOf(heap, reclaimed, calls)
  {
    assert forall x :: x in heap <==> x in heap';
  }

  // ---- Balances ----------------------------------------------------------------------------------

  // Every id handed out is live or dead, never both.
  ghost predicate IdsBalance(heap: Heap, dead: set<nat>, nextId: nat) {
    (forall x :: x in heap || x in dead <==> 0 < x < nextId) && heap.Keys !! dead
  }

  // Each dead object that had a finalizer was finalized exactly once, and no other was.
  ghost predicate FinalizersBalance(owing: set<nat>, finalized: seq<nat>, dead: set<nat>) {
    owing <= dead && forall x :: multiset(finalized)[x] == if x in owing then 1 else 0
  }

  // Each phantom reference is waiting or has fired, and fires for dead targets only.
  ghost predicate RefsBalance(
      weakRefs: map<nat, nat>, phantomRefs: map<nat, nat>, fired: map<nat, nat>, dead: set<nat>, nextRefId: nat)
  {
    && (forall r :: r in weakRefs || r in phantomRefs || r in fired ==> 0 < r < nextRefId)
    && weakRefs.Keys !! phantomRefs.Keys && phantomRefs.Keys !! fired.Keys
    && (forall r :: r in fired ==> fired[r] in dead)
  }

  // The target of each reference that fired was queued exactly once.
  ghost predicate QueueBalances(queued: seq<nat>, fired: map<nat, nat>) {
    forall x: nat :: multiset(queued)[x] == Leading(fired, x)
  }

  lemma IdAdded(heap: Heap, dead: set<nat>, id: nat, c: Cell)
    requires IdsBalance(heap, dead, id) && c.generation == 0 && id > 0
    ensures id !in heap && id !in dead && IdsBalance(heap[id := c], dead, id + 1)
    ensures |Young(heap[id := c])| == |Young(heap)| + 1
    ensures Unmarked(heap) && !c.marked ==> Unmarked(heap[id := c])
    ensures forall refs :: Named(refs, heap) ==> Named(refs, heap[id := c])
  {
    assert Young(heap[id := c]) == Young(heap) + {id};
  }

  lemma SameIds(heap: Heap, heap': Heap, dead: set<nat>, nextId: nat)
    requires IdsBalance(heap, dead, nextId) && heap'.Keys == heap.Keys
    ensures IdsBalance(heap', dead, nextId)
  {
    assert forall x :: x in heap' <==> x in heap'.Keys;
    assert forall x :: x in heap <==> x in heap.Keys;
  }

  ghost predicate Named(refs: map<nat, nat>, heap: Heap) { forall r :: r in refs ==> refs[r] in heap }

  // After a collection that keeps the live, roots and references name survivors only.
  lemma NamesSurvive(
      heap: Heap, heap': Heap, roots: set<nat>, live: set<nat>, weakRefs: map<nat, nat>, phantomRefs: map<nat, nat>)
    requires IsLive(heap, roots, live) && (forall x :: x in roots ==> x in heap)
    requires (forall x :: x in live ==> x in heap') && Named(weakRefs, heap) && Named(phantomRefs, heap)
    ensures var reclaimed := heap.Keys - heap'.Keys;
            && roots - reclaimed == roots && (forall x :: x in roots ==> x in heap')
            && Named(Lasting(weakRefs, reclaimed), heap') && Named(Lasting(phantomRefs, reclaimed), heap')
  {
    LiveInHeap(heap, roots, live);
  }

  // What was live still is, and nothing else.
  lemma LiveKept(heap: Heap, heap': Heap, roots: set<nat>, live: set<nat>)
    requires IsLive(heap, roots, live)
    requires forall y :: y in heap' ==>
             y in heap && heap'[y].edges == heap[y].edges && heap'[y].pinned == heap[y].pinned
    requires forall y :: y in live ==> y in heap'
    ensures IsLive(heap', roots, live)
  {
    forall x ensures x in live <==> Reachable(heap', roots, x) { ReachableKept(heap, heap', roots, x); }
  }

  lemma MinorKeeps(
      heap: Heap, roots: set<nat>, live: set<nat>, weakRefs: map<nat, nat>, phantomRefs: map<nat, nat>)
    requires IsLive(heap, roots, live) && (forall x :: x in roots ==> x in heap)
    requires Named(weakRefs, heap) && Named(phantomRefs, heap)
    ensures var heap' := AfterMinor(heap, live);
            var reclaimed := heap.Keys - heap'.Keys;
            && roots - reclaimed == roots && (forall x :: x in roots ==> x in heap')
            && Named(Lasting(weakRefs, reclaimed), heap') && Named(Lasting(phantomRefs, reclaimed), heap')
            && IsLive(heap', roots, live)
  {
    hide IsLive, Named, Lasting;
    LiveInHeap(heap, roots, live);
    NamesSurvive(heap, AfterMinor(heap, live), roots, live, weakRefs, phantomRefs);
    LiveKept(heap, AfterMinor(heap, live), roots, live);
  }

  lemma MajorKeeps(
      heap: Heap, roots: set<nat>, live: set<nat>, weakRefs: map<nat, nat>, phantomRefs: map<nat, nat>)
    requires IsLive(heap, roots, live) && (forall x :: x in roots ==> x in heap)
    requires Named(weakRefs, heap) && Named(phantomRefs, heap)
    ensures var heap' := AfterMajor(heap, live);
            var reclaimed := heap.Keys - heap'.Keys;
            && roots - reclaimed == roots && (forall x :: x in roots ==> x in heap')
            && Named(Lasting(weakRefs, reclaimed), heap') && Named(Lasting(phantomRefs, reclaimed), heap')
            && IsLive(heap', roots, live)
  {
    hide IsLive, Named, Lasting;
    LiveInHeap(heap, roots, live);
    NamesSurvive(heap, AfterMajor(heap, live), roots, live, weakRefs, phantomRefs);
    LiveKept(heap, AfterMajor(heap, live), roots, live);
  }

  lemma IdsStillBalance(heap: Heap, heap': Heap, dead: set<nat>, nextId: nat)
    requires IdsBalance(heap, dead, nextId) && heap'.Keys <= heap.Keys
    ensures IdsBalance(heap', dead + (heap.Keys - heap'.Keys), nextId)
  {
  }

  lemma RefsStillBalance(
      weakRefs: map<nat, nat>, phantomRefs: map<nat, nat>, fired: map<nat, nat>, dead: set<nat>, nextRefId: nat,
      reclaimed: set<nat>)
    requires RefsBalance(weakRefs, phantomRefs, fired, dead, nextRefId)
    ensures RefsBalance(Lasting(weakRefs, reclaimed), Lasting(phantomRefs, reclaimed),
                        fired + Lost(phantomRefs, reclaimed), dead + reclaimed, nextRefId)
    ensures fired.Keys !! Lost(phantomRefs, reclaimed).Keys
  {
  }

  // The targets of the lost references, in some order, behind the queue.
  ghost predicate QueuedBehind(queue: seq<nat>, queue': seq<nat>, lost: map<nat, nat>) {
    queue <= queue' && forall x :: multiset(queue')[x] == multiset(queue)[x] + Leading(lost, x)
  }

  lemma QueueStillBalances(
      drained: seq<nat>, queue: seq<nat>, queue': seq<nat>, fired: map<nat, nat>, lost: map<nat, nat>)
    requires QueueBalances(drained + queue, fired) && fired.Keys !! lost.Keys && QueuedBehind(queue, queue', lost)
    ensures QueueBalances(drained + queue', fired + lost)
  {
    forall x: nat ensures multiset(drained + queue')[x] == Leading(fired + lost, x) {
      LeadingTogether(fired, lost, x);
      assert multiset(drained + queue')[x] == multiset(drained)[x] + multiset(queue')[x];
      assert multiset(drained + queue)[x] == multiset(drained)[x] + multiset(queue)[x];
    }
  }

  // ---- The controller -----------------------------------------------------------------------------------

  class GcController {
    var heap: Heap
    var roots: set<nat>
    var weakRefs: map<nat, nat>
    var phantomRefs: map<nat, nat>
    var phantomQueue: seq<nat>
    var nextId: nat
    var nextRefId: nat
    var youngCount: nat
    // What has become of everything so far: dead objects, those of them that had a finalizer,
    // finalizers called, phantom references that fired, and targets taken from the queue.
    ghost var dead: set<nat>
    ghost var owing: set<nat>
    ghost var finalized: seq<nat>
    ghost var fired: map<nat, nat>
    ghost var drained: seq<nat>

    // Everything refers to live objects, marks are cleared, and the young are counted.
    ghost predicate Tidy()
      reads this
    {
      && Unmarked(heap)
      && (forall x :: x in roots ==> x in heap)
      && Named(weakRefs, heap) && Named(phantomRefs, heap)
      && youngCount == |Young(heap)|
    }

    // Nothing is lost and nothing happens twice: every id handed out is live or dead and never
    // both; each dead object that had a finalizer was finalized exactly once; each phantom
    // reference is waiting or has fired, and its target was queued exactly once.
    ghost predicate Conserved()
      reads this
    {
      && IdsBalance(heap, dead, nextId) && FinalizersBalance(owing, finalized, dead)
      && RefsBalance(weakRefs, phantomRefs, fired, dead, nextRefId) && QueueBalances(drained + phantomQueue, fired)
    }

    ghost predicate Valid()
      reads this
    {
      nextId > 0 && nextRefId > 0 && Tidy() && Conserved()
    }

    constructor ()
      ensures Valid() && heap == map[] && roots == {}
    {
      heap, roots, weakRefs, phantomRefs, phantomQueue := map[], {}, map[], map[], [];
      nextId, nextRefId, youngCount := 1, 1, 0;
      dead, owing, finalized, fired, drained := {}, {}, [], map[], [];
    }

    // A fresh object, and whether a major collection is due.
    method Allocate(youngThreshold: nat, oldThreshold: nat) returns (id: nat, major: bool)
      requires Valid()
      modifies this`heap, this`nextId, this`youngCount
      ensures Valid()
      ensures id !in old(heap) && id !in dead && heap == old(heap)[id := Cell(false, false, 0, {}, None)]
      ensures major <==> (youngCount > youngThreshold && roots != {}) || |heap| > oldThreshold
    {
      hide Young, IdsBalance, FinalizersBalance, RefsBalance, QueueBalances, Named, Unmarked;
      id := nextId;
      nextId := nextId + 1;
      IdAdded(heap, dead, id, Cell(false, false, 0, {}, None));
      heap := heap[id := Cell(false, false, 0, {}, None)];
      youngCount := youngCount + 1;
      major := (youngCount > youngThreshold && roots != {}) || |heap| > oldThreshold;
    }

    method Update(id: nat, c: Cell)
      requires Valid() && id in heap && !c.marked && c.generation == heap[id].generation
      modifies this`heap
      ensures Valid() && heap == old(heap)[id := c]
    {
      assert Young(heap[id := c]) == Young(heap);
      assert heap[id := c].Keys == heap.Keys;
      heap := heap[id := c];
    }

    method AddReference(from: nat, to: nat) returns (ok: bool)
      requires Valid()
      modifies this`heap
      ensures Valid() && (ok <==> from in old(heap) && to in old(heap))
      ensures heap == if ok then old(heap)[from := old(heap)[from].(edges := old(heap)[from].edges + {to})]
                      else old(heap)
    {
      if from !in heap || to !in heap { return false; }
      Update(from, heap[from].(edges := heap[from].edges + {to}));
      ok := true;
    }

    method RemoveReference(from: nat, to: nat) returns (ok: bool)
      requires Valid()
      modifies this`heap
      ensures Valid() && (ok <==> from in old(heap))
      ensures heap == if ok then old(heap)[from := old(heap)[from].(edges := old(heap)[from].edges - {to})]
                      else old(heap)
    {
      if from !in heap { return false; }
      Update(from, heap[from].(edges := heap[from].edges - {to}));
      ok := true;
    }

    method AddRoot(id: nat) returns (ok: bool)
      requires Valid()
      modifies this`roots
      ensures Valid() && (ok <==> id in heap) && roots == if ok then old(roots) + {id} else old(roots)
    {
      if id !in heap { return false; }
      roots := roots + {id};
      ok := true;
    }

    method RemoveRoot(id: nat)
      requires Valid()
      modifies this`roots
      ensures Valid() && roots == old(roots) - {id}
    {
      roots := roots - {id};
    }

    method SetPinned(id: nat, pinned: bool) returns (ok: bool)
      requires Valid()
      modifies this`heap
      ensures Valid() && (ok <==> id in old(heap))
      ensures heap == if ok then old(heap)[id := old(heap)[id].(pinned := pinned)] else old(heap)
    {
      if id !in heap { return false; }
      Update(id, heap[id].(pinned := pinned));
      ok := true;
    }

    method RegisterFinalizer(id: nat, finalizer: nat) returns (ok: bool)
      requires Valid()
      modifies this`heap
      ensures Valid() && (ok <==> id in old(heap))
      ensures heap == if ok then old(heap)[id := old(heap)[id].(finalizer := Some(finalizer))] else old(heap)
    {
      if id !in heap { return false; }
      Update(id, heap[id].(finalizer := Some(finalizer)));
      ok := true;
    }

    method CreateWeakRef(id: nat) returns (r: Option<nat>)
      requires Valid()
      modifies this`weakRefs, this`nextRefId
      ensures Valid() && (r.Some? <==> id in heap)
      ensures r.Some? ==> r.value !in old(weakRefs) && r.value !in phantomRefs && r.value !in fired
      ensures weakRefs == if r.Some? then old(weakRefs)[r.value := id] else old(weakRefs)
    {
      if id !in heap { return None; }
      weakRefs := weakRefs[nextRefId := id];
      r := Some(nextRefId);
      nextRefId := nextRefId + 1;
    }

    method CreatePhantomRef(id: nat) returns (r: Option<nat>)
      requires Valid()
      modifies this`phantomRefs, this`nextRefId
      ensures Valid() && (r.Some? <==> id in heap)
      ensures r.Some? ==> r.value !in old(phantomRefs) && r.value !in weakRefs && r.value !in fired
      ensures phantomRefs == if r.Some? then old(phantomRefs)[r.value := id] else old(phantomRefs)
    {
      if id !in heap { return None; }
      phantomRefs := phantomRefs[nextRefId := id];
      r := Some(nextRefId);
      nextRefId := nextRefId + 1;
    }

    // The target, if it lives: a weak reference in the table always leads to a live object.
    method ResolveWeakRef(r: nat) returns (id: Option<nat>)
      requires Valid()
      ensures id == if r in weakRefs then Some(weakRefs[r]) else None
    {
      if r !in weakRefs || weakRefs[r] !in heap { return None; }
      id := Some(weakRefs[r]);
    }

    method DrainPhantomQueue() returns (out: seq<nat>)
      requires Valid()
      modifies this`phantomQueue, this`drained
      ensures Valid() && out == old(phantomQueue) && phantomQueue == []
    {
      out := phantomQueue;
      drained := drained + phantomQueue;
      assert drained + [] == drained;
      phantomQueue := [];
    }

    // ---- Collections ---------------------------------------------------------------------------

    method StartingPoints() returns (queue: seq<nat>)
      ensures forall x :: x in queue <==> IsStart(heap, roots, x)
    {
      var starts := set x | x in heap && (x in roots || heap[x].pinned);
      queue := PushAll([], starts);
    }

    // Breadth first from roots and pins: exactly what can be reached.
    method MarkFromRoots() returns (marked: set<nat>)
      requires forall x :: x in roots ==> x in heap
      ensures IsLive(heap, roots, marked)
    {
      hide Reachable;
      var queue := StartingPoints();
      marked := {};
      forall x | x in queue ensures Reachable(heap, roots, x) { ReachableStart(heap, roots, x); }
      while queue != []
        invariant forall x :: x in marked || x in queue ==> Reachable(heap, roots, x) && x in heap
        invariant forall x :: IsStart(heap, roots, x) ==> x in marked || x in queue
        invariant forall x, y :: x in marked && HasEdge(heap, x, y) ==> y in marked || y in queue
        decreases heap.Keys - marked, |queue|
      {
        var x := queue[0];
        queue := queue[1..];
        if x !in marked {
          ghost var before := marked;
          marked := marked + {x};
          var edges := set y | y in heap[x].edges && y in heap && y !in marked;
          forall y | y in edges ensures Reachable(heap, roots, y) { ReachableEdge(heap, roots, x, y); }
          queue := PushAll(queue, edges);
          assert heap.Keys - marked < heap.Keys - before;
        }
      }
      forall x | Reachable(heap, roots, x) ensures x in marked { ReachableInside(heap, roots, x, marked); }
    }

    method PushAll(queue: seq<nat>, edges: set<nat>) returns (queue': seq<nat>)
      ensures queue <= queue' && forall y :: y in queue' <==> y in queue || y in edges
    {
      queue' := queue;
      var left := edges;
      while left != {}
        invariant left <= edges && queue <= queue'
        invariant forall y :: y in queue' || y in left <==> y in queue || y in edges
        decreases |left|
      {
        var y :| y in left;
        left := left - {y};
        queue' := queue' + [y];
      }
    }

    method SetMarks(marked: set<nat>)
      requires youngCount == |Young(heap)| && marked <= heap.Keys
      modifies this`heap
      ensures heap == MarkedHeap(old(heap), marked) && youngCount == |Young(heap)|
    {
      MarkNone(heap);
      hide MarkedHeap, Young;
      ghost var was := heap;
      var todo := marked;
      assert marked - todo == {};
      while todo != {}
        invariant todo <= marked && heap == MarkedHeap(was, marked - todo)
        decreases |todo|
      {
        var x :| x in todo;
        MarkOne(was, marked - todo, x);
        assert marked - (todo - {x}) == (marked - todo) + {x};
        todo := todo - {x};
        heap := heap[x := heap[x].(marked := true)];
      }
      assert marked - todo == marked;
      MarkedYoung(was, marked);
    }

    method PromoteYoung()
      requires youngCount == |Young(heap)|
      modifies this`heap, this`youngCount
      ensures heap == PromotedHeap(old(heap)) && youngCount == |Young(heap)|
    {
      var todo := heap.Keys;
      while todo != {}
        invariant todo <= old(heap).Keys && heap.Keys == old(heap).Keys
        invariant forall x :: x in heap ==> heap[x] == if x in todo then old(heap)[x] else PromotedHeap(old(heap))[x]
        invariant youngCount == |Young(heap)|
        decreases |todo|
      {
        var x :| x in todo;
        todo := todo - {x};
        if heap[x].marked && heap[x].generation == 0 {
          assert Young(heap[x := heap[x].(generation := 1)]) == Young(heap) - {x};
          assert x in Young(heap);
          heap := heap[x := heap[x].(generation := 1)];
          if youngCount > 0 { youngCount := youngCount - 1; }
        }
      }
    }

    // Erases what neither survives nor is spared, and collects its finalizers.
    method SweepHeap(youngOnly: bool) returns (reclaimed: set<nat>, calls: seq<(nat, nat)>)
      requires youngCount == |Young(heap)|
      modifies this`heap, this`youngCount
      ensures heap == SweptHeap(old(heap), youngOnly) && youngCount == |Young(heap)|
      ensures reclaimed == old(heap).Keys - heap.Keys && CallsOf(old(heap), reclaimed, calls)
    {
      ghost var was := heap;
      var todo := heap.Keys;
      reclaimed, calls := {}, [];
      SweepStarts(was, youngOnly);
      hide CallsOf, Survives, Young, PartlySwept, SweptHeap;
      while todo != {}
        invariant PartlySwept(was, heap, todo, youngOnly, reclaimed)
        invariant youngCount == |Young(heap)| && CallsOf(was, reclaimed, calls)
        decreases |todo|
      {
        var x :| x in todo;
        SweepNext(was, heap, todo, youngOnly, reclaimed, x);
        todo := todo - {x};
        var cell := heap[x];
        if Survives(cell, youngOnly) {
          heap := heap[x := cell.(marked := false)];
        } else {
          OneMoreCall(was, reclaimed, calls, x);
          if cell.finalizer.Some? { calls := calls + [(x, cell.finalizer.value)]; }
          if cell.generation == 0 && youngCount > 0 { youngCount := youngCount - 1; }
          reclaimed := reclaimed + {x};
          heap := heap - {x};
        }
      }
      SweepDone(was, heap, youngOnly, reclaimed);
    }

    method SweepWeakRefs(reclaimed: set<nat>)
      modifies this`weakRefs
      ensures weakRefs == Lasting(old(weakRefs), reclaimed)
    {
      var todo := weakRefs.Keys;
      while todo != {}
        invariant todo <= weakRefs.Keys <= old(weakRefs).Keys
        invariant forall r :: r in old(weakRefs) ==>
                    (r in weakRefs <==> r in todo || old(weakRefs)[r] !in reclaimed)
                    && (r in weakRefs ==> weakRefs[r] == old(weakRefs)[r])
        decreases |todo|
      {
        var r :| r in todo;
        todo := todo - {r};
        if weakRefs[r] in reclaimed { weakRefs := weakRefs - {r}; }
      }
    }

    // Dead targets are queued as their references go.
    method SweepPhantomRefs(reclaimed: set<nat>)
      modifies this`phantomRefs, this`phantomQueue
      ensures phantomRefs == Lasting(old(phantomRefs), reclaimed)
      ensures QueuedBehind(old(phantomQueue), phantomQueue, Lost(old(phantomRefs), reclaimed))
    {
      var todo := phantomRefs.Keys;
      ghost var lost: map<nat, nat> := map[];
      while todo != {}
        invariant todo <= phantomRefs.Keys <= old(phantomRefs).Keys && old(phantomQueue) <= phantomQueue
        invariant forall r :: r in old(phantomRefs) ==>
                    (r in phantomRefs <==> r in todo || old(phantomRefs)[r] !in reclaimed)
                    && (r in phantomRefs ==> phantomRefs[r] == old(phantomRefs)[r])
        invariant forall r :: r in lost <==> r in old(phantomRefs) && r !in phantomRefs
        invariant forall r :: r in lost ==> lost[r] == old(phantomRefs)[r]
        invariant forall x :: multiset(phantomQueue)[x] == multiset(old(phantomQueue))[x] + Leading(lost, x)
        decreases |todo|
      {
        var r :| r in todo;
        todo := todo - {r};
        var target := phantomRefs[r];
        if target in reclaimed {
          forall x ensures Leading(lost[r := target], x) == Leading(lost, x) + if target == x then 1 else 0 {
            LeadingMore(lost, r, target, x);
          }
          lost := lost[r := target];
          phantomQueue := phantomQueue + [target];
          phantomRefs := phantomRefs - {r};
        }
      }
      assert lost == Lost(old(phantomRefs), reclaimed);
    }

    // The heap first, then everything that names what was reclaimed.
    method SweepAll(youngOnly: bool) returns (reclaimed: set<nat>, calls: seq<(nat, nat)>)
      requires youngCount == |Young(heap)|
      modifies this`heap, this`youngCount, this`roots, this`weakRefs, this`phantomRefs, this`phantomQueue
      ensures heap == SweptHeap(old(heap), youngOnly) && youngCount == |Young(heap)|
      ensures reclaimed == old(heap).Keys - heap.Keys && CallsOf(old(heap), reclaimed, calls)
      ensures roots == old(roots) - reclaimed && weakRefs == Lasting(old(weakRefs), reclaimed)
      ensures phantomRefs == Lasting(old(phantomRefs), reclaimed)
      ensures QueuedBehind(old(phantomQueue), phantomQueue, Lost(old(phantomRefs), reclaimed))
    {
      hide CallsOf, Young, SweptHeap, Lost, Lasting, QueuedBehind;
      reclaimed, calls := SweepHeap(youngOnly);
      SweepWeakRefs(reclaimed);
      SweepPhantomRefs(reclaimed);
      roots := roots - reclaimed;
    }

    // Sweeps, and writes down what has become of the reclaimed.
    method Sweep(youngOnly: bool) returns (calls: seq<(nat, nat)>)
      requires youngCount == |Young(heap)| && Conserved()
      modifies this
      ensures heap == SweptHeap(old(heap), youngOnly) && youngCount == |Young(heap)| && Conserved()
      ensures var reclaimed := old(heap).Keys - heap.Keys;
              && roots == old(roots) - reclaimed && weakRefs == Lasting(old(weakRefs), reclaimed)
              && phantomRefs == Lasting(old(phantomRefs), reclaimed)
              && CallsOf(old(heap), reclaimed, calls)
      ensures dead == old(dead) + (old(heap).Keys - heap.Keys) && finalized == old(finalized) + Ids(calls)
      ensures fired == old(fired) + Lost(old(phantomRefs), old(heap).Keys - heap.Keys)
      ensures nextId == old(nextId) && nextRefId == old(nextRefId)
    {
      hide FinalizersBalance, QueueBalances, CallsOf, WithFinalizer, Young, SweptHeap, RefsBalance, IdsBalance,
           Lost, Lasting, Ids, QueuedBehind;
      ghost var was, phantoms, queue, weak := heap, phantomRefs, phantomQueue, weakRefs;
      SweptKeys(was, youngOnly);
      ApartFromDead(was, dead, nextId);
      var reclaimed;
      reclaimed, calls := SweepAll(youngOnly);
      IdsStillBalance(was, heap, dead, nextId);
      RefsStillBalance(weak, phantoms, fired, dead, nextRefId, reclaimed);
      FinalizersStillBalance(was, reclaimed, calls, finalized, owing, dead);
      QueueStillBalances(drained, queue, phantomQueue, fired, Lost(phantoms, reclaimed));
      dead := dead + reclaimed;
      owing := owing + WithFinalizer(was, reclaimed);
      finalized := finalized + Ids(calls);
      fired := fired + Lost(phantoms, reclaimed);
    }

    // Keeps what is reachable and everything old, and leaves nothing young.
    method CollectMinor() returns (ghost live: set<nat>, calls: seq<(nat, nat)>)
      requires Valid()
      modifies this
      ensures Valid() && roots == old(roots)
      ensures IsLive(old(heap), roots, live) && heap == AfterMinor(old(heap), live) && Young(heap) == {}
      ensures var reclaimed := old(heap).Keys - heap.Keys;
              && weakRefs == Lasting(old(weakRefs), reclaimed) && phantomRefs == Lasting(old(phantomRefs), reclaimed)
              && CallsOf(old(heap), reclaimed, calls) && dead == old(dead) + reclaimed
      ensures IsLive(heap, roots, live)
    {
      hide IsLive, MarkedHeap, PromotedHeap, SweptHeap, Young, CallsOf, Lasting, Lost, Unmarked, IdsBalance,
           FinalizersBalance, RefsBalance, QueueBalances, Named, Ids, AfterMinor, AfterMajor;
      ghost var was, weak, phantoms := heap, weakRefs, phantomRefs;
      var marked := MarkFromRoots();
      live := marked;
      LiveInHeap(was, roots, live);
      MinorPhases(was, live);
      PhaseKeys(was, live);
      PhaseKeys(MarkedHeap(was, live), live);
      SetMarks(marked);
      PromoteYoung();
      SameIds(was, heap, dead, nextId);
      calls := Sweep(true);
      assert heap == AfterMinor(was, live);
      SameCalls(was, PromotedHeap(MarkedHeap(was, live)), was.Keys - heap.Keys, calls);
      MinorKeeps(was, old(roots), live, weak, phantoms);
    }

    // Keeps exactly what is reachable.
    method CollectMajor() returns (ghost live: set<nat>, calls: seq<(nat, nat)>)
      requires Valid()
      modifies this
      ensures Valid() && roots == old(roots)
      ensures IsLive(old(heap), roots, live) && heap == AfterMajor(old(heap), live) && heap.Keys == live
      ensures var reclaimed := old(heap).Keys - heap.Keys;
              && weakRefs == Lasting(old(weakRefs), reclaimed) && phantomRefs == Lasting(old(phantomRefs), reclaimed)
              && CallsOf(old(heap), reclaimed, calls) && dead == old(dead) + reclaimed
      ensures IsLive(heap, roots, live)
    {
      hide IsLive, MarkedHeap, PromotedHeap, SweptHeap, Young, CallsOf, Lasting, Lost, Unmarked, IdsBalance,
           FinalizersBalance, RefsBalance, QueueBalances, Named, Ids, AfterMinor, AfterMajor;
      ghost var was, weak, phantoms := heap, weakRefs, phantomRefs;
      var marked := MarkFromRoots();
      live := marked;
      LiveInHeap(was, roots, live);
      MajorPhases(was, live);
      PhaseKeys(was, live);
      SetMarks(marked);
      SameIds(was, heap, dead, nextId);
      calls := Sweep(false);
      assert heap == AfterMajor(was, live);
      SameCalls(was, MarkedHeap(was, live), was.Keys - heap.Keys, calls);
      MajorKeeps(was, old(roots), live, weak, phantoms);
    }
  }

  lemma SweptKeys(heap: Heap, youngOnly: bool)
    ensures SweptHeap(heap, youngOnly).Keys <= heap.Keys
  {
  }

  lemma ApartFromDead(heap: Heap, dead: set<nat>, nextId: nat)
    requires IdsBalance(heap, dead, nextId)
    ensures heap.Keys !! dead
  {
  }

  function Ids(calls: seq<(nat, nat)>): seq<nat> { seq(|calls|, k requires 0 <= k < |calls| => calls[k].0) }

  function WithFinalizer(heap: Heap, reclaimed: set<nat>): set<nat> {
    set x | x in reclaimed && x in heap && heap[x].finalizer.Some?
  }

  lemma {:induction false} DistinctCounts(s: seq<nat>, x: nat)
    requires forall i, j :: 0 <= i < j < |s| ==> s[i] != s[j]
    ensures multiset(s)[x] == if x in s then 1 else 0
  {
    if s != [] {
      var k := |s| - 1;
      DistinctCounts(s[..k], x);
      assert s == s[..k] + [s[k]];
    }
  }

  lemma IdsOfCalls(heap: Heap, reclaimed: set<nat>, calls: seq<(nat, nat)>, x: nat)
    requires CallsOf(heap, reclaimed, calls) && reclaimed <= heap.Keys
    ensures multiset(Ids(calls))[x] == if x in WithFinalizer(heap, reclaimed) then 1 else 0
  {
    var ids := Ids(calls);
    DistinctCounts(ids, x);
    forall k | 0 <= k < |ids| ensures ids[k] in WithFinalizer(heap, reclaimed) {
      assert ids[k] == calls[k].0;
    }
    if x in WithFinalizer(heap, reclaimed) {
      var k :| 0 <= k < |calls| && calls[k].0 == x;
      assert ids[k] == x;
    }
  }

  lemma FinalizersStillBalance(
      heap: Heap, reclaimed: set<nat>, calls: seq<(nat, nat)>, finalized: seq<nat>, owing: set<nat>, dead: set<nat>)
    requires CallsOf(heap, reclaimed, calls) && reclaimed <= heap.Keys && heap.Keys !! dead
    requires FinalizersBalance(owing, finalized, dead)
    ensures FinalizersBalance(owing + WithFinalizer(heap, reclaimed), finalized + Ids(calls), dead + reclaimed)
  {
    forall x
      ensures multiset(finalized + Ids(calls))[x] == if x in owing + WithFinalizer(heap, reclaimed) then 1 else 0
    {
      IdsOfCalls(heap, reclaimed, calls, x);
      assert multiset(finalized + Ids(calls))[x] == multiset(finalized)[x] + multiset(Ids(calls))[x];
    }
  }

  // The sweep of `was` when `todo` is still ahead.
  ghost predicate PartlySwept(was: Heap, now: Heap, todo: set<nat>, youngOnly: bool, reclaimed: set<nat>) {
    && (forall x :: x in now ==> x in was) && (forall x :: x in reclaimed <==> x in was && x !in now)
    && (forall x :: x in todo ==> x in now && now[x] == was[x])
    && forall x :: x in was && x !in todo ==>
         (x in now <==> Survives(was[x], youngOnly)) && (x in now ==> now[x] == was[x].(marked := false))
  }

  lemma SweepStarts(was: Heap, youngOnly: bool)
    ensures PartlySwept(was, was, was.Keys, youngOnly, {}) && CallsOf(was, {}, [])
  {
  }

  lemma SweepNext(was: Heap, now: Heap, todo: set<nat>, youngOnly: bool, reclaimed: set<nat>, x: nat)
    requires PartlySwept(was, now, todo, youngOnly, reclaimed) && x in todo
    ensures x in now && x in was && now[x] == was[x] && x !in reclaimed
    ensures if Survives(now[x], youngOnly)
            then && PartlySwept(was, now[x := now[x].(marked := false)], todo - {x}, youngOnly, reclaimed)
                 && Young(now[x := now[x].(marked := false)]) == Young(now)
            else && PartlySwept(was, now - {x}, todo - {x}, youngOnly, reclaimed + {x})
                 && |Young(now - {x})| == |Young(now)| - (if now[x].generation == 0 then 1 else 0)
  {
    hide Survives, Young;
    if Survives(now[x], youngOnly) {
      YoungUpdated(now, x, now[x].(marked := false));
      SweepSpares(was, now, todo, youngOnly, reclaimed, x);
    } else {
      YoungRemoved(now, x);
      SweepErases(was, now, todo, youngOnly, reclaimed, x);
    }
  }

  lemma SweepSpares(was: Heap, now: Heap, todo: set<nat>, youngOnly: bool, reclaimed: set<nat>, x: nat)
    requires PartlySwept(was, now, todo, youngOnly, reclaimed) && x in todo && Survives(was[x], youngOnly)
    ensures PartlySwept(was, now[x := now[x].(marked := false)], todo - {x}, youngOnly, reclaimed)
  {
    hide Survives;
    var next := now[x := now[x].(marked := false)];
    forall y | y in was && y !in todo - {x}
      ensures (y in next <==> Survives(was[y], youngOnly)) && (y in next ==> next[y] == was[y].(marked := false))
    {
      assert y == x || y !in todo;
    }
  }

  lemma SweepErases(was: Heap, now: Heap, todo: set<nat>, youngOnly: bool, reclaimed: set<nat>, x: nat)
    requires PartlySwept(was, now, todo, youngOnly, reclaimed) && x in todo && !Survives(was[x], youngOnly)
    ensures PartlySwept(was, now - {x}, todo - {x}, youngOnly, reclaimed + {x})
  {
    hide Survives;
    var next := now - {x};
    forall y | y in was && y !in todo - {x}
      ensures (y in next <==> Survives(was[y], youngOnly)) && (y in next ==> next[y] == was[y].(marked := false))
    {
      assert y == x || y !in todo;
    }
  }

  lemma SweepDone(was: Heap, now: Heap, youngOnly: bool, reclaimed: set<nat>)
    requires PartlySwept(was, now, {}, youngOnly, reclaimed)
    ensures now == SweptHeap(was, youngOnly) && reclaimed == was.Keys - now.Keys
  {
  }

  lemma OneMoreCall(heap: Heap, reclaimed: set<nat>, calls: seq<(nat, nat)>, x: nat)
    requires CallsOf(heap, reclaimed, calls) && x !in reclaimed && x in heap
    ensures CallsOf(heap, reclaimed + {x},
                    if heap[x].finalizer.Some? then calls + [(x, heap[x].finalizer.value)] else calls)
  {
    if heap[x].finalizer.Some? {
      var more := calls + [(x, heap[x].finalizer.value)];
      assert more[|calls|].0 == x;
      forall y | y in reclaimed && y in heap && heap[y].finalizer.Some?
        ensures exists k :: 0 <= k < |more| && more[k].0 == y
      {
        var k :| 0 <= k < |calls| && calls[k].0 == y;
        assert more[k].0 == y;
      }
    }
  }
}
