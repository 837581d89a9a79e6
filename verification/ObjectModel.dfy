/** Classes, their method resolution orders and the cache of them. */
module ObjectModel {
  import opened Bytecode
  import opened C3

  datatype Method = Method(isPrivate: bool, body: nat)

  datatype ClassDescriptor = ClassDescriptor(name: string, bases: seq<string>, methods: map<string, Method>)

  type Classes = map<string, ClassDescriptor>

  // Bases are registered before the classes that name them.
  ghost predicate Ranked(classes: Classes, rank: map<string, nat>) {
    forall c :: c in classes ==>
      && c in rank && classes[c].name == c
      && forall b :: b in classes[c].bases ==> b in classes && b in rank && rank[b] < rank[c]
  }

  // ---- The order of a class --------------------------------------------------------------------

  // The class, then the merge of its bases' orders and of the list of its bases.
  ghost function Order(classes: Classes, rank: map<string, nat>, name: string): Option<seq<string>>
    requires Ranked(classes, rank) && name in classes
    decreases rank[name], 1, 0
  {
    match BaseOrders(classes, rank, name, |classes[name].bases|)
    case None => None
    case Some(orders) =>
      match Merge(orders + [classes[name].bases])
      case None => None
      case Some(rest) => Some([name] + rest)
  }

  ghost function BaseOrders(
      classes: Classes, rank: map<string, nat>, name: string, k: nat): (r: Option<seq<seq<string>>>)
    requires Ranked(classes, rank) && name in classes && k <= |classes[name].bases|
    ensures r.Some? ==> |r.value| == k
    decreases rank[name], 0, k
  {
    if k == 0 then Some([])
    else
      assert classes[name].bases[k - 1] in classes[name].bases;
      match BaseOrders(classes, rank, name, k - 1)
      case None => None
      case Some(orders) =>
        match Order(classes, rank, classes[name].bases[k - 1])
        case None => None
        case Some(o) => Some(orders + [o])
  }

  // The orders of the bases, one by one.
  lemma {:induction false} BaseOrdersAre(classes: Classes, rank: map<string, nat>, name: string, k: nat)
    requires Ranked(classes, rank) && name in classes && k <= |classes[name].bases|
    ensures forall j :: 0 <= j < k ==> classes[name].bases[j] in classes
    ensures var r := BaseOrders(classes, rank, name, k);
            && (r.Some? <==> forall j :: 0 <= j < k ==> Order(classes, rank, classes[name].bases[j]).Some?)
            && (r.Some? ==> forall j :: 0 <= j < k ==> Order(classes, rank, classes[name].bases[j]) == Some(r.value[j]))
    decreases k
  {
    hide Order;
    if k > 0 {
      assert classes[name].bases[k - 1] in classes[name].bases;
      BaseOrdersAre(classes, rank, name, k - 1);
    }
  }

  // Registering more classes changes no order, nor does the ranking matter.
  lemma {:induction false} OrderKept(
      classes: Classes, rank: map<string, nat>, classes': Classes, rank': map<string, nat>, name: string)
    requires Ranked(classes, rank) && Ranked(classes', rank') && name in classes
    requires forall c :: c in classes ==> c in classes' && classes'[c] == classes[c]
    ensures Order(classes', rank', name) == Order(classes, rank, name)
    decreases rank[name]
  {
    var bases := classes[name].bases;
    forall j | 0 <= j < |bases|
      ensures bases[j] in classes && Order(classes', rank', bases[j]) == Order(classes, rank, bases[j])
    {
      assert bases[j] in bases;
      OrderKept(classes, rank, classes', rank', bases[j]);
    }
    BaseOrdersAre(classes, rank, name, |bases|);
    BaseOrdersAre(classes', rank', name, |bases|);
    var orders, orders' := BaseOrders(classes, rank, name, |bases|), BaseOrders(classes', rank', name, |bases|);
    if orders.Some? {
      assert orders'.Some? && orders'.value == orders.value;
    }
  }

  // ---- What the order is ------------------------------------------------------------------------

  ghost predicate Ancestor(classes: Classes, rank: map<string, nat>, a: string, name: string)
    requires Ranked(classes, rank) && name in classes
    decreases rank[name]
  {
    a == name || exists b :: b in classes[name].bases && Ancestor(classes, rank, a, b)
  }

  lemma {:induction false} AncestorRegistered(classes: Classes, rank: map<string, nat>, a: string, name: string)
    requires Ranked(classes, rank) && name in classes && Ancestor(classes, rank, a, name)
    ensures a in classes && rank[a] <= rank[name]
    decreases rank[name]
  {
    if a != name {
      var b :| b in classes[name].bases && Ancestor(classes, rank, a, b);
      AncestorRegistered(classes, rank, a, b);
    }
  }

  // The order starts with the class, lists its ancestors and nothing else, and keeps the
  // order of its bases and of the list of its bases.
  lemma {:induction false} OrderOfAncestors(classes: Classes, rank: map<string, nat>, name: string)
    requires Ranked(classes, rank) && name in classes && Order(classes, rank, name).Some?
    ensures var l := Order(classes, rank, name).value;
            && l[0] == name && Within(classes[name].bases, l)
            && (forall x :: x in l <==> Ancestor(classes, rank, x, name))
            && forall b :: b in classes[name].bases ==>
                 Order(classes, rank, b).Some? && Within(Order(classes, rank, b).value, l)
    decreases rank[name]
  {
    var bases := classes[name].bases;
    BaseOrdersAre(classes, rank, name, |bases|);
    var orders := BaseOrders(classes, rank, name, |bases|).value;
    var seqs := orders + [bases];
    var rest := Merge(seqs).value;
    var l := [name] + rest;
    MergeRespects(seqs);
    assert seqs[|orders|] == bases;
    WithinLonger(bases, rest, name);
    forall b | b in bases ensures Order(classes, rank, b).Some? && Within(Order(classes, rank, b).value, l) {
      var j :| 0 <= j < |bases| && bases[j] == b;
      assert seqs[j] == orders[j];
      WithinLonger(orders[j], rest, name);
    }
    forall x ensures x in l <==> Ancestor(classes, rank, x, name) {
      OrderElement(classes, rank, name, orders, rest, x);
    }
  }

  lemma {:induction false} OrderElement(
      classes: Classes, rank: map<string, nat>, name: string, orders: seq<seq<string>>, rest: seq<string>, x: string)
    requires Ranked(classes, rank) && name in classes
    requires BaseOrders(classes, rank, name, |classes[name].bases|) == Some(orders)
    requires x in rest <==> Mentions(orders + [classes[name].bases], x)
    ensures x in [name] + rest <==> Ancestor(classes, rank, x, name)
    decreases rank[name], 0
  {
    var bases := classes[name].bases;
    var seqs := orders + [bases];
    BaseOrdersAre(classes, rank, name, |bases|);
    hide Order, Merge, BaseOrders;
    if x in rest {
      var k :| 0 <= k < |seqs| && x in seqs[k];
      var b := if k < |bases| then bases[k] else x;
      assert b in bases;
      OrderOfAncestors(classes, rank, b);
    }
    if b :| b in bases && Ancestor(classes, rank, x, b) {
      var j :| 0 <= j < |bases| && bases[j] == b;
      OrderOfAncestors(classes, rank, b);
      assert x in seqs[j];
    }
  }

  // Orders are monotone: the order of every ancestor is kept.
  lemma {:induction false} OrderMonotone(classes: Classes, rank: map<string, nat>, name: string, a: string)
    requires Ranked(classes, rank) && name in classes && Order(classes, rank, name).Some?
    requires Ancestor(classes, rank, a, name)
    ensures a in classes && Order(classes, rank, a).Some?
    ensures Within(Order(classes, rank, a).value, Order(classes, rank, name).value)
    decreases rank[name]
  {
    if a == name {
      WithinItself(Order(classes, rank, name).value);
    } else {
      var b :| b in classes[name].bases && Ancestor(classes, rank, a, b);
      OrderOfAncestors(classes, rank, name);
      OrderMonotone(classes, rank, b, a);
      WithinTransitive(Order(classes, rank, a).value, Order(classes, rank, b).value, Order(classes, rank, name).value);
    }
  }

  ghost predicate BasesDistinct(classes: Classes, rank: map<string, nat>, name: string)
    requires Ranked(classes, rank) && name in classes
  {
    forall a :: a in classes && Ancestor(classes, rank, a, name) ==> Distinct(classes[a].bases)
  }

  // An order lists nothing twice exactly if no ancestor names a base twice.
  lemma {:induction false} OrderDistinct(classes: Classes, rank: map<string, nat>, name: string)
    requires Ranked(classes, rank) && name in classes && Order(classes, rank, name).Some?
    ensures Distinct(Order(classes, rank, name).value) <==> BasesDistinct(classes, rank, name)
    decreases rank[name]
  {
    var l := Order(classes, rank, name).value;
    if Distinct(l) {
      forall a | a in classes && Ancestor(classes, rank, a, name) ensures Distinct(classes[a].bases) {
        OrderMonotone(classes, rank, name, a);
        OrderOfAncestors(classes, rank, a);
        WithinTransitive(classes[a].bases, Order(classes, rank, a).value, l);
        WithinDistinct(classes[a].bases, l);
      }
    }
    if BasesDistinct(classes, rank, name) {
      var bases := classes[name].bases;
      var orders := BaseOrders(classes, rank, name, |bases|).value;
      BaseOrdersDistinct(classes, rank, name, orders);
      var seqs := orders + [bases];
      MergeDistinct(seqs);
      NotItsOwnAncestor(classes, rank, name, orders);
      MergeRespects(seqs);
      assert l[1..] == Merge(seqs).value && name !in l[1..];
      DistinctLonger(name, l[1..]);
      assert l == [name] + l[1..];
    }
  }

  lemma DistinctLonger(x: string, s: seq<string>)
    requires Distinct(s) && x !in s
    ensures Distinct([x] + s)
  {
  }

  lemma {:induction false} BaseOrdersDistinct(
      classes: Classes, rank: map<string, nat>, name: string, orders: seq<seq<string>>)
    requires Ranked(classes, rank) && name in classes && BasesDistinct(classes, rank, name)
    requires BaseOrders(classes, rank, name, |classes[name].bases|) == Some(orders)
    ensures forall s :: s in orders + [classes[name].bases] ==> Distinct(s)
    decreases rank[name], 0
  {
    var bases := classes[name].bases;
    BaseOrdersAre(classes, rank, name, |bases|);
    assert Ancestor(classes, rank, name, name);
    forall s | s in orders + [bases] ensures Distinct(s) {
      if s in orders {
        var j :| 0 <= j < |orders| && orders[j] == s;
        var b := bases[j];
        assert b in bases;
        forall a | a in classes && Ancestor(classes, rank, a, b) ensures Distinct(classes[a].bases) {
          assert Ancestor(classes, rank, a, name);
        }
        OrderDistinct(classes, rank, b);
      }
    }
  }

  lemma {:induction false} NotItsOwnAncestor(
      classes: Classes, rank: map<string, nat>, name: string, orders: seq<seq<string>>)
    requires Ranked(classes, rank) && name in classes
    requires BaseOrders(classes, rank, name, |classes[name].bases|) == Some(orders)
    ensures !Mentions(orders + [classes[name].bases], name)
  {
    var bases := classes[name].bases;
    var seqs := orders + [bases];
    BaseOrdersAre(classes, rank, name, |bases|);
    forall k | 0 <= k < |seqs| ensures name !in seqs[k] {
      if k < |orders| {
        assert bases[k] in bases;
        OrderOfAncestors(classes, rank, bases[k]);
        if Ancestor(classes, rank, name, bases[k]) { AncestorRegistered(classes, rank, name, bases[k]); }
      }
    }
  }

  // A class with distinct bases all the way up has an order exactly if its bases have and
  // some order respects theirs and the list of bases.
  lemma {:induction false} OrderExists(classes: Classes, rank: map<string, nat>, name: string)
    requires Ranked(classes, rank) && name in classes && BasesDistinct(classes, rank, name)
    ensures Order(classes, rank, name).Some? <==>
              var orders := BaseOrders(classes, rank, name, |classes[name].bases|);
              orders.Some? && Consistent(orders.value + [classes[name].bases])
  {
    var orders := BaseOrders(classes, rank, name, |classes[name].bases|);
    BaseOrdersAre(classes, rank, name, |classes[name].bases|);
    if orders.Some? {
      BaseOrdersDistinct(classes, rank, name, orders.value);
      MergeExact(orders.value + [classes[name].bases]);
    }
  }

  // ---- Computing it ---------------------------------------------------------------------------------

  datatype Linearized = Found(order: seq<string>) | NoClass(name: string) | Inconsistent | Cycle(name: string)

  ghost predicate Remembered(classes: Classes, rank: map<string, nat>, memo: map<string, seq<string>>)
    requires Ranked(classes, rank)
  {
    forall c :: c in memo ==> c in classes && Order(classes, rank, c) == Some(memo[c])
  }

  // The recursive descent.  With bases registered before classes it never meets a class it is
  // already visiting.
  method LinearizeClass(
      classes: Classes, ghost rank: map<string, nat>, name: string, memo: map<string, seq<string>>,
      visiting: set<string>)
    returns (r: Linearized, memo': map<string, seq<string>>, visiting': set<string>)
    requires Ranked(classes, rank) && Remembered(classes, rank, memo)
    requires forall v :: v in visiting && name in classes ==> v in rank && rank[name] < rank[v]
    ensures Remembered(classes, rank, memo')
    ensures name !in classes ==> r == NoClass(name)
    ensures name in classes ==>
              r == match Order(classes, rank, name) case Some(l) => Found(l) case None => Inconsistent
    ensures r.Found? ==> visiting' == visiting
    decreases if name in classes then rank[name] + 1 else 0
  {
    hide Order, Merge, Remembered;
    if name in memo { FromMemory(classes, rank, memo, name); }
    memo', visiting' := memo, visiting;
    if name in memo { return Found(memo[name]), memo', visiting'; }
    if name !in classes { return NoClass(name), memo', visiting'; }
    if name in visiting { return Cycle(name), memo', visiting'; }
    visiting' := visiting + {name};
    var bases := classes[name].bases;
    var seqs: seq<seq<string>> := [];
    for k := 0 to |bases|
      invariant Remembered(classes, rank, memo') && visiting' == visiting + {name}
      invariant BaseOrders(classes, rank, name, k) == Some(seqs)
    {
      assert bases[k] in bases;
      var base;
      base, memo', visiting' := LinearizeClass(classes, rank, bases[k], memo', visiting');
      if !base.Found? {
        NoBaseOrder(classes, rank, name, k);
        return base, memo', visiting';
      }
      seqs := seqs + [base.order];
    }
    var merged := MergeC3(seqs + [bases]);
    OrderIs(classes, rank, name, seqs);
    if merged.None? { return Inconsistent, memo', visiting'; }
    var out := [name] + merged.value;
    OneMoreRemembered(classes, rank, memo', name);
    memo' := memo'[name := out];
    visiting' := visiting' - {name};
    r := Found(out);
  }

  lemma {:induction false} OrderIs(classes: Classes, rank: map<string, nat>, name: string, orders: seq<seq<string>>)
    requires Ranked(classes, rank) && name in classes
    requires BaseOrders(classes, rank, name, |classes[name].bases|) == Some(orders)
    ensures Order(classes, rank, name) ==
      match Merge(orders + [classes[name].bases]) case None => None case Some(rest) => Some([name] + rest)
    ensures Order(classes, rank, name).Some? <==> Merge(orders + [classes[name].bases]).Some?
  {
  }

  lemma {:induction false} NoBaseOrder(classes: Classes, rank: map<string, nat>, name: string, k: nat)
    requires Ranked(classes, rank) && name in classes && k < |classes[name].bases|
    requires classes[name].bases[k] in classes && Order(classes, rank, classes[name].bases[k]).None?
    ensures Order(classes, rank, name).None?
  {
    BaseOrdersAre(classes, rank, name, |classes[name].bases|);
  }

  // ---- The model ----------------------------------------------------------------------------------------

  datatype Registration = Registered | AlreadyExists(name: string) | BaseMissing(name: string)

  datatype Resolved = Body(body: nat) | NoObject | NoMethod | PrivateMethod | NoOrder(why: Linearized)

  // The first class of the order that has the method decides, even if it denies.
  function Lookup(classes: Classes, order: seq<string>, name: string, allowPrivate: bool): (r: Resolved)
    requires forall c :: c in order ==> c in classes
    ensures r == NoMethod <==> forall c :: c in order ==> name !in classes[c].methods
    ensures r != NoMethod ==> exists k :: 0 <= k < |order| && Decides(classes, order, name, allowPrivate, k, r)
    decreases |order|
  {
    if order == [] then NoMethod
    else if name in classes[order[0]].methods then
      var m := classes[order[0]].methods[name];
      var r := if m.isPrivate && !allowPrivate then PrivateMethod else Body(m.body);
      assert Decides(classes, order, name, allowPrivate, 0, r);
      r
    else
      var r := Lookup(classes, order[1..], name, allowPrivate);
      assert forall k :: 0 <= k < |order| - 1 && Decides(classes, order[1..], name, allowPrivate, k, r) ==>
        Decides(classes, order, name, allowPrivate, k + 1, r);
      assert forall c :: c in order ==> c == order[0] || c in order[1..];
      r
  }

  predicate Decides(
      classes: Classes, order: seq<string>, name: string, allowPrivate: bool, k: nat, r: Resolved)
    requires forall c :: c in order ==> c in classes
  {
    && k < |order| && name in classes[order[k]].methods
    && (forall j :: 0 <= j < k ==> name !in classes[order[j]].methods)
    && var m := classes[order[k]].methods[name];
       r == if m.isPrivate && !allowPrivate then PrivateMethod else Body(m.body)
  }

  // Ranked in order of registration.
  ghost predicate Numbered(classes: Classes, rank: map<string, nat>) {
    Ranked(classes, rank) && forall c :: c in classes ==> rank[c] < |classes|
  }

  lemma OneMoreKey(classes: Classes, d: ClassDescriptor)
    requires d.name !in classes
    ensures |classes[d.name := d]| == |classes| + 1
  {
    assert classes[d.name := d].Keys == classes.Keys + {d.name};
  }

  lemma ClassAdded(classes: Classes, rank: map<string, nat>, d: ClassDescriptor)
    requires Numbered(classes, rank)
    requires d.name !in classes && forall b :: b in d.bases ==> b in classes
    ensures Numbered(classes[d.name := d], rank[d.name := |classes|])
    ensures Ranked(classes, rank) && Ranked(classes[d.name := d], rank[d.name := |classes|])
    ensures Remembered(classes[d.name := d], rank[d.name := |classes|], map[])
    ensures forall c :: c in classes ==>
              Order(classes[d.name := d], rank[d.name := |classes|], c) == Order(classes, rank, c)
  {
    hide Order;
    OneMoreKey(classes, d);
    var more, rank' := classes[d.name := d], rank[d.name := |classes|];
    forall c | c in classes ensures Order(more, rank', c) == Order(classes, rank, c) {
      OrderKept(classes, rank, more, rank', c);
    }
  }

  lemma NothingRemembered(classes: Classes, rank: map<string, nat>)
    requires Ranked(classes, rank)
    ensures Remembered(classes, rank, map[])
  {
  }

  lemma {:induction false} OneMoreRemembered(
      classes: Classes, rank: map<string, nat>, memo: map<string, seq<string>>, name: string)
    requires Ranked(classes, rank) && Remembered(classes, rank, memo)
    requires name in classes && Order(classes, rank, name).Some?
    ensures Remembered(classes, rank, memo[name := Order(classes, rank, name).value])
  {
    hide Order;
  }

  lemma {:induction false} FromMemory(
      classes: Classes, rank: map<string, nat>, memo: map<string, seq<string>>, name: string)
    requires Ranked(classes, rank) && Remembered(classes, rank, memo) && name in memo
    ensures name in classes && Order(classes, rank, name) == Some(memo[name])
  {
  }

  class Model {
    var classes: Classes
    var objects: map<nat, string>
    var mroCache: map<string, seq<string>>
    var nextObjectId: nat
    ghost var rank: map<string, nat>

    // The cache holds what would be computed again.
    ghost predicate Valid()
      reads this
    {
      && Numbered(classes, rank)
      && Remembered(classes, rank, mroCache)
      && (forall o :: o in objects ==> objects[o] in classes && o < nextObjectId)
    }

    constructor ()
      ensures Valid() && classes == map[] && objects == map[] && mroCache == map[]
    {
      classes, objects, mroCache, nextObjectId, rank := map[], map[], map[], 1, map[];
    }

    // A new class changes the order of no other.
    method RegisterClass(d: ClassDescriptor) returns (status: Registration)
      requires Valid()
      modifies this`classes, this`mroCache, this`rank
      ensures Valid()
      ensures status == AlreadyExists(d.name) <==> d.name in old(classes)
      ensures status.BaseMissing? <==> d.name !in old(classes) && exists b :: b in d.bases && b !in old(classes)
      ensures status.Registered? ==> classes == old(classes)[d.name := d] && mroCache == map[]
      ensures !status.Registered? ==> classes == old(classes) && mroCache == old(mroCache)
      ensures forall c :: c in old(classes) ==> Order(classes, rank, c) == old(Order(classes, rank, c))
    {
      hide Ranked, Order, Remembered, Numbered;
      if d.name in classes { return AlreadyExists(d.name); }
      for k := 0 to |d.bases|
        invariant forall j :: 0 <= j < k ==> d.bases[j] in classes
      {
        if d.bases[k] !in classes { return BaseMissing(d.bases[k]); }
      }
      ClassAdded(classes, rank, d);
      var n := |classes|;
      classes := classes[d.name := d];
      rank := rank[d.name := n];
      mroCache := map[];
      status := Registered;
    }

    method NewObject(class_: string) returns (id: Option<nat>)
      requires Valid()
      modifies this`objects, this`nextObjectId
      ensures Valid()
      ensures id.None? <==> class_ !in classes
      ensures id.None? ==> objects == old(objects) && nextObjectId == old(nextObjectId)
      ensures id.Some? ==> id.value !in old(objects) && objects == old(objects)[id.value := class_]
    {
      if class_ !in classes { return None; }
      id := Some(nextObjectId);
      nextObjectId := nextObjectId + 1;
      objects := objects[id.value := class_];
    }

    // The cached order, or a fresh one that is cached.
    method ComputeMro(name: string) returns (r: Linearized)
      requires Valid()
      modifies this`mroCache
      ensures Valid()
      ensures name !in classes ==> r == NoClass(name)
      ensures name in classes ==>
                r == match Order(classes, rank, name) case Some(l) => Found(l) case None => Inconsistent
      ensures mroCache == if r.Found? then old(mroCache)[name := r.order] else old(mroCache)
    {
      NothingRemembered(classes, rank);
      hide Remembered, Ranked, Order, Numbered;
      if name in mroCache {
        FromMemory(classes, rank, mroCache, name);
        assert mroCache == mroCache[name := mroCache[name]];
        return Found(mroCache[name]);
      }
      var memo, visiting;
      r, memo, visiting := LinearizeClass(classes, rank, name, map[], {});
      if r.Found? {
        OneMoreRemembered(classes, rank, mroCache, name);
        mroCache := mroCache[name := r.order];
      }
    }

    // Which method a call on an object reaches.
    method Resolve(object_: nat, name: string, allowPrivate: bool) returns (r: Resolved)
      requires Valid()
      modifies this`mroCache
      ensures Valid()
      ensures r.NoObject? <==> object_ !in objects
      ensures object_ in objects ==>
                match Order(classes, rank, objects[object_])
                case None => r == NoOrder(Inconsistent)
                case Some(l) =>
                  (forall c :: c in l ==> c in classes) && r == Lookup(classes, l, name, allowPrivate)
    {
      if object_ !in objects { return NoObject; }
      var mro := ComputeMro(objects[object_]);
      if !mro.Found? { return NoOrder(mro); }
      OrderOfAncestors(classes, rank, objects[object_]);
      forall c | c in mro.order ensures c in classes { AncestorRegistered(classes, rank, c, objects[object_]); }
      for k := 0 to |mro.order|
        invariant Lookup(classes, mro.order, name, allowPrivate) == Lookup(classes, mro.order[k..], name, allowPrivate)
      {
        var klass := classes[mro.order[k]];
        assert mro.order[k..][1..] == mro.order[k + 1..];
        if name in klass.methods {
          var found := klass.methods[name];
          return if found.isPrivate && !allowPrivate then PrivateMethod else Body(found.body);
        }
      }
      r := NoMethod;
    }
  }
}
