/** The C3 merge: one order out of many. */
module C3 {
  import opened Bytecode

  // ---- Sequences as orders -----------------------------------------------------------------------

  predicate Distinct(s: seq<string>) {
    forall i, j :: 0 <= i < j < |s| ==> s[i] != s[j]
  }

  // s is what is left of l when some elements are struck out.
  predicate Within(s: seq<string>, l: seq<string>) {
    if s == [] then true
    else if l == [] then false
    else if s[0] == l[0] then Within(s[1..], l[1..])
    else Within(s, l[1..])
  }

  lemma {:induction false} WithinElements(s: seq<string>, l: seq<string>)
    requires Within(s, l)
    ensures forall x :: x in s ==> x in l
    decreases |l|
  {
    if s != [] {
      if s[0] == l[0] { WithinElements(s[1..], l[1..]); } else { WithinElements(s, l[1..]); }
      forall x | x in s ensures x in l {
        assert x == s[0] || x in s[1..];
        assert x == l[0] || x in l[1..];
      }
    }
  }

  lemma {:induction false} WithinDrop(s: seq<string>, l: seq<string>)
    requires s != [] && Within(s, l)
    ensures l != [] && Within(s[1..], l) && Within(s[1..], l[1..])
    decreases |l|, 0
  {
    if s[0] != l[0] { WithinDrop(s, l[1..]); }
    WithinLonger(s[1..], l[1..], l[0]);
    assert [l[0]] + l[1..] == l;
  }

  lemma {:induction false} WithinLonger(s: seq<string>, l: seq<string>, x: string)
    requires Within(s, l)
    ensures Within(s, [x] + l)
    decreases |l|, 1
  {
    assert ([x] + l)[1..] == l;
    if s != [] && s[0] == x { WithinDrop(s, l); }
  }

  lemma {:induction false} WithinItself(s: seq<string>)
    ensures Within(s, s)
  {
    if s != [] { WithinItself(s[1..]); }
  }

  lemma {:induction false} WithinTransitive(a: seq<string>, b: seq<string>, c: seq<string>)
    requires Within(a, b) && Within(b, c)
    ensures Within(a, c)
    decreases |c|
  {
    if a != [] {
      if b[0] == c[0] {
        if a[0] == b[0] { WithinTransitive(a[1..], b[1..], c[1..]); } else { WithinTransitive(a, b[1..], c[1..]); }
      } else {
        WithinTransitive(a, b, c[1..]);
        if a[0] == c[0] {
          WithinDrop(a, c[1..]);
        }
      }
    }
  }

  lemma {:induction false} WithinDistinct(s: seq<string>, l: seq<string>)
    requires Within(s, l) && Distinct(l)
    ensures Distinct(s)
    decreases |l|
  {
    if s != [] {
      if s[0] == l[0] {
        WithinDistinct(s[1..], l[1..]);
        WithinElements(s[1..], l[1..]);
        forall i, j | 0 <= i < j < |s| ensures s[i] != s[j] {
          assert s[j] == s[1..][j - 1] && s[j] in l[1..];
          if i > 0 { assert s[i] == s[1..][i - 1]; }
        }
      } else {
        WithinDistinct(s, l[1..]);
      }
    }
  }

  // ---- The merge -------------------------------------------------------------------------------------

  function NonEmpty(seqs: seq<seq<string>>): (r: seq<seq<string>>)
    ensures forall k :: 0 <= k < |r| ==> r[k] != []
    ensures forall s :: s in r <==> s in seqs && s != []
    ensures Total(r) == Total(seqs)
  {
    if seqs == [] then []
    else if seqs[0] == [] then NonEmpty(seqs[1..])
    else [seqs[0]] + NonEmpty(seqs[1..])
  }

  function Total(seqs: seq<seq<string>>): nat {
    if seqs == [] then 0 else |seqs[0]| + Total(seqs[1..])
  }

  // Some other sequence wants something before h.
  predicate InTail(seqs: seq<seq<string>>, i: nat, h: string) {
    exists j :: 0 <= j < |seqs| && j != i && |seqs[j]| >= 2 && h in seqs[j][1..]
  }

  // The first head that no other sequence wants later.
  function Candidate(seqs: seq<seq<string>>, i: nat): (k: nat)
    requires i <= |seqs| && forall k :: 0 <= k < |seqs| ==> seqs[k] != []
    ensures i <= k <= |seqs|
    ensures k < |seqs| ==> !InTail(seqs, k, seqs[k][0])
    ensures forall j :: i <= j < k ==> InTail(seqs, j, seqs[j][0])
    decreases |seqs| - i
  {
    if i == |seqs| then i else if !InTail(seqs, i, seqs[i][0]) then i else Candidate(seqs, i + 1)
  }

  function Taken(s: seq<string>, c: string): seq<string> {
    if s != [] && s[0] == c then s[1..] else s
  }

  function TakeAll(seqs: seq<seq<string>>, c: string): (r: seq<seq<string>>)
    ensures |r| == |seqs| && forall k :: 0 <= k < |seqs| ==> r[k] == Taken(seqs[k], c)
    ensures Total(r) <= Total(seqs)
    ensures (exists k :: 0 <= k < |seqs| && seqs[k] != [] && seqs[k][0] == c) ==> Total(r) < Total(seqs)
  {
    if seqs == [] then [] else [Taken(seqs[0], c)] + TakeAll(seqs[1..], c)
  }

  function Merge(seqs: seq<seq<string>>): Option<seq<string>>
    decreases Total(seqs)
  {
    var live := NonEmpty(seqs);
    if live == [] then Some([])
    else
      var k := Candidate(live, 0);
      if k == |live| then None
      else
        var c := live[k][0];
        match Merge(TakeAll(live, c))
        case None => None
        case Some(r) => Some([c] + r)
  }

  // One order for all the sequences.
  ghost predicate Consistent(seqs: seq<seq<string>>) {
    exists l :: Distinct(l) && Respects(l, seqs)
  }

  predicate Respects(l: seq<string>, seqs: seq<seq<string>>) {
    forall s :: s in seqs ==> Within(s, l)
  }

  // ---- Soundness --------------------------------------------------------------------------------------

  ghost predicate Mentions(seqs: seq<seq<string>>, x: string) {
    exists k :: 0 <= k < |seqs| && x in seqs[k]
  }

  lemma {:induction false} MentionsLive(seqs: seq<seq<string>>, x: string)
    ensures Mentions(NonEmpty(seqs), x) <==> Mentions(seqs, x)
  {
    var live := NonEmpty(seqs);
    if k :| 0 <= k < |live| && x in live[k] {
      assert live[k] in seqs;
    }
    if k :| 0 <= k < |seqs| && x in seqs[k] {
      assert seqs[k] in live;
    }
  }

  lemma {:induction false} MentionsRest(live: seq<seq<string>>, c: string, x: string)
    requires x != c
    ensures Mentions(TakeAll(live, c), x) <==> Mentions(live, x)
  {
    var rest := TakeAll(live, c);
    if k :| 0 <= k < |live| && x in live[k] {
      assert x in rest[k];
    }
    if k :| 0 <= k < |rest| && x in rest[k] {
      assert x in live[k];
    }
  }

  lemma {:induction false} MergeRespects(seqs: seq<seq<string>>)
    requires Merge(seqs).Some?
    ensures Respects(Merge(seqs).value, seqs)
    ensures forall x :: x in Merge(seqs).value <==> Mentions(seqs, x)
    decreases Total(seqs)
  {
    var live := NonEmpty(seqs);
    if live != [] {
      var i := Candidate(live, 0);
      var c := live[i][0];
      var rest := TakeAll(live, c);
      MergeRespects(rest);
      var r := Merge(rest).value;
      assert Merge(seqs) == Some([c] + r);
      hide Merge, Mentions, Respects;
      PutBack(seqs, live, rest, c, r);
      forall x ensures x in [c] + r <==> Mentions(seqs, x) {
        MentionsLive(seqs, x);
        if x != c { MentionsRest(live, c, x); } else { MentionsHead(live, i); }
      }
    } else {
      forall x ensures !Mentions(seqs, x) { MentionsLive(seqs, x); }
    }
  }

  lemma MentionsHead(live: seq<seq<string>>, i: nat)
    requires i < |live| && live[i] != []
    ensures Mentions(live, live[i][0])
  {
  }

  lemma {:induction false} WithinPutBack(s: seq<string>, c: string, r: seq<string>)
    requires Within(Taken(s, c), r)
    ensures Within(s, [c] + r)
  {
    assert ([c] + r)[1..] == r;
  }

  // A head put back in front of what respects the rest respects the whole.
  lemma PutBack(
      seqs: seq<seq<string>>, live: seq<seq<string>>, rest: seq<seq<string>>, c: string, r: seq<string>)
    requires forall s :: s in seqs && s != [] ==> s in live
    requires |rest| == |live| && forall k :: 0 <= k < |live| ==> rest[k] == Taken(live[k], c)
    requires Respects(r, rest)
    ensures Respects([c] + r, seqs)
  {
    hide Within, Taken;
    forall s | s in seqs ensures Within(s, [c] + r) {
      if s == [] {
        WithinEmpty([c] + r);
      } else {
        var k :| 0 <= k < |live| && live[k] == s;
        assert rest[k] in rest;
        WithinPutBack(s, c, r);
      }
    }
  }

  lemma {:induction false} WithinEmpty(l: seq<string>)
    ensures Within([], l)
  {
  }

  lemma TailDistinct(s: seq<string>)
    requires s != [] && Distinct(s)
    ensures Distinct(s[1..]) && s[0] !in s[1..]
  {
  }

  lemma NotWanted(live: seq<seq<string>>, i: nat, k: nat)
    requires i < |live| && k < |live| && k != i && live[i] != [] && live[k] != []
    requires !InTail(live, i, live[i][0]) && live[k][0] != live[i][0]
    ensures live[i][0] !in live[k]
  {
    forall j | 0 <= j < |live[k]| ensures live[k][j] != live[i][0] {
      assert j > 0 ==> live[k][j] in live[k][1..];
    }
  }

  lemma {:induction false} RestDistinct(live: seq<seq<string>>, i: nat, s: seq<string>)
    requires (forall k :: 0 <= k < |live| ==> live[k] != []) && (forall t :: t in live ==> Distinct(t))
    requires i < |live| && !InTail(live, i, live[i][0]) && s in TakeAll(live, live[i][0])
    ensures Distinct(s) && live[i][0] !in s
  {
    var c := live[i][0];
    var k :| 0 <= k < |live| && TakeAll(live, c)[k] == s;
    assert live[k] in live;
    hide Distinct, TakeAll;
    if live[k][0] == c { TailDistinct(live[k]); } else { NotWanted(live, i, k); }
  }

  lemma NotMentioned(seqs: seq<seq<string>>, c: string)
    requires forall s :: s in seqs ==> c !in s
    ensures !Mentions(seqs, c)
  {
  }

  lemma DistinctBehind(c: string, r: seq<string>)
    requires Distinct(r) && c !in r
    ensures Distinct([c] + r)
  {
  }

  // Without repetitions in the input there are none in the output.
  lemma {:induction false} MergeDistinct(seqs: seq<seq<string>>)
    requires Merge(seqs).Some? && forall s :: s in seqs ==> Distinct(s)
    ensures Distinct(Merge(seqs).value)
    decreases Total(seqs)
  {
    var live := NonEmpty(seqs);
    MergeStep(seqs);
    if live == [] { return; }
    var i := Candidate(live, 0);
    var c := live[i][0];
    var rest := TakeAll(live, c);
    forall s | s in rest ensures Distinct(s) && c !in s { RestDistinct(live, i, s); }
    hide *;
    MergeDistinct(rest);
    MergeRespects(rest);
    NotMentioned(rest, c);
    DistinctBehind(c, Merge(rest).value);
  }

  // ---- Completeness -----------------------------------------------------------------------------------

  // If one order respects all sequences, its first element that is a head is a candidate.
  lemma {:induction false} CandidateExists(seqs: seq<seq<string>>, l: seq<string>)
    requires seqs != [] && (forall k :: 0 <= k < |seqs| ==> seqs[k] != []) && Distinct(l) && Respects(l, seqs)
    ensures Candidate(seqs, 0) < |seqs|
    decreases |l|
  {
    assert seqs[0] in seqs;
    assert Within(seqs[0], l);
    if i :| 0 <= i < |seqs| && seqs[i][0] == l[0] {
      forall j | 0 <= j < |seqs| ensures l[0] !in seqs[j][1..] {
        assert seqs[j] in seqs;
        WithinDrop(seqs[j], l);
        WithinElements(seqs[j][1..], l[1..]);
      }
      assert !InTail(seqs, i, seqs[i][0]);
    } else {
      forall s | s in seqs ensures Within(s, l[1..]) {
        var k :| 0 <= k < |seqs| && seqs[k] == s;
      }
      CandidateExists(seqs, l[1..]);
    }
  }

  lemma {:induction false} MergeSucceeds(seqs: seq<seq<string>>, l: seq<string>)
    requires Distinct(l) && Respects(l, seqs)
    ensures Merge(seqs).Some?
    decreases Total(seqs)
  {
    var live := NonEmpty(seqs);
    if live != [] {
      hide Distinct;
      CandidateExists(live, l);
      var c := live[Candidate(live, 0)][0];
      RestRespected(live, c, l);
      MergeSucceeds(TakeAll(live, c), l);
    }
  }

  lemma {:induction false} RestRespected(live: seq<seq<string>>, c: string, l: seq<string>)
    requires Respects(l, live)
    ensures Respects(l, TakeAll(live, c))
  {
    var rest := TakeAll(live, c);
    forall s | s in rest ensures Within(s, l) {
      var k :| 0 <= k < |rest| && rest[k] == s;
      assert live[k] in live;
      if live[k] != [] { WithinDrop(live[k], l); }
    }
  }

  // The main result: on sequences without repetitions the merge succeeds exactly if some
  // order respects them all, and then finds one.
  lemma {:induction false} MergeExact(seqs: seq<seq<string>>)
    requires forall s :: s in seqs ==> Distinct(s)
    ensures Merge(seqs).Some? <==> Consistent(seqs)
  {
    if Merge(seqs).Some? {
      MergeDistinct(seqs);
      MergeRespects(seqs);
    } else if Consistent(seqs) {
      var l :| Distinct(l) && Respects(l, seqs);
      MergeSucceeds(seqs, l);
    }
  }

  // The result repeats an element exactly if some input does.
  lemma {:induction false} MergeRepeats(seqs: seq<seq<string>>)
    requires Merge(seqs).Some?
    ensures Distinct(Merge(seqs).value) <==> forall s :: s in seqs ==> Distinct(s)
  {
    if Distinct(Merge(seqs).value) {
      MergeRespects(seqs);
      forall s | s in seqs ensures Distinct(s) { WithinDistinct(s, Merge(seqs).value); }
    } else if forall s :: s in seqs ==> Distinct(s) {
      MergeDistinct(seqs);
    }
  }

  // ---- The loop --------------------------------------------------------------------------------------

  method WantedLater(seqs: seq<seq<string>>, k: nat, head: string) returns (wanted: bool)
    ensures wanted <==> InTail(seqs, k, head)
  {
    wanted := false;
    for j := 0 to |seqs|
      invariant wanted <==> exists i :: 0 <= i < j && i != k && |seqs[i]| >= 2 && head in seqs[i][1..]
    {
      if j != k && |seqs[j]| >= 2 && head in seqs[j][1..] {
        wanted := true;
        break;
      }
    }
  }

  method FindCandidate(seqs: seq<seq<string>>) returns (k: nat)
    requires forall j :: 0 <= j < |seqs| ==> seqs[j] != []
    ensures k == Candidate(seqs, 0)
  {
    hide InTail;
    k := 0;
    while k < |seqs|
      invariant k <= |seqs| && Candidate(seqs, 0) == Candidate(seqs, k)
    {
      var wanted := WantedLater(seqs, k, seqs[k][0]);
      if !wanted { return; }
      k := k + 1;
    }
  }

  // Strikes the chosen head off every sequence that starts with it.
  method EraseHeads(seqs: seq<seq<string>>, c: string) returns (r: seq<seq<string>>)
    ensures r == TakeAll(seqs, c)
  {
    r := seqs;
    for k := 0 to |seqs|
      invariant |r| == |seqs|
      invariant forall j :: 0 <= j < k ==> r[j] == Taken(seqs[j], c)
      invariant forall j :: k <= j < |seqs| ==> r[j] == seqs[j]
    {
      if r[k] != [] && r[k][0] == c { r := r[k := r[k][1..]]; }
    }
    assert r == TakeAll(seqs, c);
  }

  method EraseEmpty(seqs: seq<seq<string>>) returns (r: seq<seq<string>>)
    ensures r == NonEmpty(seqs)
  {
    r := [];
    for k := |seqs| downto 0
      invariant r == NonEmpty(seqs[k..])
    {
      if seqs[k] != [] { r := [seqs[k]] + r; }
      assert seqs[k..][1..] == seqs[k + 1..];
    }
    assert seqs[0..] == seqs;
  }

  function Behind(out: seq<string>, o: Option<seq<string>>): Option<seq<string>> {
    match o
    case None => None
    case Some(r) => Some(out + r)
  }

  lemma BehindMore(out: seq<string>, c: string, o: Option<seq<string>>)
    ensures Behind(out, Behind([c], o)) == Behind(out + [c], o)
  {
    if o.Some? { assert out + ([c] + o.value) == (out + [c]) + o.value; }
  }

  lemma {:induction false} MergeStep(seqs: seq<seq<string>>)
    ensures var live := NonEmpty(seqs);
            Merge(seqs) ==
              if live == [] then Some([])
              else if Candidate(live, 0) == |live| then None
              else var c := live[Candidate(live, 0)][0]; Behind([c], Merge(TakeAll(live, c)))
  {
  }

  method MergeC3(input: seq<seq<string>>) returns (result: Option<seq<string>>)
    ensures result == Merge(input)
  {
    var seqs, out := input, [];
    assert Behind([], Merge(input)) == Merge(input) by {
      if Merge(input).Some? { assert [] + Merge(input).value == Merge(input).value; }
    }
    hide Merge;
    while true
      invariant Merge(input) == Behind(out, Merge(seqs))
      decreases Total(seqs)
    {
      MergeStep(seqs);
      seqs := EraseEmpty(seqs);
      if seqs == [] {
        assert out + [] == out;
        return Some(out);
      }
      var k := FindCandidate(seqs);
      if k == |seqs| { return None; }
      var c := seqs[k][0];
      seqs := EraseHeads(seqs, c);
      BehindMore(out, c, Merge(seqs));
      out := out + [c];
    }
  }

  // ---- Repeated bases ---------------------------------------------------------------------------------

  lemma LastOne()
    ensures Merge([[], [], ["A"]]) == Some(["A"])
  {
    hide Merge;
    var empty: seq<string> := [];
    var seqs, one := [empty, empty, ["A"]], [["A"]];
    assert seqs[1..] == [empty, ["A"]] && seqs[1..][1..] == one && one[1..] == [];
    assert NonEmpty(one) == one && NonEmpty(seqs) == one;
    assert !InTail(one, 0, "A") && Candidate(one, 0) == 0;
    MergeStep(seqs);
    assert TakeAll(one, "A") == [empty];
    assert [empty][1..] == [] && NonEmpty([empty]) == [];
    MergeStep([empty]);
    assert ["A"] + empty == ["A"];
  }

  // The same base written twice is listed twice: a sequence is not checked against itself.
  lemma RepeatedBase()
    ensures Merge([["A"], ["A"], ["A", "A"]]) == Some(["A", "A"])
  {
    hide Merge;
    var seqs := [["A"], ["A"], ["A", "A"]];
    RepeatedBaseFirst(seqs);
    MergeStep(seqs);
    assert TakeAll(seqs, "A") == [[], [], ["A"]];
    LastOne();
    assert ["A"] + ["A"] == ["A", "A"];
  }

  lemma {:induction false} RepeatedBaseFirst(seqs: seq<seq<string>>)
    requires seqs == [["A"], ["A"], ["A", "A"]]
    ensures NonEmpty(seqs) == seqs && Candidate(seqs, 0) == 2
  {
    assert seqs[1..] == [["A"], ["A", "A"]] && seqs[1..][1..] == [["A", "A"]] && [["A", "A"]][1..] == [];
    assert NonEmpty([["A", "A"]]) == [["A", "A"]] && NonEmpty(seqs[1..]) == seqs[1..];
    assert "A" in seqs[2][1..];
    assert InTail(seqs, 0, "A") && InTail(seqs, 1, "A");
    assert !InTail(seqs, 2, "A");
    assert Candidate(seqs, 2) == 2 && Candidate(seqs, 1) == 2;
  }
}
