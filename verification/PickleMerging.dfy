/** Which nodes a pickle merges, and what the written nodes then say. */
module PickleMerging {
  import opened PickleFormat
  import opened PickleNumbering
  import opened Wrappers

  predicate In(h: Heap, list: seq<PickleNode>) {
    forall n <- list :: n.node in h
  }

  /** Equal arities: the same label, and the same features. */
  predicate SameArity(h: Heap, a: Ref, b: Ref)
    requires WellFormedAt(h, a) && WellFormedAt(h, b)
  {
    var (cs, ds) := (Children(h[a]), Children(h[b]));
    IsArity(h[a]) && IsArity(h[b]) && |cs| == |ds| && forall i | 0 <= i < |cs| :: h[cs[i]] == h[ds[i]]
  }

  predicate WellFormedAt(h: Heap, r: Ref) {
    r in h && forall c <- Children(h[r]) :: c in h
  }

  /** Features and builtins, which are equal when their values are. */
  predicate Mergeable<R>(v: Value<R>) {
    IsFeature(v) || v.Builtin?
  }

  /** The nodes a pickle writes once: a node is only merged with an equal feature, builtin or arity. */
  ghost predicate Same(h: Heap, a: Ref, b: Ref)
    requires WellFormed(h) && a in h && b in h
  {
    a == b || (Mergeable(h[a]) && h[a] == h[b]) || SameArity(h, a, b)
  }

  /** Merged are equal integers, booleans, units, atoms, unique names, names and builtins, and equal arities. */
  lemma MergesExactly(h: Heap, a: Ref, b: Ref)
    requires WellFormed(h) && a in h && b in h
    ensures Same(h, a, b) <==>
      || a == b
      || (h[a] == h[b] && TypeId(h[a]) in {1, 3, 4, 5, 10, 18, 19, 20})
      || (TypeId(h[a]) == TypeId(h[b]) == 8 && EqualIn(h, Children(h[a]), Children(h[b])))
  {
    Types(h[a]);
    Types(h[b]);
    hide TypeId, IsFeature, Children, IsArity;
  }

  /** References to equal contents, one by one. */
  predicate EqualIn(h: Heap, cs: seq<Ref>, ds: seq<Ref>)
  {
    |cs| == |ds| && forall i | 0 <= i < |cs| :: cs[i] in h && ds[i] in h && h[cs[i]] == h[ds[i]]
  }

  lemma SameSymmetric(h: Heap, a: Ref, b: Ref)
    requires WellFormed(h) && a in h && b in h && Same(h, a, b)
    ensures Same(h, b, a)
  {
  }

  lemma SameTransitive(h: Heap, a: Ref, b: Ref, c: Ref)
    requires WellFormed(h) && a in h && b in h && c in h && Same(h, a, b) && Same(h, b, c)
    ensures Same(h, a, c)
  {
  }

  /** The index of the first node of a list that is the same as a node. */
  ghost function Leader(h: Heap, list: seq<PickleNode>, r: Ref): Option<nat>
    requires WellFormed(h) && In(h, list) && r in h
  {
    if list == [] then None
    else if Same(h, list[0].node, r) then Some(list[0].index)
    else Leader(h, list[1..], r)
  }

  lemma {:induction false} LeaderIs(h: Heap, list: seq<PickleNode>, r: Ref, j: nat)
    requires WellFormed(h) && In(h, list) && r in h && j < |list| && Same(h, list[j].node, r)
    requires forall i | 0 <= i < j :: !Same(h, list[i].node, r)
    ensures Leader(h, list, r) == Some(list[j].index)
  {
    hide Same, WellFormed;
    if j > 0 {
      LeaderIs(h, list[1..], r, j - 1);
    }
  }

  lemma {:induction false} LeaderFound(h: Heap, list: seq<PickleNode>, r: Ref, i: nat) returns (j: nat)
    requires WellFormed(h) && In(h, list) && r in h && i < |list| && Same(h, list[i].node, r)
    ensures j <= i && Same(h, list[j].node, r) && Leader(h, list, r) == Some(list[j].index)
  {
    hide Same, WellFormed;
    if Same(h, list[0].node, r) {
      j := 0;
    } else {
      j := LeaderFound(h, list[1..], r, i - 1);
      j := j + 1;
    }
  }

  lemma {:induction false} LeaderSame(h: Heap, list: seq<PickleNode>, r: Ref, s: Ref)
    requires WellFormed(h) && In(h, list) && r in h && s in h && Same(h, r, s)
    ensures Leader(h, list, r) == Leader(h, list, s)
  {
    if list != [] {
      var n := list[0].node;
      assert n in h by { assert list[0] in list; }
      hide Same, WellFormed;
      if Same(h, n, r) {
        SameTransitive(h, n, r, s);
      } else if Same(h, n, s) {
        SameSymmetric(h, r, s);
        SameTransitive(h, n, s, r);
      }
      LeaderSame(h, list[1..], r, s);
    }
  }

  // --------------------------------------------------------------- the three lists

  /** The write phase of a node. */
  function Phase<R>(v: Value<R>): nat {
    if IsEarly(v) then 0 else if IsArity(v) then 1 else 2
  }

  lemma SamePhase(h: Heap, a: Ref, b: Ref)
    requires WellFormed(h) && a in h && b in h && Same(h, a, b)
    ensures Phase(h[a]) == Phase(h[b])
  {
  }

  /** What is left of a list after the phases up to n. */
  function Left(h: Heap, list: seq<PickleNode>, n: nat): (left: seq<PickleNode>)
    requires In(h, list)
    ensures |left| <= |list| && In(h, left) && forall x :: x in left <==> x in list && Phase(h[x.node]) > n
  {
    if list == [] then []
    else
      assert list[0] in list && forall x :: x in list <==> x == list[0] || x in list[1..];
      var rest := Left(h, list[1..], n);
      if Phase(h[list[0].node]) > n then [list[0]] + rest else rest
  }

  lemma {:induction false} LeftMore(h: Heap, list: seq<PickleNode>, x: PickleNode, n: nat)
    requires In(h, list) && x.node in h
    ensures In(h, list + [x])
    ensures Left(h, list + [x], n) == Left(h, list, n) + if Phase(h[x.node]) > n then [x] else []
  {
    assert In(h, list + [x]);
    if list != [] {
      assert (list + [x])[1..] == list[1..] + [x];
      LeftMore(h, list[1..], x, n);
    }
  }

  /** The nodes a phase leaves are led as before. */
  lemma {:induction false} LeaderLeft(h: Heap, list: seq<PickleNode>, r: Ref, n: nat)
    requires WellFormed(h) && In(h, list) && r in h && Phase(h[r]) > n
    ensures Leader(h, Left(h, list, n), r) == Leader(h, list, r)
  {
    if list != [] {
      var x := list[0];
      assert x in list;
      if Same(h, x.node, r) {
        SamePhase(h, x.node, r);
      }
      hide Same, WellFormed, Phase;
      LeaderLeft(h, list[1..], r, n);
      if Phase(h[x.node]) > n {
        assert Left(h, list, n)[1..] == Left(h, list[1..], n);
      }
    }
  }

  // --------------------------------------------------------------- what is written

  ghost predicate Covered(h: Heap, phi: map<Ref, nat>) {
    phi.Keys <= h.Keys && Closed(h, phi.Keys)
  }

  function Mapped(cs: seq<Ref>, phi: map<Ref, nat>): (ks: seq<nat>)
    requires forall c <- cs :: c in phi
    ensures |ks| == |cs| && forall i | 0 <= i < |cs| :: ks[i] == phi[cs[i]]
  {
    seq(|cs|, i requires 0 <= i < |cs| => phi[cs[i]])
  }

  /** A node, with indices for its references. */
  function Renamed(v: Value<Ref>, phi: map<Ref, nat>): Value<nat>
    requires forall c <- Children(v) :: c in phi
  {
    WithChildren(v, Mapped(Children(v), phi))
  }

  lemma RenamedCopies(v: Value<Ref>, phi: map<Ref, nat>)
    requires forall c <- Children(v) :: c in phi
    ensures Copies(v, Renamed(v, phi), phi)
  {
    hide Copies, WithChildren, Children;
    WithCopies(v, Mapped(Children(v), phi), phi);
  }

  ghost predicate Within(list: seq<PickleNode>, phi: map<Ref, nat>) {
    forall n <- list :: n.node in phi
  }

  /** A node that a phase writes: one that leads. */
  ghost function KeptOne(h: Heap, phi: map<Ref, nat>, x: PickleNode, n: nat): seq<Item>
    requires Covered(h, phi) && x.node in phi
  {
    if Phase(h[x.node]) == n && phi[x.node] == x.index then [Item(x.index, Renamed(h[x.node], phi))] else []
  }

  /** The nodes of a list that a phase writes. */
  ghost function Kept(h: Heap, phi: map<Ref, nat>, list: seq<PickleNode>, n: nat): (items: seq<Item>)
    requires Covered(h, phi) && Within(list, phi)
  {
    if list == [] then []
    else
      assert list[0] in list && Within(list[1..], phi);
      KeptOne(h, phi, list[0], n) + Kept(h, phi, list[1..], n)
  }

  lemma KeptFirst(h: Heap, phi: map<Ref, nat>, list: seq<PickleNode>, n: nat)
    requires Covered(h, phi) && Within(list, phi) && list != []
    ensures list[0].node in phi && Within(list[1..], phi)
    ensures Kept(h, phi, list, n) == KeptOne(h, phi, list[0], n) + Kept(h, phi, list[1..], n)
  {
    assert list[0] in list;
  }

  lemma {:induction false} KeptMore(h: Heap, phi: map<Ref, nat>, list: seq<PickleNode>, x: PickleNode, n: nat)
    requires Covered(h, phi) && Within(list, phi) && x.node in phi
    ensures Within(list + [x], phi)
    ensures Kept(h, phi, list + [x], n) == Kept(h, phi, list, n) + KeptOne(h, phi, x, n)
  {
    hide Covered, KeptOne;
    assert Within(list + [x], phi);
    if list != [] {
      KeptFirst(h, phi, list, n);
      KeptFirst(h, phi, list + [x], n);
      assert (list + [x])[1..] == list[1..] + [x];
      KeptMore(h, phi, list[1..], x, n);
    } else {
      assert (list + [x])[1..] == [];
    }
  }

  /** What a phase writes is what it writes of the nodes the phases before it left. */
  lemma {:induction false} KeptLeft(h: Heap, phi: map<Ref, nat>, list: seq<PickleNode>, m: nat, n: nat)
    requires Covered(h, phi) && Within(list, phi) && In(h, list) && m < n
    ensures Within(Left(h, list, m), phi) && Kept(h, phi, Left(h, list, m), n) == Kept(h, phi, list, n)
  {
    hide Covered, Closed, Phase;
    var left := Left(h, list, m);
    assert Within(left, phi);
    if list != [] {
      var x := list[0];
      KeptFirst(h, phi, list, n);
      assert x in list;
      KeptLeft(h, phi, list[1..], m, n);
      if Phase(h[x.node]) > m {
        assert left[1..] == Left(h, list[1..], m);
      }
    }
  }

  lemma KeptOneIs(h: Heap, phi: map<Ref, nat>, x: PickleNode, n: nat)
    requires Covered(h, phi) && x.node in phi && Phase(h[x.node]) == n && phi[x.node] == x.index
    ensures KeptOne(h, phi, x, n) == [Item(x.index, Renamed(h[x.node], phi))]
  {
  }

  lemma {:induction false} KeptHas(h: Heap, phi: map<Ref, nat>, list: seq<PickleNode>, n: nat, j: nat)
    requires Covered(h, phi) && Within(list, phi) && j < |list| && list[j].node in phi
    requires Phase(h[list[j].node]) == n && phi[list[j].node] == list[j].index
    ensures Item(list[j].index, Renamed(h[list[j].node], phi)) in Kept(h, phi, list, n)
  {
    hide *;
    KeptFirst(h, phi, list, n);
    if j == 0 {
      KeptOneIs(h, phi, list[0], n);
    } else {
      assert list[j] == list[1..][j - 1];
      KeptHas(h, phi, list[1..], n, j - 1);
    }
  }

  /** A node of a list that a phase writes. */
  ghost predicate Writes(h: Heap, phi: map<Ref, nat>, x: PickleNode, n: nat) {
    x.node in h && x.node in phi && Phase(h[x.node]) == n && phi[x.node] == x.index
  }

  lemma OneWrites(h: Heap, phi: map<Ref, nat>, x: PickleNode, n: nat)
    requires Covered(h, phi) && x.node in phi
    ensures var one := KeptOne(h, phi, x, n);
      |one| <= 1 && (one != [] ==> Writes(h, phi, x, n) && one[0] == Item(x.index, Renamed(h[x.node], phi)))
  {
  }

  lemma {:induction false} KeptOnly(h: Heap, phi: map<Ref, nat>, list: seq<PickleNode>, n: nat, i: nat) returns (j: nat)
    requires Covered(h, phi) && Within(list, phi) && i < |Kept(h, phi, list, n)|
    ensures j < |list| && Writes(h, phi, list[j], n)
    ensures Kept(h, phi, list, n)[i] == Item(list[j].index, Renamed(h[list[j].node], phi))
  {
    hide *;
    KeptSome(h, phi, list, n);
    KeptFirst(h, phi, list, n);
    OneWrites(h, phi, list[0], n);
    var one := KeptOne(h, phi, list[0], n);
    if i < |one| {
      j := 0;
    } else {
      j := KeptOnly(h, phi, list[1..], n, i - |one|);
      j := j + 1;
    }
  }

  lemma KeptSome(h: Heap, phi: map<Ref, nat>, list: seq<PickleNode>, n: nat)
    requires Covered(h, phi) && Within(list, phi) && Kept(h, phi, list, n) != []
    ensures list != []
  {
  }

  ghost predicate Apart(list: seq<PickleNode>) {
    forall i, j | 0 <= i < j < |list| :: list[i].index != list[j].index
  }

  lemma ApartRest(list: seq<PickleNode>)
    requires Apart(list) && list != []
    ensures Apart(list[1..]) && forall j | 0 <= j < |list| - 1 :: list[1..][j].index != list[0].index
  {
  }

  ghost predicate ItemsApart(items: seq<Item>) {
    forall i, j | 0 <= i < j < |items| :: items[i].index != items[j].index
  }

  lemma OneApart(one: seq<Item>, rest: seq<Item>)
    requires |one| <= 1 && ItemsApart(rest)
    requires one != [] ==> forall b | 0 <= b < |rest| :: rest[b].index != one[0].index
    ensures ItemsApart(one + rest)
  {
  }

  /** Two written nodes of a phase are two nodes. */
  lemma {:induction false} KeptApart(h: Heap, phi: map<Ref, nat>, list: seq<PickleNode>, n: nat)
    requires Covered(h, phi) && Within(list, phi) && Apart(list)
    ensures ItemsApart(Kept(h, phi, list, n))
  {
    if list != [] {
      hide Covered, Kept, KeptOne, Writes, Renamed, Within, Apart, ItemsApart;
      KeptFirst(h, phi, list, n);
      OneWrites(h, phi, list[0], n);
      ApartRest(list);
      KeptApart(h, phi, list[1..], n);
      var rest := Kept(h, phi, list[1..], n);
      forall b | 0 <= b < |rest| ensures rest[b].index != list[0].index {
        var j := KeptOnly(h, phi, list[1..], n, b);
      }
      OneApart(KeptOne(h, phi, list[0], n), rest);
    }
  }

  // --------------------------------------------------------------- what the written nodes say

  ghost predicate Led(h: Heap, nodes: seq<PickleNode>, num: map<Ref, nat>) {
    && WellFormed(h) && In(h, nodes) && num.Keys <= h.Keys
    && forall r <- num :: Leader(h, nodes, r).Some?
  }

  /** The index a node is referred to by. */
  ghost function Phi(h: Heap, nodes: seq<PickleNode>, num: map<Ref, nat>): (phi: map<Ref, nat>)
    requires Led(h, nodes, num)
    ensures phi.Keys == num.Keys
  {
    map r | r in num :: Leader(h, nodes, r).value
  }

  ghost function AllItems(h: Heap, phi: map<Ref, nat>, nodes: seq<PickleNode>): seq<Item>
    requires Covered(h, phi) && Within(nodes, phi)
  {
    Kept(h, phi, nodes, 0) + Kept(h, phi, nodes, 1) + Kept(h, phi, nodes, 2)
  }

  /** No index is written twice, or for nothing. */
  ghost predicate Sound(phi: map<Ref, nat>, items: seq<Item>) {
    && ItemsApart(items)
    && (forall x <- items :: x.index in phi.Values)
  }

  /** Every node is written, under an index that is its own or that of the same nodes. */
  ghost predicate Complete(h: Heap, phi: map<Ref, nat>, items: seq<Item>)
    requires WellFormed(h) && Covered(h, phi)
  {
    && (forall r <- phi :: Item(phi[r], Renamed(h[r], phi)) in items && Copies(h[r], Renamed(h[r], phi), phi))
    && (forall r, s | r in phi && s in phi :: phi[r] == phi[s] <==> Same(h, r, s))
  }

  /**
   * Written nodes are a copy of what a root reaches: no index is written twice or for nothing, every node is written
   * under its index with the indices of what it refers to, and two nodes have one index exactly when they are the same.
   */
  ghost predicate Faithful(h: Heap, root: Ref, phi: map<Ref, nat>, items: seq<Item>)
    requires WellFormed(h)
  {
    Reaches(h, root, phi.Keys) && Sound(phi, items) && Complete(h, phi, items)
  }

  /** An arity is written after its label and its features. */
  ghost predicate AritiesLater(items: seq<Item>) {
    forall i | 0 <= i < |items| && IsArity(items[i].value) ::
      forall c <- Children(items[i].value) :: exists j :: 0 <= j < i && items[j].index == c
  }

  ghost predicate Ready(h: Heap, root: Ref, num: map<Ref, nat>, nodes: seq<PickleNode>, bound: map<Place, nat>) {
    && WellFormed(h) && Numbering(h, root, num, nodes, bound) && Led(h, nodes, num)
    && Covered(h, Phi(h, nodes, num)) && Within(nodes, Phi(h, nodes, num))
    && Apart(nodes)
  }

  lemma NumberingReady(h: Heap, root: Ref, num: map<Ref, nat>, nodes: seq<PickleNode>, bound: map<Place, nat>)
    requires WellFormed(h) && Numbering(h, root, num, nodes, bound)
    ensures Ready(h, root, num, nodes, bound)
  {
    hide Leader, Children, WithChildren, Placed, IsArity, IsFeature, Same;
    assert num.Keys <= h.Keys;
    assert In(h, nodes);
    forall r <- num ensures Leader(h, nodes, r).Some? {
      LedByItself(h, nodes, r, |nodes| - num[r]);
    }
    hide Numbering, WellFormed;
  }

  lemma LedByItself(h: Heap, nodes: seq<PickleNode>, r: Ref, j: nat)
    requires WellFormed(h) && In(h, nodes) && r in h && j < |nodes| && nodes[j].node == r
    ensures Leader(h, nodes, r).Some?
  {
    var i := LeaderFound(h, nodes, r, j);
  }

  /** The node a node is written as. */
  lemma PhiIs(h: Heap, root: Ref, num: map<Ref, nat>, nodes: seq<PickleNode>, bound: map<Place, nat>, r: Ref)
    returns (j: nat)
    requires Ready(h, root, num, nodes, bound) && r in num
    ensures var phi := Phi(h, nodes, num);
      && j < |nodes| && nodes[j].node in num && nodes[j].index == phi[r] == num[nodes[j].node]
      && Same(h, nodes[j].node, r) && phi[nodes[j].node] == phi[r]
  {
    j := LeaderFound(h, nodes, r, |nodes| - num[r]);
    LeaderSame(h, nodes, nodes[j].node, r);
  }

  lemma PhiSame(h: Heap, root: Ref, num: map<Ref, nat>, nodes: seq<PickleNode>, bound: map<Place, nat>, r: Ref, s: Ref)
    requires Ready(h, root, num, nodes, bound) && r in num && s in num
    ensures Phi(h, nodes, num)[r] == Phi(h, nodes, num)[s] <==> Same(h, r, s)
  {
    if Same(h, r, s) {
      LeaderSame(h, nodes, r, s);
    } else if Phi(h, nodes, num)[r] == Phi(h, nodes, num)[s] {
      var i := PhiIs(h, root, num, nodes, bound, r);
      var j := PhiIs(h, root, num, nodes, bound, s);
      assert nodes[i].node == nodes[j].node;
      SameSymmetric(h, nodes[i].node, r);
      SameTransitive(h, r, nodes[i].node, s);
      assert false;
    }
  }

  /** The same node reads the same. */
  lemma SameReads(h: Heap, phi: map<Ref, nat>, r: Ref, s: Ref)
    requires WellFormed(h) && Covered(h, phi) && r in phi && s in phi && Same(h, r, s)
    requires forall a, b | a in phi && b in phi && Same(h, a, b) :: phi[a] == phi[b]
    ensures Renamed(h[r], phi) == Renamed(h[s], phi)
  {
    if SameArity(h, r, s) {
      var (cs, ds) := (Children(h[r]), Children(h[s]));
      forall i | 0 <= i < |cs| ensures phi[cs[i]] == phi[ds[i]] {
        assert Same(h, cs[i], ds[i]);
      }
      assert Mapped(cs, phi) == Mapped(ds, phi);
    } else if r != s {
      assert Children(h[r]) == [] && Children(h[s]) == [];
    }
  }

  /** An item of some phase. */
  lemma ItemOf(h: Heap, phi: map<Ref, nat>, nodes: seq<PickleNode>, i: nat) returns (n: nat, j: nat)
    requires Covered(h, phi) && Within(nodes, phi) && i < |AllItems(h, phi, nodes)|
    ensures j < |nodes| && nodes[j].node in phi && phi[nodes[j].node] == nodes[j].index && n == Phase(h[nodes[j].node])
    ensures AllItems(h, phi, nodes)[i] == Item(nodes[j].index, Renamed(h[nodes[j].node], phi))
    ensures n == if i < |Kept(h, phi, nodes, 0)| then 0
      else if i < |Kept(h, phi, nodes, 0)| + |Kept(h, phi, nodes, 1)| then 1 else 2
  {
    hide Covered, Closed, Phase, Renamed, Kept;
    var (a, b) := (|Kept(h, phi, nodes, 0)|, |Kept(h, phi, nodes, 1)|);
    if i < a {
      n := 0;
      j := KeptOnly(h, phi, nodes, 0, i);
    } else if i < a + b {
      n := 1;
      j := KeptOnly(h, phi, nodes, 1, i - a);
    } else {
      n := 2;
      j := KeptOnly(h, phi, nodes, 2, i - a - b);
    }
  }

  lemma ItemsDiffer(h: Heap, phi: map<Ref, nat>, nodes: seq<PickleNode>, i: nat, j: nat)
    requires Covered(h, phi) && Within(nodes, phi) && i < j < |AllItems(h, phi, nodes)|
    requires Apart(nodes)
    ensures AllItems(h, phi, nodes)[i].index != AllItems(h, phi, nodes)[j].index
  {
    hide Covered, Closed, Phase, Renamed, Kept;
    var (a, b) := (|Kept(h, phi, nodes, 0)|, |Kept(h, phi, nodes, 1)|);
    var m, k := ItemOf(h, phi, nodes, i);
    var n, l := ItemOf(h, phi, nodes, j);
    if m == n {
      var off := if n == 0 then 0 else if n == 1 then a else a + b;
      KeptApart(h, phi, nodes, n);
      assert Kept(h, phi, nodes, n)[i - off].index != Kept(h, phi, nodes, n)[j - off].index;
    } else {
      assert k != l;
    }
  }

  lemma WritesAll(h: Heap, root: Ref, num: map<Ref, nat>, nodes: seq<PickleNode>, bound: map<Place, nat>, r: Ref)
    requires Ready(h, root, num, nodes, bound) && r in num
    ensures var phi := Phi(h, nodes, num);
      && Item(phi[r], Renamed(h[r], phi)) in Kept(h, phi, nodes, Phase(h[r]))
      && Item(phi[r], Renamed(h[r], phi)) in AllItems(h, phi, nodes)
  {
    var phi := Phi(h, nodes, num);
    var j := PhiIs(h, root, num, nodes, bound, r);
    var l := nodes[j].node;
    forall a, b | a in phi && b in phi && Same(h, a, b) ensures phi[a] == phi[b] {
      PhiSame(h, root, num, nodes, bound, a, b);
    }
    SameReads(h, phi, l, r);
    SamePhase(h, l, r);
    KeptHas(h, phi, nodes, Phase(h[l]), j);
    assert Phase(h[r]) in {0, 1, 2};
  }

  /** What a written arity refers to is written in the first phase. */
  lemma FeaturesEarly(h: Heap, root: Ref, num: map<Ref, nat>, nodes: seq<PickleNode>, bound: map<Place, nat>, r: Ref,
                      x: nat) returns (j: nat)
    requires Ready(h, root, num, nodes, bound) && r in num && IsArity(h[r]) && x < |Children(h[r])| &&
      Children(h[r])[x] in num
    ensures var phi := Phi(h, nodes, num);
      && j < |Kept(h, phi, nodes, 0)| && Kept(h, phi, nodes, 0)[j].index == phi[Children(h[r])[x]]
  {
    var phi := Phi(h, nodes, num);
    var f := Children(h[r])[x];
    assert f in Children(h[r]) && Phase(h[f]) == 0;
    hide *;
    WritesAll(h, root, num, nodes, bound, f);
    j :| 0 <= j < |Kept(h, phi, nodes, 0)| && Kept(h, phi, nodes, 0)[j] == Item(phi[f], Renamed(h[f], phi));
  }

  lemma OrderKept(h: Heap, root: Ref, num: map<Ref, nat>, nodes: seq<PickleNode>, bound: map<Place, nat>)
    requires Ready(h, root, num, nodes, bound)
    ensures AritiesLater(AllItems(h, Phi(h, nodes, num), nodes))
  {
    var phi := Phi(h, nodes, num);
    hide Ready, Phi, Renamed, Kept, Covered, Closed, Within, Phase, IsArity, Children, Led, WellFormed;
    var items := AllItems(h, phi, nodes);
    var early := Kept(h, phi, nodes, 0);
    forall i, c | 0 <= i < |items| && IsArity(items[i].value) && c in Children(items[i].value)
      ensures exists j :: 0 <= j < i && items[j].index == c
    {
      var n, k := ItemOf(h, phi, nodes, i);
      var r := nodes[k].node;
      ArityItem(h, phi, r, n);
      var x :| 0 <= x < |Children(items[i].value)| && c == Children(items[i].value)[x];
      var j := FeaturesEarly(h, root, num, nodes, bound, r, x);
      assert items[j] == early[j];
    }
  }

  lemma ArityItem(h: Heap, phi: map<Ref, nat>, r: Ref, n: nat)
    requires Covered(h, phi) && r in phi && n == Phase(h[r]) && IsArity(Renamed(h[r], phi))
    ensures IsArity(h[r]) && n == 1 && Children(Renamed(h[r], phi)) == Mapped(Children(h[r]), phi)
    ensures forall c <- Children(h[r]) :: c in phi
  {
  }

  /** Nothing else that the root reaches is the same as it. */
  lemma OnlyRoot(h: Heap, root: Ref, s: set<Ref>, l: Ref)
    requires WellFormed(h) && Reaches(h, root, s) && l in s && Same(h, l, root)
    ensures l == root
  {
    hide Children, WithChildren, Same, IsFeature, IsArity, WellFormedAt, Reaches;
    ReachedIn(h, root, s, l);
    if l != root {
      RootSame(h, l, root);
      forall c <- Children(h[root]) ensures c in h && Children(h[c]) == [] && IsFeature(h[c]) {
        NoChildren(h[c]);
      }
      NothingBelow(h, root, s, l);
      assert false;
    }
  }

  lemma ReachedIn(h: Heap, root: Ref, s: set<Ref>, l: Ref)
    requires Reaches(h, root, s) && l in s
    ensures l in h && root in h
  {
  }

  lemma NothingBelow(h: Heap, root: Ref, s: set<Ref>, l: Ref)
    requires Reaches(h, root, s) && l in s && forall c <- Children(h[root]) :: c in h && Children(h[c]) == []
    ensures l == root || l in Children(h[root])
  {
    hide Children;
    var t := {root} + set c | c in Children(h[root]);
    assert Closed(h, t);
  }

  lemma NoChildren(v: Value<Ref>)
    requires Mergeable(v)
    ensures Children(v) == []
  {
  }

  lemma RootSame(h: Heap, l: Ref, root: Ref)
    requires WellFormed(h) && l in h && root in h && Same(h, l, root) && l != root
    ensures Mergeable(h[root]) ==> Children(h[root]) == []
    ensures forall c <- Children(h[root]) :: c in h
    ensures !Mergeable(h[root]) ==>
      IsArity(h[root]) && IsArity(h[l]) && forall c <- Children(h[root]) :: IsFeature(h[c])
    ensures IsArity(h[l]) ==> !IsFeature(h[l])
  {
  }

  /** The node the root is written as has the root's number: the header may name it without redirection. */
  lemma RootWritten(h: Heap, root: Ref, num: map<Ref, nat>, nodes: seq<PickleNode>, bound: map<Place, nat>)
    requires Ready(h, root, num, nodes, bound)
    ensures root in num && Phi(h, nodes, num)[root] == num[root]
  {
    assert Reaches(h, root, num.Keys);
    hide Same, Reaches, Closed, Leader;
    var j := PhiIs(h, root, num, nodes, bound, root);
    OnlyRoot(h, root, num.Keys, nodes[j].node);
  }

  lemma ReadyIs(h: Heap, root: Ref, num: map<Ref, nat>, nodes: seq<PickleNode>, bound: map<Place, nat>)
    requires Ready(h, root, num, nodes, bound)
    ensures WellFormed(h) && Led(h, nodes, num) && Reaches(h, root, num.Keys) && num.Keys <= h.Keys
    ensures Covered(h, Phi(h, nodes, num)) && Within(nodes, Phi(h, nodes, num))
    ensures forall r <- num :: forall c <- Children(h[r]) :: c in num
    ensures Apart(nodes)
  {
  }

  lemma ItemsSound(h: Heap, root: Ref, num: map<Ref, nat>, nodes: seq<PickleNode>, bound: map<Place, nat>)
    requires Ready(h, root, num, nodes, bound)
    ensures Sound(Phi(h, nodes, num), AllItems(h, Phi(h, nodes, num), nodes))
  {
    hide Ready, Phi, AllItems, Renamed, Numbering, WellFormed, Led, Covered, Within, Phase, Kept;
    ReadyIs(h, root, num, nodes, bound);
    var phi := Phi(h, nodes, num);
    var items := AllItems(h, phi, nodes);
    forall i, j | 0 <= i < j < |items| ensures items[i].index != items[j].index {
      ItemsDiffer(h, phi, nodes, i, j);
    }
    forall i | 0 <= i < |items| ensures items[i].index in phi.Values {
      var n, j := ItemOf(h, phi, nodes, i);
      assert nodes[j].node in phi && phi[nodes[j].node] == items[i].index;
    }
  }

  /** The main result about the written nodes. */
  lemma WritesFaithfully(h: Heap, root: Ref, num: map<Ref, nat>, nodes: seq<PickleNode>, bound: map<Place, nat>)
    requires WellFormed(h) && Numbering(h, root, num, nodes, bound)
    ensures Ready(h, root, num, nodes, bound)
    ensures var phi := Phi(h, nodes, num);
      && root in phi && phi[root] == num[root]
      && Faithful(h, root, phi, AllItems(h, phi, nodes)) && AritiesLater(AllItems(h, phi, nodes))
  {
    hide *;
    NumberingReady(h, root, num, nodes, bound);
    ReadyIs(h, root, num, nodes, bound);
    RootWritten(h, root, num, nodes, bound);
    OrderKept(h, root, num, nodes, bound);
    ItemsSound(h, root, num, nodes, bound);
    ItemsComplete(h, root, num, nodes, bound);
    FaithfulIs(h, root, Phi(h, nodes, num), AllItems(h, Phi(h, nodes, num), nodes));
  }

  lemma FaithfulIs(h: Heap, root: Ref, phi: map<Ref, nat>, items: seq<Item>)
    requires WellFormed(h) && Reaches(h, root, phi.Keys) && Sound(phi, items) && Complete(h, phi, items)
    ensures Faithful(h, root, phi, items)
  {
  }

  lemma CopiesAt(h: Heap, phi: map<Ref, nat>, r: Ref)
    requires Covered(h, phi) && r in phi
    ensures Copies(h[r], Renamed(h[r], phi), phi)
  {
    RenamedCopies(h[r], phi);
  }

  lemma ItemsComplete(h: Heap, root: Ref, num: map<Ref, nat>, nodes: seq<PickleNode>, bound: map<Place, nat>)
    requires Ready(h, root, num, nodes, bound)
    ensures Complete(h, Phi(h, nodes, num), AllItems(h, Phi(h, nodes, num), nodes))
  {
    hide Ready, Phi, AllItems, Reaches, Same, Renamed, Numbering, WellFormed, Leader, Led, Kept, Phase, Covered, Within,
         Copies;
    ReadyIs(h, root, num, nodes, bound);
    var phi := Phi(h, nodes, num);
    forall r <- phi
      ensures Item(phi[r], Renamed(h[r], phi)) in AllItems(h, phi, nodes) && Copies(h[r], Renamed(h[r], phi), phi)
    {
      WritesAll(h, root, num, nodes, bound, r);
      CopiesAt(h, phi, r);
    }
    forall r, s | r in phi && s in phi ensures phi[r] == phi[s] <==> Same(h, r, s) {
      PhiSame(h, root, num, nodes, bound, r, s);
    }
  }
}
