/** The first pass of a pickle: every reachable node gets a number, the nodes being overwritten by their numbers
    meanwhile. */
module PickleNumbering {
  import opened PickleFormat

  type Ref = nat
  type Heap = map<Ref, Value<Ref>>

  /** No reference dangles, and an arity lists features. */
  ghost predicate WellFormed(h: Heap) {
    && Closed(h, h.Keys)
    && forall r | r in h && IsArity(h[r]) :: forall c <- Children(h[r]) :: IsFeature(h[c])
  }

  ghost predicate Closed(h: Heap, s: set<Ref>) {
    s <= h.Keys && forall r <- s :: forall c <- Children(h[r]) :: c in s
  }

  /** A set is what a root reaches: the least closed set that holds it. */
  ghost predicate Reaches(h: Heap, root: Ref, s: set<Ref>) {
    root in s && Closed(h, s) && forall t: set<Ref> :: Closed(h, t) && root in t ==> s <= t
  }

  /** The dataflow variables of the serialization: the top level index, and the references of the numbered nodes. */
  datatype Place = Top | Field(index: nat, i: nat)

  datatype PickleNode = PickleNode(index: nat, node: Ref, refs: Value<Place>)

  datatype Content = Live(v: Value<Ref>) | Serialized(n: nat)

  function Places(k: nat, n: nat): (ps: seq<Place>)
    ensures |ps| == n && forall i | 0 <= i < n :: ps[i] == Field(k, i)
  {
    seq(n, i requires 0 <= i < n => Field(k, i))
  }

  /** The record serialize makes of a node. */
  function Placed(k: nat, v: Value<Ref>): Value<Place> {
    WithChildren(v, Places(k, |Children(v)|))
  }

  /** The state of the pass. */
  datatype Work = Work(content: map<Ref, Content>, from: seq<Ref>, to: seq<Place>, bound: map<Place, nat>,
                       nodes: seq<PickleNode>)

  /** The node with a number. */
  function NodeAt(nodes: seq<PickleNode>, k: nat): Ref
    requires 1 <= k <= |nodes|
  {
    nodes[|nodes| - k].node
  }

  ghost predicate IsPlace(h: Heap, nodes: seq<PickleNode>, p: Place) {
    p.Top? || (1 <= p.index <= |nodes| && NodeAt(nodes, p.index) in h && p.i < |Children(h[NodeAt(nodes, p.index)])|)
  }

  /** What a place stands for. */
  ghost function Target(h: Heap, root: Ref, nodes: seq<PickleNode>, p: Place): Ref
    requires IsPlace(h, nodes, p)
  {
    if p.Top? then root else Children(h[NodeAt(nodes, p.index)])[p.i]
  }

  /** The list of nodes, the highest number first. */
  ghost predicate Listed(h: Heap, nodes: seq<PickleNode>) {
    forall j | 0 <= j < |nodes| ::
      nodes[j].index == |nodes| - j && nodes[j].node in h && nodes[j].refs == Placed(|nodes| - j, h[nodes[j].node])
  }

  /** A node holds its own content, or its number. */
  ghost predicate Overwritten(h: Heap, w: Work) {
    && w.content.Keys == h.Keys
    && (forall r | r in h && w.content[r].Live? :: w.content[r].v == h[r])
    && (forall r | r in h && w.content[r].Serialized? ::
        1 <= w.content[r].n <= |w.nodes| && NodeAt(w.nodes, w.content[r].n) == r)
    && (forall j | 0 <= j < |w.nodes| ::
        w.nodes[j].node in h && w.content[w.nodes[j].node] == Serialized(|w.nodes| - j))
  }

  /** What is to do: places that are not bound, each once. */
  ghost predicate Waiting(h: Heap, root: Ref, w: Work) {
    && |w.from| == |w.to|
    && (forall i | 0 <= i < |w.to| ::
      IsPlace(h, w.nodes, w.to[i]) && w.from[i] == Target(h, root, w.nodes, w.to[i]) && w.to[i] !in w.bound &&
        w.from[i] in h)
    && (forall i, j | 0 <= i < j < |w.to| :: w.to[i] != w.to[j])
  }

  predicate Has(content: map<Ref, Content>, r: Ref, n: nat) {
    r in content && content[r] == Serialized(n)
  }

  /** Every place is bound, to the number of what it stands for, or to do. */
  ghost predicate Placing(h: Heap, root: Ref, w: Work) {
    && (forall p | IsPlace(h, w.nodes, p) :: p in w.bound || p in w.to)
    && (forall p <- w.bound :: IsPlace(h, w.nodes, p) && Has(w.content, Target(h, root, w.nodes, p), w.bound[p]))
  }

  /** Nothing but what the root reaches has been touched. */
  ghost predicate Needed(h: Heap, root: Ref, w: Work) {
    forall t: set<Ref> :: Closed(h, t) && root in t ==>
      && (forall n <- w.nodes :: n.node in t)
      && (forall r <- w.from :: r in t)
  }

  ghost predicate Inv(h: Heap, root: Ref, w: Work) {
    Listed(h, w.nodes) && Overwritten(h, w) && Waiting(h, root, w) && Placing(h, root, w) && Needed(h, root, w)
  }

  ghost function Start(h: Heap, root: Ref): Work {
    Work(map r | r in h :: Live(h[r]), [root], [Top], map[], [])
  }

  lemma InvAtStart(h: Heap, root: Ref)
    requires root in h
    ensures Inv(h, root, Start(h, root))
  {
  }

  /** The next node has a number already. */
  function Bound(w: Work): Work
    requires w.from != [] && w.to != [] && w.from[0] in w.content && w.content[w.from[0]].Serialized?
  {
    w.(from := w.from[1..], to := w.to[1..], bound := w.bound[w.to[0] := w.content[w.from[0]].n])
  }

  lemma BoundKeeps(h: Heap, root: Ref, w: Work)
    requires Inv(h, root, w) && w.from != [] && w.from[0] in w.content && w.content[w.from[0]].Serialized?
    ensures Inv(h, root, Bound(w))
  {
    hide Listed, Waiting, Placing, Needed, Closed;
    BoundWaits(h, root, w);
    BoundPlaces(h, root, w);
    BoundNeeds(h, root, w);
  }

  lemma BoundNeeds(h: Heap, root: Ref, w: Work)
    requires Needed(h, root, w) && w.from != [] && w.to != []
    requires w.from[0] in w.content && w.content[w.from[0]].Serialized?
    ensures Needed(h, root, Bound(w))
  {
    hide Closed;
    forall r <- Bound(w).from ensures r in w.from { }
  }

  lemma BoundWaits(h: Heap, root: Ref, w: Work)
    requires Waiting(h, root, w) && w.from != [] && w.from[0] in w.content && w.content[w.from[0]].Serialized?
    ensures w.to != [] && Waiting(h, root, Bound(w))
  {
    hide IsPlace, Target;
    var v := Bound(w);
    forall i | 0 <= i < |v.to| ensures v.to[i] == w.to[i + 1] && v.from[i] == w.from[i + 1] { }
  }

  lemma BoundPlaces(h: Heap, root: Ref, w: Work)
    requires Placing(h, root, w) && Waiting(h, root, w)
    requires w.from != [] && w.from[0] in w.content && w.content[w.from[0]].Serialized?
    ensures Placing(h, root, Bound(w))
  {
    hide IsPlace, Target;
    assert w.to == [w.to[0]] + Bound(w).to;
  }

  /** The next node gets the next number. */
  function Numbered(w: Work): Work
    requires w.from != [] && w.to != [] && w.from[0] in w.content && w.content[w.from[0]].Live?
  {
    var (from, k) := (w.from[0], |w.nodes| + 1);
    var v := w.content[from].v;
    Work(w.content[from := Serialized(k)], w.from[1..] + Children(v), w.to[1..] + Places(k, |Children(v)|),
         w.bound[w.to[0] := k], [PickleNode(k, from, Placed(k, v))] + w.nodes)
  }

  /** The places of the nodes numbered before are what they were. */
  lemma OldPlaces(h: Heap, root: Ref, nodes: seq<PickleNode>, n: PickleNode, p: Place)
    requires p.Top? || p.index <= |nodes|
    ensures IsPlace(h, [n] + nodes, p) == IsPlace(h, nodes, p)
    ensures IsPlace(h, nodes, p) ==> Target(h, root, [n] + nodes, p) == Target(h, root, nodes, p)
  {
    if p.Field? && 1 <= p.index {
      assert ([n] + nodes)[|nodes| + 1 - p.index] == nodes[|nodes| - p.index];
    }
  }

  /** The places of the last node. */
  lemma NewPlaces(h: Heap, root: Ref, nodes: seq<PickleNode>, n: PickleNode, i: nat)
    requires n.node in h
    ensures IsPlace(h, [n] + nodes, Field(|nodes| + 1, i)) == (i < |Children(h[n.node])|)
    ensures i < |Children(h[n.node])| ==> Target(h, root, [n] + nodes, Field(|nodes| + 1, i)) == Children(h[n.node])[i]
  {
  }

  lemma NumberedKeeps(h: Heap, root: Ref, w: Work)
    requires WellFormed(h) && Inv(h, root, w)
    requires w.from != [] && w.from[0] in w.content && w.content[w.from[0]].Live?
    ensures Inv(h, root, Numbered(w))
  {
    assert w.to != [];
    NumberedLists(h, w);
    NumberedOverwrites(h, w);
    NumberedWaits(h, root, w);
    NumberedPlaces(h, root, w);
    NumberedNeeds(h, root, w);
  }

  lemma NumberedLists(h: Heap, w: Work)
    requires Overwritten(h, w) && Listed(h, w.nodes)
    requires w.from != [] && w.to != [] && w.from[0] in w.content && w.content[w.from[0]].Live?
    ensures Listed(h, Numbered(w).nodes)
  {
    hide WithChildren, Children, NodeAt, Places;
    var v := Numbered(w);
    forall j | 0 < j < |v.nodes| ensures v.nodes[j] == w.nodes[j - 1] { }
  }

  lemma NumberedOverwrites(h: Heap, w: Work)
    requires Overwritten(h, w)
    requires w.from != [] && w.to != [] && w.from[0] in w.content && w.content[w.from[0]].Live?
    ensures Overwritten(h, Numbered(w))
  {
    hide WithChildren, Children, Places, Listed;
    var v := Numbered(w);
    forall r | r in h && r != w.from[0] && w.content[r].Serialized?
      ensures NodeAt(v.nodes, w.content[r].n) == NodeAt(w.nodes, w.content[r].n)
    {
    }
  }

  lemma NumberedWaits(h: Heap, root: Ref, w: Work)
    requires WellFormed(h) && Inv(h, root, w)
    requires w.from != [] && w.from[0] in w.content && w.content[w.from[0]].Live?
    ensures Waiting(h, root, Numbered(w))
  {
    hide Placing, Needed, Listed, WithChildren, Children, IsPlace, Target;
    var (v, k, n) := (Numbered(w), |w.nodes| + 1, Numbered(w).nodes[0]);
    var cs := Children(h[w.from[0]]);
    forall i | 0 <= i < |v.to|
      ensures IsPlace(h, v.nodes, v.to[i]) && v.from[i] == Target(h, root, v.nodes, v.to[i]) && v.to[i] !in v.bound &&
        v.from[i] in h
    {
      if i < |w.to| - 1 {
        assert v.to[i] == w.to[i + 1] && v.from[i] == w.from[i + 1];
        PlaceIsOld(h, root, w, w.to[i + 1]);
        OldPlaces(h, root, w.nodes, n, w.to[i + 1]);
      } else {
        var c := i - (|w.to| - 1);
        assert v.to[i] == Field(k, c) && v.from[i] == cs[c];
        NewPlaces(h, root, w.nodes, n, c);
        PlaceIsOld(h, root, w, w.to[0]);
        BoundIsOld(h, root, w, Field(k, c));
      }
    }
    forall i, j | 0 <= i < j < |v.to| ensures v.to[i] != v.to[j] {
      if j < |w.to| - 1 {
        assert v.to[i] == w.to[i + 1] && v.to[j] == w.to[j + 1];
      } else if i < |w.to| - 1 {
        PlaceIsOld(h, root, w, w.to[i + 1]);
      }
    }
  }

  /** A place to do belongs to a node numbered before. */
  lemma PlaceIsOld(h: Heap, root: Ref, w: Work, p: Place)
    requires Waiting(h, root, w) && p in w.to
    ensures p.Top? || p.index <= |w.nodes|
  {
  }

  lemma BoundIsOld(h: Heap, root: Ref, w: Work, p: Place)
    requires Placing(h, root, w) && p.Field? && p.index > |w.nodes|
    ensures p !in w.bound
  {
  }

  lemma NumberedPlaces(h: Heap, root: Ref, w: Work)
    requires WellFormed(h) && Inv(h, root, w)
    requires w.from != [] && w.from[0] in w.content && w.content[w.from[0]].Live?
    ensures Placing(h, root, Numbered(w))
  {
    hide Needed, Listed, WithChildren, Children, IsPlace, Target;
    var (v, k, n) := (Numbered(w), |w.nodes| + 1, Numbered(w).nodes[0]);
    forall p | IsPlace(h, v.nodes, p) ensures p in v.bound || p in v.to {
      if p.Top? || p.index <= |w.nodes| {
        OldPlaces(h, root, w.nodes, n, p);
        if p in w.to && p != w.to[0] {
          assert p in w.to[1..];
        }
      } else {
        PlaceBounds(h, v.nodes, p);
        NewPlaces(h, root, w.nodes, n, p.i);
        assert v.to[|w.to| - 1 + p.i] == p;
      }
    }
    forall p <- v.bound
      ensures IsPlace(h, v.nodes, p) && Has(v.content, Target(h, root, v.nodes, p), v.bound[p])
    {
      if p == w.to[0] {
        PlaceIsOld(h, root, w, p);
      } else if p.Field? && p.index > |w.nodes| {
        BoundIsOld(h, root, w, p);
      }
      OldPlaces(h, root, w.nodes, n, p);
    }
  }

  lemma PlaceBounds(h: Heap, nodes: seq<PickleNode>, p: Place)
    requires IsPlace(h, nodes, p) && p.Field?
    ensures 1 <= p.index <= |nodes|
  {
  }

  lemma NumberedNeeds(h: Heap, root: Ref, w: Work)
    requires Inv(h, root, w)
    requires w.from != [] && w.from[0] in w.content && w.content[w.from[0]].Live?
    ensures Needed(h, root, Numbered(w))
  {
    assert w.to != [];
    hide Listed, Waiting, Placing, WithChildren, Children, Places;
    var v := Numbered(w);
    forall t: set<Ref> | Closed(h, t) && root in t
      ensures (forall n <- v.nodes :: n.node in t) && (forall r <- v.from :: r in t)
    {
      assert w.from[0] in w.from;
      forall r <- v.from ensures r in t {
        if r in w.from[1..] {
          assert r in w.from;
        } else {
          assert r in Children(h[w.from[0]]);
        }
      }
    }
  }

  // --------------------------------------------------------------- what the pass has found

  /** Every node the root reaches has one number; the numbers are 1 to the count; and every reference says its
      node's number. */
  ghost predicate Numbering(h: Heap, root: Ref, num: map<Ref, nat>, nodes: seq<PickleNode>, bound: map<Place, nat>) {
    && Reaches(h, root, num.Keys) && Listed(h, nodes)
    && (forall j | 0 <= j < |nodes| :: nodes[j].node in num && num[nodes[j].node] == |nodes| - j)
    && (forall r | r in num :: 1 <= num[r] <= |nodes| && NodeAt(nodes, num[r]) == r)
    && Top in bound && bound[Top] == num[root]
    && (forall r | r in num :: forall i | 0 <= i < |Children(h[r])| ::
      Field(num[r], i) in bound && Children(h[r])[i] in num && bound[Field(num[r], i)] == num[Children(h[r])[i]])
  }

  ghost function Numbers(w: Work): map<Ref, nat> {
    map r | r in w.content && w.content[r].Serialized? :: w.content[r].n
  }

  lemma PassDone(h: Heap, root: Ref, w: Work)
    requires WellFormed(h) && root in h && Inv(h, root, w) && w.from == []
    ensures Numbering(h, root, Numbers(w), w.nodes, w.bound)
  {
    assert |w.to| == 0;
    PassReaches(h, root, w);
    hide WithChildren, Children, Placing, Waiting, Needed, Reaches, WellFormed;
    var num := Numbers(w);
    assert IsPlace(h, w.nodes, Top);
    AllBound(h, root, w, Top);
    forall r, i | r in num && 0 <= i < |Children(h[r])|
      ensures Field(num[r], i) in w.bound && Children(h[r])[i] in num
      ensures w.bound[Field(num[r], i)] == num[Children(h[r])[i]]
    {
      AllBound(h, root, w, Field(num[r], i));
    }
  }

  lemma AllBound(h: Heap, root: Ref, w: Work, p: Place)
    requires Placing(h, root, w) && w.to == [] && IsPlace(h, w.nodes, p)
    ensures p in w.bound && Has(w.content, Target(h, root, w.nodes, p), w.bound[p])
  {
  }

  lemma PassReaches(h: Heap, root: Ref, w: Work)
    requires WellFormed(h) && root in h && Placing(h, root, w) && w.to == [] && Needed(h, root, w) && Overwritten(h, w)
    ensures Reaches(h, root, Numbers(w).Keys)
  {
    hide WithChildren, Children, Placing, Needed;
    AllBound(h, root, w, Top);
    forall r <- Numbers(w) ensures forall c <- Children(h[r]) :: c in Numbers(w) {
      forall i | 0 <= i < |Children(h[r])| ensures Children(h[r])[i] in Numbers(w) {
        AllBound(h, root, w, Field(Numbers(w)[r], i));
      }
    }
    NothingMore(h, root, w);
  }

  lemma NothingMore(h: Heap, root: Ref, w: Work)
    requires Needed(h, root, w) && Overwritten(h, w)
    ensures forall t: set<Ref> :: Closed(h, t) && root in t ==> Numbers(w).Keys <= t
  {
    forall t: set<Ref> | Closed(h, t) && root in t ensures Numbers(w).Keys <= t {
      forall r <- Numbers(w) ensures r in t {
        assert w.nodes[|w.nodes| - w.content[r].n] in w.nodes;
      }
    }
  }

  /** There are as many numbers as nodes: the numbers are dense. */
  lemma AsManyNumbers(h: Heap, root: Ref, num: map<Ref, nat>, nodes: seq<PickleNode>, bound: map<Place, nat>)
    requires Numbering(h, root, num, nodes, bound)
    ensures |num| == |nodes|
  {
    hide Reaches, Listed, Children, NodeAt;
    UpTo(num, nodes, |nodes|);
    assert NumberedTo(num, |nodes|) == num.Keys;
  }

  ghost function NumberedTo(num: map<Ref, nat>, k: nat): set<Ref> {
    set r | r in num && num[r] <= k
  }

  /** The nodes with the numbers up to k. */
  lemma {:induction false} UpTo(num: map<Ref, nat>, nodes: seq<PickleNode>, k: nat)
    requires k <= |nodes|
    requires forall j | 0 <= j < |nodes| :: nodes[j].node in num && num[nodes[j].node] == |nodes| - j
    requires forall r | r in num :: 1 <= num[r] <= |nodes| && NodeAt(nodes, num[r]) == r
    ensures |NumberedTo(num, k)| == k
  {
    if k == 0 {
      assert NumberedTo(num, k) == {};
    } else {
      UpTo(num, nodes, k - 1);
      assert NumberedTo(num, k) == NumberedTo(num, k - 1) + {NodeAt(nodes, k)};
    }
  }
}
