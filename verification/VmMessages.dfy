/** A value sent from a virtual machine to another one: pickled by the sender, unpickled by the receiver. */
module VmMessages {
  import opened PickleFormat
  import opened PickleNumbering
  import opened PickleMerging
  import opened Pickling
  import opened Wrappers
  import U = Unpickling

  /** No size is cut at 32 bits, and a UUID names one entity. */
  ghost predicate Portable(h: Heap, reached: set<Ref>)
    requires WellFormed(h) && reached <= h.Keys
  {
    && |reached| < SIZES && (forall r <- reached :: Fits(h[r]))
    && forall a, b | a in reached && b in reached && HasUuid(h[a]) && HasUuid(h[b]) && h[a].uuid == h[b].uuid ::
       Same(h, a, b)
  }

  /**
   * The receiver's nodes are what the sender's root reaches: every node is there under one index, referring to the
   * indices of what it referred to, or as the entity the receiver knows under its UUID; two nodes have one index
   * exactly when they are the same; and nothing else is there.
   */
  ghost predicate Rebuilt(h: Heap, root: Ref, phi: map<Ref, nat>, nodes: seq<U.Node>, globals: set<Uuid>)
    requires WellFormed(h)
  {
    && Reaches(h, root, phi.Keys) && |nodes| == |phi| + 1
    && (forall r <- phi :: phi[r] < |nodes| && Arrives(h[r], phi, nodes[phi[r]], globals))
    && (forall r, s | r in phi && s in phi :: phi[r] == phi[s] <==> Same(h, r, s))
    && (forall k | 0 <= k < |nodes| && nodes[k].Bound? :: exists r <- phi :: phi[r] == k)
  }

  /** What a value becomes: the entity the receiver has under its UUID, or a copy. */
  ghost predicate Arrives(v: Value<Ref>, phi: map<Ref, nat>, n: U.Node, globals: set<Uuid>) {
    if HasUuid(v) && v.uuid in globals then n == U.Bound(U.Known(v.uuid))
    else n.Bound? && n.entity.Made? && Copies(v, n.entity.v, phi)
  }

  lemma EntityArrives(v: Value<Ref>, phi: map<Ref, nat>, globals: set<Uuid>)
    requires forall c <- Children(v) :: c in phi
    ensures Arrives(v, phi, U.Bound(U.EntityOf(Renamed(v, phi), globals)), globals)
  {
    hide Renamed, Copies, Children, U.EntityOf;
    RenamedId(v, phi);
    RenamedCopies(v, phi);
    U.EntityIs(Renamed(v, phi), globals);
  }

  /** What is known of a pickle that has been written, and that is portable. */
  ghost predicate Sent(h: Heap, root: Ref, phi: map<Ref, nat>, items: seq<Item>) {
    && WellFormed(h) && root in phi && phi.Keys <= h.Keys && Covered(h, phi)
    && Faithful(h, root, phi, items) && Portable(h, phi.Keys)
    && (forall r <- phi :: Stateless(h[r])) && (forall r <- phi :: 1 <= phi[r] <= |phi|)
  }

  /** Every written item is that of a node. */
  lemma ItemIsNode(h: Heap, root: Ref, phi: map<Ref, nat>, items: seq<Item>, x: Item) returns (r: Ref)
    requires Sent(h, root, phi, items) && x in items
    ensures r in phi && r in h && Covered(h, phi) && x == Item(phi[r], Renamed(h[r], phi))
  {
    SentIs(h, root, phi, items);
    hide Sent, Renamed, Covered, Same, Copies;
    r :| r in phi && phi[r] == x.index;
    SentItem(h, root, phi, items, r);
    OneItem(items, x, Item(phi[r], Renamed(h[r], phi)));
  }

  lemma SentIs(h: Heap, root: Ref, phi: map<Ref, nat>, items: seq<Item>)
    requires Sent(h, root, phi, items)
    ensures phi.Keys <= h.Keys && Covered(h, phi) && Sound(phi, items)
  {
  }

  lemma SentItem(h: Heap, root: Ref, phi: map<Ref, nat>, items: seq<Item>, r: Ref)
    requires Sent(h, root, phi, items) && r in phi
    ensures r in h && Covered(h, phi) && Item(phi[r], Renamed(h[r], phi)) in items
    ensures Stateless(h[r]) && Fits(h[r]) && |phi| < SIZES && forall c <- Children(h[r]) :: c in phi && phi[c] <= |phi|
  {
    hide Same, Renamed, ItemsApart, Copies;
    assert |phi.Keys| == |phi|;
  }

  lemma OneItem(items: seq<Item>, x: Item, y: Item)
    requires x in items && y in items && x.index == y.index && ItemsApart(items)
    ensures x == y
  {
    var i :| 0 <= i < |items| && items[i] == x;
    var j :| 0 <= j < |items| && items[j] == y;
  }

  lemma RenamedReadable(v: Value<Ref>, phi: map<Ref, nat>, count: nat)
    requires (forall c <- Children(v) :: c in phi && phi[c] <= count) && count < SIZES && Stateless(v) && Fits(v)
    ensures U.Readable(Renamed(v, phi)) && forall k <- Children(Renamed(v, phi)) :: k <= count
    ensures HasUuid(Renamed(v, phi)) == HasUuid(v) && (HasUuid(v) ==> Renamed(v, phi).uuid == v.uuid)
  {
    var ks := Mapped(Children(v), phi);
    assert Children(Renamed(v, phi)) == ks;
    forall i | 0 <= i < |ks| ensures ks[i] <= count {
      assert Children(v)[i] in Children(v);
    }
    StillFits(v, ks);
  }

  lemma StillFits(v: Value<Ref>, ks: seq<nat>)
    requires Fits(v) && Stateless(v) && |ks| == |Children(v)|
    ensures Fits(WithChildren(v, ks)) && Stateless(WithChildren(v, ks))
    ensures HasUuid(WithChildren(v, ks)) == HasUuid(v) && (HasUuid(v) ==> WithChildren(v, ks).uuid == v.uuid)
  {
  }

  /** A pickle is a stream the unpickler reads back. */
  lemma PickleOrdered(h: Heap, root: Ref, phi: map<Ref, nat>, items: seq<Item>)
    requires Sent(h, root, phi, items) && root in phi
    ensures U.Ordered(|phi|, phi[root], items)
  {
    SentIs(h, root, phi, items);
    SentDense(h, root, phi, items);
    hide Sent, U.Readable, Covered;
    forall x <- items
      ensures 1 <= x.index <= |phi| && U.Readable(x.value) && forall k <- Children(x.value) :: k <= |phi|
    {
      var r := ItemIsNode(h, root, phi, items, x);
      SentItem(h, root, phi, items, r);
      RenamedReadable(h[r], phi, |phi|);
    }
  }

  lemma SentDense(h: Heap, root: Ref, phi: map<Ref, nat>, items: seq<Item>)
    requires Sent(h, root, phi, items)
    ensures root in phi && |phi| < SIZES && forall r <- phi :: 1 <= phi[r] <= |phi|
  {
    assert |phi.Keys| == |phi|;
  }

  lemma {:induction false} InAllIds(items: seq<Item>, u: Uuid) returns (j: nat)
    requires u in U.AllIds(items)
    ensures j < |items| && HasUuid(items[j].value) && items[j].value.uuid == u
  {
    var last := |items| - 1;
    if u in U.IdsOf(items[last].value) {
      j := last;
    } else {
      j := InAllIds(items[..last], u);
    }
  }

  /** No entity comes twice. */
  lemma EntityOnce(h: Heap, root: Ref, phi: map<Ref, nat>, items: seq<Item>, i: nat, globals: set<Uuid>)
    requires Sent(h, root, phi, items) && i < |items|
    ensures U.EntityOf(items[i].value, globals + U.AllIds(items[..i])) == U.EntityOf(items[i].value, globals)
  {
    hide Sent, Covered, Renamed, U.AllIds;
    var v := items[i].value;
    if HasUuid(v) && v.uuid in U.AllIds(items[..i]) {
      var j := InAllIds(items[..i], v.uuid);
      TwoEntities(h, root, phi, items, j, i);
      assert false;
    }
  }

  lemma TwoEntities(h: Heap, root: Ref, phi: map<Ref, nat>, items: seq<Item>, j: nat, i: nat)
    requires Sent(h, root, phi, items) && j < i < |items| && HasUuid(items[j].value) && HasUuid(items[i].value)
    ensures items[j].value.uuid != items[i].value.uuid
  {
    var a := ItemIsNode(h, root, phi, items, items[j]);
    var b := ItemIsNode(h, root, phi, items, items[i]);
    hide Covered, Renamed;
    CoveredChildren(h, phi, a);
    CoveredChildren(h, phi, b);
    RenamedId(h[a], phi);
    RenamedId(h[b], phi);
    SentApart(h, root, phi, items, j, i);
    SentIds(h, root, phi, items, a, b);
  }

  lemma CoveredChildren(h: Heap, phi: map<Ref, nat>, r: Ref)
    requires Covered(h, phi) && r in phi
    ensures r in h && forall c <- Children(h[r]) :: c in phi
  {
  }

  lemma SentApart(h: Heap, root: Ref, phi: map<Ref, nat>, items: seq<Item>, j: nat, i: nat)
    requires Sent(h, root, phi, items) && j < i < |items|
    ensures items[j].index != items[i].index
  {
  }

  lemma SentIds(h: Heap, root: Ref, phi: map<Ref, nat>, items: seq<Item>, a: Ref, b: Ref)
    requires Sent(h, root, phi, items) && a in phi && b in phi && a in h && b in h && HasUuid(h[a]) && HasUuid(h[b])
    requires phi[a] != phi[b]
    ensures h[a].uuid != h[b].uuid
  {
    hide Sent, Same, Reaches, WellFormed;
    SentSame(h, root, phi, items);
    SentPortable(h, root, phi, items, a, b);
  }

  lemma SentPortable(h: Heap, root: Ref, phi: map<Ref, nat>, items: seq<Item>, a: Ref, b: Ref)
    requires Sent(h, root, phi, items) && a in phi && b in phi && a in h && b in h && HasUuid(h[a]) && HasUuid(h[b])
    ensures WellFormed(h) && (h[a].uuid == h[b].uuid ==> Same(h, a, b))
  {
    hide Same, Faithful, Covered, Fits, Stateless;
  }

  lemma RenamedId(v: Value<Ref>, phi: map<Ref, nat>)
    requires forall c <- Children(v) :: c in phi
    ensures HasUuid(Renamed(v, phi)) == HasUuid(v) && (HasUuid(v) ==> Renamed(v, phi).uuid == v.uuid)
  {
  }

  lemma ArrivesAt(h: Heap, root: Ref, phi: map<Ref, nat>, items: seq<Item>, nodes: seq<U.Node>, globals: set<Uuid>,
                  r: Ref)
    requires Sent(h, root, phi, items) && U.BoundTo(nodes, items, globals) && r in phi
    ensures r in h && phi[r] < |nodes| && Arrives(h[r], phi, nodes[phi[r]], globals)
  {
    hide Sent, U.EntityOf, U.AllIds, Renamed, Covered, Arrives;
    SentIs(h, root, phi, items);
    CoveredChildren(h, phi, r);
    SentItem(h, root, phi, items, r);
    var i :| 0 <= i < |items| && items[i] == Item(phi[r], Renamed(h[r], phi));
    EntityOnce(h, root, phi, items, i, globals);
    EntityArrives(h[r], phi, globals);
  }

  lemma NothingElse(phi: map<Ref, nat>, items: seq<Item>, nodes: seq<U.Node>, globals: set<Uuid>)
    requires Sound(phi, items) && U.BoundTo(nodes, items, globals)
    ensures forall k | 0 <= k < |nodes| && nodes[k].Bound? :: exists r <- phi :: phi[r] == k
  {
    hide U.EntityOf, U.AllIds, ItemsApart;
    forall k | 0 <= k < |nodes| && nodes[k].Bound? ensures exists r <- phi :: phi[r] == k {
      var x :| x in items && x.index == k;
      assert k in phi.Values;
    }
  }

  lemma BoundIsRebuilt(h: Heap, root: Ref, phi: map<Ref, nat>, items: seq<Item>, nodes: seq<U.Node>, globals: set<Uuid>)
    requires Sent(h, root, phi, items) && WellFormed(h) && U.BoundTo(nodes, items, globals) && |nodes| == |phi| + 1
    ensures Rebuilt(h, root, phi, nodes, globals)
  {
    hide Sent, Same, U.BoundTo, Reaches, Covered, WellFormed, Arrives, Sound;
    SentIs(h, root, phi, items);
    SentSame(h, root, phi, items);
    NothingElse(phi, items, nodes, globals);
    forall r <- phi ensures r in h && phi[r] < |nodes| && Arrives(h[r], phi, nodes[phi[r]], globals) {
      ArrivesAt(h, root, phi, items, nodes, globals, r);
    }
  }

  lemma SentSame(h: Heap, root: Ref, phi: map<Ref, nat>, items: seq<Item>)
    requires Sent(h, root, phi, items)
    ensures WellFormed(h) && Reaches(h, root, phi.Keys) && phi.Keys <= h.Keys
    ensures forall r, s | r in phi && s in phi :: phi[r] == phi[s] <==> Same(h, r, s)
  {
    hide Same, Renamed, ItemsApart, Portable, Copies;
  }

  /** sendOnVMPort, then receiveOnVMStream on the other side, with the UUIDs known there. */
  method Transfer(h: Heap, value: Ref, globals: set<Uuid>)
    returns (outcome: Outcome, received: Result<nat>, nodes: array<U.Node>, ghost phi: map<Ref, nat>)
    requires WellFormed(h) && value in h
    ensures Reaches(h, value, phi.Keys) && phi.Keys <= h.Keys && Decides(h, phi.Keys, outcome)
    ensures !outcome.Written? ==> received.Failure?
    ensures outcome.Written? && Portable(h, phi.Keys) ==>
      value in phi && received == Success(phi[value]) && Rebuilt(h, value, phi, nodes[..], globals)
  {
    hide *;
    var pickler := new Pickler(h);
    ghost var items;
    outcome, phi, items := pickler.Pickle(h, value);
    ReachesWithin(h, value, phi);
    nodes := new U.Node[0];
    if !outcome.Written? {
      return outcome, Failure, nodes, phi;
    }
    ReachesIs(h, value, phi, outcome, items);
    if Portable(h, phi.Keys) {
      PickleOrdered(h, value, phi, items);
    }
    var unpickler := new U.Unpickler(pickler.output, globals);
    unpickler.WholeAhead(Stream(|phi|, phi[value], items));
    received := unpickler.Unpickle(|phi|, phi[value], items);
    nodes := unpickler.nodes;
    if Portable(h, phi.Keys) {
      BoundIsRebuilt(h, value, phi, items, nodes[..], globals);
    }
  }

  lemma ReachesWithin(h: Heap, root: Ref, phi: map<Ref, nat>)
    requires Reaches(h, root, phi.Keys)
    ensures phi.Keys <= h.Keys
  {
  }

  lemma ReachesIs(h: Heap, root: Ref, phi: map<Ref, nat>, outcome: Outcome, items: seq<Item>)
    requires WellFormed(h) && Reaches(h, root, phi.Keys) && Decides(h, phi.Keys, outcome) && outcome.Written?
    requires Faithful(h, root, phi, items) && forall r <- phi :: 1 <= phi[r] <= |phi|
    ensures phi.Keys <= h.Keys && root in phi && (Portable(h, phi.Keys) ==> Sent(h, root, phi, items))
  {
    hide Same, Portable, Faithful;
  }
}
