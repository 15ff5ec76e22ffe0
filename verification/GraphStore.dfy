/** The store as a graph: nodes, pointers to nodes, and what a walk through them sees. */
module GraphStore {

  /** Which pointer it is: SpaceRef, Runnable*, StableNode*, or a weak StableNode*. */
  datatype Way = SpaceWay | ThreadWay | Strong | Weak

  /** A pointer in memory. */
  class Slot {
    /** Whether it is the word of a node. */
    ghost const own: bool
    var target: Node?

    constructor (target: Node?, ghost own: bool)
      ensures this.target == target && this.own == own
    {
      this.target, this.own := target, own;
    }
  }

  datatype Pointer = Pointer(slot: Slot, way: Way)

  /** What a value's representation holds besides plain data. */
  datatype Block = Block(nodes: seq<Node>, pointers: seq<Pointer>)

  /** A type and its plain data. An `inline` value keeps its only pointer in its node's own word. */
  datatype Kind = Kind(name: string, bits: int, copyable: bool, inline: bool)

  /** What a node holds; `Outer` is a space or a thread, and `Pending` the replicator's overlay. */
  datatype Content =
    | Blank
    | Data(kind: Kind, block: Block)
    | Outer(kind: Kind, block: Block, replicate: Node?)
    | Reference(dest: Node)
    | RedToStable(dest: Node)
    | RedToUnstable(dest: Node)
    | Pending(grNext: Node?, grFrom: Node)
  {
    predicate IsValue() {
      Data? || Outer?
    }

    predicate IsCopyable() {
      Reference? || (Data? && kind.copyable)
    }
  }

  class Node {
    const stable: bool
    /** The memory word of the node, as an address. */
    const word: Slot
    var content: Content

    constructor (stable: bool, content: Content)
      ensures this.stable == stable && this.content == content && fresh(word) && word.target == null && word.own
    {
      this.stable, this.content := stable, content;
      word := new Slot(null, true);
    }
  }

  /** A store at rest; `rank` bounds the chains of references. */
  datatype Graph = Graph(cells: map<Node, Content>, vals: map<Slot, Node?>, rank: map<Node, nat>)

  ghost predicate TargetOk(g: Graph, way: Way, t: Node?) {
    if way.Strong? || way.Weak?
    then t == null || (t in g.cells && t.stable && !g.cells[t].Outer?)
    else t != null && t in g.cells && g.cells[t].Outer?
  }

  ghost predicate PointerOk(g: Graph, p: Pointer) {
    p.slot in g.vals && TargetOk(g, p.way, g.vals[p.slot])
  }

  ghost predicate BlockOk(g: Graph, b: Block) {
    && (forall n <- b.nodes :: n in g.cells && !g.cells[n].Outer?)
    && (forall p <- b.pointers :: PointerOk(g, p))
  }

  /** No pointer of a block is in the word of a node. */
  ghost predicate Plain(b: Block) {
    forall p <- b.pointers :: !p.slot.own
  }

  ghost predicate KindOk(n: Node, k: Kind, b: Block) {
    && (k.copyable ==> !k.inline && b == Block([], []))
    && (if k.inline then b.nodes == [] && |b.pointers| == 1 && b.pointers[0].slot == n.word else Plain(b))
  }

  /** Every node has a word to itself. */
  ghost predicate OwnWords(ns: set<Node>) {
    (forall n <- ns :: n.word.own) && (forall n, m | n in ns && m in ns :: n.word == m.word ==> n == m)
  }

  ghost predicate ContentOk(g: Graph, n: Node)
    requires n in g.cells
  {
    match g.cells[n]
    case Data(k, b) => BlockOk(g, b) && KindOk(n, k, b)
    case Outer(k, b, r) => BlockOk(g, b) && Plain(b) && r == null && !k.inline && !k.copyable && n.stable
    case Reference(d) =>
      && d in g.cells && d.stable && !g.cells[d].Outer?
      && n in g.rank && d in g.rank && g.rank[d] < g.rank[n]
    case _ => false
  }

  ghost predicate WellFormed(g: Graph) {
    (forall n <- g.cells :: ContentOk(g, n)) && OwnWords(g.cells.Keys)
  }

  /** RichNode: the node a chain of references ends at. */
  ghost function Deref(g: Graph, n: Node): (d: Node)
    requires WellFormed(g) && n in g.cells
    ensures d in g.cells && g.cells[d].IsValue() && (g.cells[d].Outer? <==> g.cells[n].Outer?)
    ensures !g.cells[n].Reference? ==> d == n
    decreases if g.cells[n].Reference? && n in g.rank then g.rank[n] + 1 else 0
  {
    assert ContentOk(g, n);
    if g.cells[n].Reference? then
      var d := g.cells[n].dest;
      assert ContentOk(g, d);
      Deref(g, d)
    else n
  }

  ghost function Target(g: Graph, s: Slot, way: Way): (t: Node?)
    requires WellFormed(g) && s in g.vals && TargetOk(g, way, g.vals[s])
    ensures t != null ==> t in g.cells && g.cells[t].IsValue()
  {
    if g.vals[s] == null then null else Deref(g, g.vals[s])
  }

  // ----------------------------------------------------------------------- walks

  datatype Step = Child(i: nat) | Follow(i: nat)

  /** One step from a block, over anything but a weak pointer. */
  ghost function Arrive(g: Graph, b: Block, s: Step): (n: Node?)
    requires WellFormed(g) && BlockOk(g, b)
    ensures n != null ==> n in g.cells && g.cells[n].IsValue()
  {
    match s
    case Child(i) =>
      if i < |b.nodes| then Deref(g, b.nodes[i]) else null
    case Follow(i) =>
      if i < |b.pointers| && !b.pointers[i].way.Weak? then
        assert PointerOk(g, b.pointers[i]);
        Target(g, b.pointers[i].slot, b.pointers[i].way)
      else null
  }

  /** The value a path of strong steps from a block leads to. */
  ghost function Walk(g: Graph, b: Block, path: seq<Step>): (n: Node?)
    requires WellFormed(g) && BlockOk(g, b) && path != []
    ensures n != null ==> n in g.cells && g.cells[n].IsValue()
    decreases |path|
  {
    var n := Arrive(g, b, path[0]);
    if n == null || |path| == 1 then n
    else
      assert ContentOk(g, n);
      Walk(g, g.cells[n].block, path[1..])
  }

  /** Some path of strong steps leads to `t`. */
  ghost predicate Reachable(g: Graph, b: Block, t: Node)
    requires WellFormed(g) && BlockOk(g, b)
  {
    exists path | path != [] :: Walk(g, b, path) == t
  }

  lemma {:induction false} WalkOn(g: Graph, b: Block, path: seq<Step>, s: Step)
    requires WellFormed(g) && BlockOk(g, b) && path != []
    ensures var n := Walk(g, b, path);
      Walk(g, b, path + [s]) == if n == null then null else (assert ContentOk(g, n); Arrive(g, g.cells[n].block, s))
    decreases |path|
  {
    var n := Arrive(g, b, path[0]);
    assert (path + [s])[1..] == path[1..] + [s];
    if n != null {
      assert ContentOk(g, n);
      if |path| > 1 {
        WalkOn(g, g.cells[n].block, path[1..], s);
      } else {
        assert path[1..] + [s] == [s];
      }
    }
  }

  lemma ReachableOn(g: Graph, b: Block, n: Node, s: Step)
    requires WellFormed(g) && BlockOk(g, b) && Reachable(g, b, n)
    ensures n in g.cells && g.cells[n].IsValue() && BlockOk(g, g.cells[n].block)
    ensures var t := Arrive(g, g.cells[n].block, s); t != null ==> Reachable(g, b, t)
  {
    hide Arrive, BlockOk;
    var path :| path != [] && Walk(g, b, path) == n;
    assert ContentOk(g, n);
    WalkOn(g, b, path, s);
  }

  lemma ReachableFirst(g: Graph, b: Block, s: Step)
    requires WellFormed(g) && BlockOk(g, b)
    ensures var t := Arrive(g, b, s); t != null ==> Reachable(g, b, t)
  {
    var t := Arrive(g, b, s);
    assert Walk(g, b, [s]) == t;
  }

  // ---------------------------------------------------------------- equal to every walk

  /** Every path leads to values of the same kind and shape in both, or to nothing in both. */
  ghost predicate SameValues(g: Graph, b: Block, g': Graph, b': Block)
    requires WellFormed(g) && BlockOk(g, b) && WellFormed(g') && BlockOk(g', b')
  {
    forall path | path != [] ::
      var n, n' := Walk(g, b, path), Walk(g', b', path);
      (n == null <==> n' == null) && (n != null ==> SameShape(g.cells[n], g'.cells[n']))
  }

  ghost predicate SameShape(c: Content, c': Content)
    requires c.IsValue() && c'.IsValue()
  {
    && c.kind == c'.kind && |c.block.nodes| == |c'.block.nodes| && |c.block.pointers| == |c'.block.pointers|
    && (forall i | 0 <= i < |c.block.nodes| :: c.block.nodes[i].stable == c'.block.nodes[i].stable)
    && (forall i | 0 <= i < |c.block.pointers| :: c.block.pointers[i].way == c'.block.pointers[i].way)
  }

  /** Two paths meet in the one exactly when they meet in the other, copyable values aside. */
  ghost predicate SameSharing(g: Graph, b: Block, g': Graph, b': Block)
    requires WellFormed(g) && BlockOk(g, b) && WellFormed(g') && BlockOk(g', b')
  {
    forall p, q | p != [] && q != [] && Walk(g, b, p) != null && Walk(g, b, q) != null ::
      && (Walk(g', b', p) == Walk(g', b', q) ==> Walk(g, b, p) == Walk(g, b, q))
      && (Walk(g, b, p) == Walk(g, b, q) && !g.cells[Walk(g, b, p)].IsCopyable() ==> Walk(g', b', p) == Walk(g', b', q))
  }

  /**
   * The weak pointer `p'` is null exactly when `p` was or nothing but weak pointers kept its target
   * alive; otherwise it leads where the strong paths to the target lead.
   */
  ghost predicate SameWeak(g: Graph, b: Block, g': Graph, b': Block, p: Pointer, p': Pointer)
    requires WellFormed(g) && BlockOk(g, b) && WellFormed(g') && BlockOk(g', b') && PointerOk(g, p) && PointerOk(g', p')
  {
    var t, v := Target(g, p.slot, p.way), Target(g', p'.slot, p'.way);
    && (v == null <==> t == null || !Reachable(g, b, t))
    && (v != null ==>
          && SameShape(g.cells[t], g'.cells[v])
          && (!g.cells[t].IsCopyable() ==> forall q | q != [] && Walk(g, b, q) == t :: Walk(g', b', q) == v))
  }

  ghost predicate SameWeaks(g: Graph, b: Block, g': Graph, b': Block, x: Block, x': Block)
    requires WellFormed(g) && BlockOk(g, b) && WellFormed(g') && BlockOk(g', b') && BlockOk(g, x) && BlockOk(g', x')
  {
    forall i | 0 <= i < |x.pointers| && i < |x'.pointers| && x.pointers[i].way.Weak? && x'.pointers[i].way.Weak? ::
      PointerOk(g, x.pointers[i]) && PointerOk(g', x'.pointers[i]) &&
      SameWeak(g, b, g', b', x.pointers[i], x'.pointers[i])
  }

  /** Every weak pointer of the roots and of what paths lead to is right. */
  ghost predicate WeakExact(g: Graph, b: Block, g': Graph, b': Block)
    requires WellFormed(g) && BlockOk(g, b) && WellFormed(g') && BlockOk(g', b')
  {
    && SameWeaks(g, b, g', b', b, b')
    && forall path | path != [] && Walk(g, b, path) != null && Walk(g', b', path) != null ::
         ContentOk(g, Walk(g, b, path)) && ContentOk(g', Walk(g', b', path)) &&
         SameWeaks(g, b, g', b', g.cells[Walk(g, b, path)].block, g'.cells[Walk(g', b', path)].block)
  }
}
