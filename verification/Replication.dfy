/** What holds of the two graphs at every step of a replication, and the steps that keep it. */
module Replication {
  import opened GraphStore

  datatype Aim = Aim(way: Way, node: Node?)

  /**
   * The ghost view of a replication in progress. `from` and `to` are what the nodes of the two
   * graphs hold. `of` says which value a new node is to become a copy of, `aim` which value a new
   * pointer is to lead to the copy of, and `val` what the pointer holds. The nodes of `wait` are not
   * filled yet, the pointers of `open` not redirected, the values of `busy` copied but not marked.
   */
  datatype Run = Run(from: map<Node, Content>, to: map<Node, Content>, of: map<Node, Node>,
                     aim: map<Slot, Aim>, val: map<Slot, Node?>,
                     wait: set<Node>, open: set<Slot>, busy: set<Node>)

  ghost predicate Marked(g: Graph, r: Run, n: Node) {
    n in g.cells && n in r.from && r.from[n] != g.cells[n]
  }

  /** The forwarding mark a value gets. */
  function MarkOf(c0: Content, d: Node): Content {
    if c0.Outer? then c0.(replicate := d) else if d.stable then RedToStable(d) else RedToUnstable(d)
  }

  function MarkDest(c: Content): Node? {
    match c
    case Outer(_, _, r) => r
    case RedToStable(d) => d
    case RedToUnstable(d) => d
    case _ => null
  }

  ghost predicate Arrived(r: Run, d: Node) {
    d in r.of && d in r.to && d !in r.wait
  }

  /** A node that holds a copied value itself. */
  ghost predicate Home(r: Run, d: Node) {
    Arrived(r, d) && r.to[d].IsValue()
  }

  /** A source node is as it was, or marked with the place of its copy. */
  ghost predicate SourceOk(g: Graph, r: Run, n: Node) {
    && n in g.cells && n in r.from
    && (r.from[n] == g.cells[n] ||
        (g.cells[n].IsValue() &&
         var d := MarkDest(r.from[n]);
         d != null && Arrived(r, d) && r.of[d] == n && r.from[n] == MarkOf(g.cells[n], d)))
  }

  ghost predicate NodeCopied(g: Graph, r: Run, n: Node, n0: Node)
    requires WellFormed(g)
  {
    n in r.of && n0 in g.cells && r.of[n] == Deref(g, n0) && n.stable == n0.stable
  }

  ghost predicate PointerCopied(g: Graph, r: Run, p: Pointer, p0: Pointer)
    requires WellFormed(g)
  {
    && p.way == p0.way && p.slot in r.aim && PointerOk(g, p0)
    && r.aim[p.slot] == Aim(p.way, Target(g, p0.slot, p0.way))
  }

  ghost predicate BlockCopied(g: Graph, r: Run, b: Block, b0: Block)
    requires WellFormed(g)
  {
    && |b.nodes| == |b0.nodes| && |b.pointers| == |b0.pointers|
    && (forall i | 0 <= i < |b.nodes| :: NodeCopied(g, r, b.nodes[i], b0.nodes[i]))
    && (forall i | 0 <= i < |b.pointers| :: PointerCopied(g, r, b.pointers[i], b0.pointers[i]))
  }

  /** `c`, held by `d`, is a copy of the value `c0`. */
  ghost predicate Copied(g: Graph, r: Run, c: Content, c0: Content, d: Node)
    requires WellFormed(g)
  {
    && ((c.Data? && c0.Data?) || (c.Outer? && c0.Outer? && c.replicate == null && d.stable))
    && c.kind == c0.kind && BlockCopied(g, r, c.block, c0.block)
    && (c.kind.inline ==> d.stable) && KindOk(d, c.kind, c.block)
  }

  /** A new node waits, or holds the copy of its value, or leads to the node that holds it. */
  ghost predicate ToOk(g: Graph, r: Run, d: Node)
    requires WellFormed(g)
  {
    && d in r.of && d in r.to && r.of[d] in g.cells && g.cells[r.of[d]].IsValue()
    && (d !in r.wait ==>
          && (Marked(g, r, r.of[d]) || r.of[d] in r.busy)
          && if r.to[d].Reference?
             then
               var h := r.to[d].dest;
               Home(r, h) && h.stable && r.of[h] == r.of[d] && r.to[h].Data? && !r.to[h].kind.copyable
             else Copied(g, r, r.to[d], g.cells[r.of[d]], d))
  }

  /** A value that is not copyable has one copy. */
  ghost predicate Unique(g: Graph, r: Run) {
    forall d, e | d in r.of && e in r.of && Home(r, d) && Home(r, e) && r.of[d] == r.of[e] ::
      d == e || (r.of[d] in g.cells && g.cells[r.of[d]].IsCopyable())
  }

  ghost predicate AimOk(g: Graph, a: Aim) {
    if a.way.Strong? || a.way.Weak?
    then a.node == null || (a.node in g.cells && g.cells[a.node].Data?)
    else a.node != null && a.node in g.cells && g.cells[a.node].Outer?
  }

  /** A new pointer still holds the old one's target, or leads to the copy, or is a weak one cleared. */
  ghost predicate SlotOk(g: Graph, r: Run, a: Slot)
    requires WellFormed(g)
  {
    && a in r.aim && a in r.val && AimOk(g, r.aim[a])
    && var v, aim := r.val[a], r.aim[a];
    if a in r.open
    then TargetOk(g, aim.way, v) && aim.node == if v == null then null else Deref(g, v)
    else if v == null then aim.node == null || (aim.way.Weak? && !Marked(g, r, aim.node))
    else Home(r, v) && v.stable && r.of[v] == aim.node
  }

  ghost predicate Domains(g: Graph, r: Run) {
    && r.from.Keys == g.cells.Keys && r.to.Keys == r.of.Keys && r.val.Keys == r.aim.Keys
    && r.wait <= r.of.Keys && r.open <= r.aim.Keys && r.of.Keys !! g.cells.Keys
  }

  ghost predicate Sound(g: Graph, r: Run) {
    && WellFormed(g) && Domains(g, r) && Unique(g, r)
    && (forall n <- g.cells :: SourceOk(g, r, n))
    && (forall d <- r.of :: ToOk(g, r, d))
    && (forall a <- r.aim :: SlotOk(g, r, a))
  }

  /** Only what strong paths from the roots lead to is copied or to be copied. */
  ghost predicate Within(g: Graph, r: Run, b0: Block)
    requires WellFormed(g) && BlockOk(g, b0)
  {
    && (forall d <- r.of :: Reachable(g, b0, r.of[d]))
    && (forall a <- r.aim :: !r.aim[a].way.Weak? && r.aim[a].node != null ==> Reachable(g, b0, r.aim[a].node))
  }

  /** What no step takes back. */
  ghost predicate Grows(g: Graph, r: Run, r': Run) {
    && (forall d <- r.of :: d in r'.of && r'.of[d] == r.of[d])
    && (forall a <- r.aim :: a in r'.aim && r'.aim[a] == r.aim[a])
    && (forall d <- r.of :: Arrived(r, d) ==> Arrived(r', d))
    && (forall d <- r.of :: Home(r, d) && d.stable ==> r'.to[d] == r.to[d])
    && (forall n <- g.cells :: Marked(g, r, n) ==> Marked(g, r', n))
  }

  lemma KeepBlock(g: Graph, r: Run, r': Run, b: Block, b0: Block)
    requires WellFormed(g) && Grows(g, r, r') && BlockCopied(g, r, b, b0)
    ensures BlockCopied(g, r', b, b0)
  {
    hide Deref, Arrived, Home, Marked, TargetOk, PointerOk, WellFormed, Target;
  }

  lemma KeepTo(g: Graph, r: Run, r': Run, d: Node)
    requires WellFormed(g) && Grows(g, r, r') && ToOk(g, r, d) && d in r'.to
    requires (d in r'.wait) == (d in r.wait)
    requires d !in r.wait ==> r'.to[d] == r.to[d] && (Marked(g, r', r.of[d]) || r.of[d] in r'.busy)
    ensures ToOk(g, r', d)
  {
    hide BlockCopied, WellFormed;
    if d !in r.wait && !r.to[d].Reference? {
      KeepBlock(g, r, r', r.to[d].block, g.cells[r.of[d]].block);
    }
  }

  lemma KeepSlot(g: Graph, r: Run, r': Run, a: Slot)
    requires WellFormed(g) && Grows(g, r, r') && SlotOk(g, r, a) && a in r'.val && r'.val[a] == r.val[a]
    requires (a in r'.open) == (a in r.open)
    requires a !in r.open && r.val[a] == null && r.aim[a].node != null ==> !Marked(g, r', r.aim[a].node)
    ensures SlotOk(g, r', a)
  {
    hide WellFormed, Deref;
  }

  lemma KeepSource(g: Graph, r: Run, r': Run, n: Node)
    requires Grows(g, r, r') && SourceOk(g, r, n) && n in r'.from && r'.from[n] == r.from[n]
    ensures SourceOk(g, r', n)
  {
  }

  lemma StillMarked(g: Graph, r: Run, r': Run, d: Node)
    requires WellFormed(g) && ToOk(g, r, d) && Grows(g, r, r') && NotForgotten(g, r, r')
    ensures d !in r.wait ==> Marked(g, r', r.of[d]) || r.of[d] in r'.busy
  {
    hide WellFormed;
  }

  ghost predicate NotForgotten(g: Graph, r: Run, r': Run) {
    forall s <- r.busy :: s in r'.busy || Marked(g, r', s)
  }

  ghost predicate SameSource(r: Run, r': Run, n: Node) {
    n in r.from && n in r'.from && r'.from[n] == r.from[n]
  }

  ghost predicate SameTo(r: Run, r': Run, d: Node) {
    d in r.of && d in r.to && d in r'.to && r'.to[d] == r.to[d] && (d in r'.wait <==> d in r.wait)
  }

  ghost predicate SameSlot(r: Run, r': Run, a: Slot) {
    a in r.aim && a in r.val && a in r'.val && r'.val[a] == r.val[a] && (a in r'.open <==> a in r.open)
  }

  /** Cleared weak pointers stay right: nothing is marked in the step, or none is cleared yet. */
  ghost predicate ClearedStay(g: Graph, r: Run, r': Run) {
    (forall n <- g.cells :: Marked(g, r', n) ==> Marked(g, r, n)) || WeakOpen(r)
  }

  ghost predicate WeakOpen(r: Run) {
    forall a <- r.aim :: r.aim[a].way.Weak? ==> a in r.open
  }

  lemma UniqueKept(g: Graph, r: Run, r': Run)
    requires Unique(g, r)
    requires forall d <- r'.of :: Home(r', d) ==> d in r.of && Home(r, d) && r'.to[d] == r.to[d] && r'.of[d] == r.of[d]
    ensures Unique(g, r')
  {
  }

  lemma ClearedStays(g: Graph, r: Run, r': Run, a: Slot)
    requires WellFormed(g) && SlotOk(g, r, a) && ClearedStay(g, r, r')
    ensures a !in r.open && r.val[a] == null && r.aim[a].node != null ==> !Marked(g, r', r.aim[a].node)
  {
    hide WellFormed;
  }

  /** A step keeps the invariant when it keeps or establishes it at each node and pointer. */
  lemma KeptByStep(g: Graph, r: Run, r': Run)
    requires Sound(g, r) && Domains(g, r') && Unique(g, r') && Grows(g, r, r')
    requires NotForgotten(g, r, r') && ClearedStay(g, r, r')
    requires forall n <- g.cells :: SameSource(r, r', n) || SourceOk(g, r', n)
    requires forall d <- r'.of :: SameTo(r, r', d) || ToOk(g, r', d)
    requires forall a <- r'.aim :: SameSlot(r, r', a) || SlotOk(g, r', a)
    ensures Sound(g, r')
  {
    hide ToOk, SlotOk, SourceOk, WellFormed, Unique, Grows, NotForgotten, ClearedStay;
    forall n | n in g.cells ensures SourceOk(g, r', n) {
      if SameSource(r, r', n) { KeepSource(g, r, r', n); }
    }
    forall d | d in r'.of ensures ToOk(g, r', d) {
      if SameTo(r, r', d) {
        StillMarked(g, r, r', d);
        KeepTo(g, r, r', d);
      }
    }
    forall a | a in r'.aim ensures SlotOk(g, r', a) {
      if SameSlot(r, r', a) {
        ClearedStays(g, r, r', a);
        KeepSlot(g, r, r', a);
      }
    }
  }

  // ---------------------------------------------------------------------- the steps

  /** A new node that is to become a copy of `s`. */
  function AddNode(r: Run, d: Node, s: Node, c: Content): Run {
    r.(to := r.to[d := c], of := r.of[d := s], wait := r.wait + {d})
  }

  lemma AddNodeSound(g: Graph, r: Run, d: Node, s: Node, c: Content)
    requires Sound(g, r) && d !in r.of && d !in g.cells && s in g.cells && g.cells[s].IsValue()
    ensures Sound(g, AddNode(r, d, s, c)) && Grows(g, r, AddNode(r, d, s, c))
  {
    hide ToOk, SlotOk, SourceOk, WellFormed, Unique, Grows;
    var r' := AddNode(r, d, s, c);
    AddNodeGrows(g, r, d, s, c);
    NewNode(g, r', d);
    KeptByStep(g, r, r');
  }

  lemma AddNodeGrows(g: Graph, r: Run, d: Node, s: Node, c: Content)
    requires Domains(g, r) && Unique(g, r) && d !in r.of && d !in g.cells
    ensures var r' := AddNode(r, d, s, c); Domains(g, r') && Unique(g, r') && Grows(g, r, r')
  {
    UniqueKept(g, r, AddNode(r, d, s, c));
  }

  lemma NewNode(g: Graph, r: Run, d: Node)
    requires WellFormed(g) && d in r.of && d in r.to && d in r.wait && r.of[d] in g.cells && g.cells[r.of[d]].IsValue()
    ensures ToOk(g, r, d)
  {
  }

  /** A new pointer that takes over the target of an old one. */
  function AddPointer(r: Run, a: Slot, t: Node?, aim: Aim): Run {
    r.(val := r.val[a := t], aim := r.aim[a := aim], open := r.open + {a})
  }

  lemma AddPointerSound(g: Graph, r: Run, a: Slot, t: Node?, aim: Aim)
    requires Sound(g, r) && a !in r.aim && TargetOk(g, aim.way, t)
    requires aim.node == if t == null then null else Deref(g, t)
    ensures Sound(g, AddPointer(r, a, t, aim)) && Grows(g, r, AddPointer(r, a, t, aim))
  {
    hide ToOk, SourceOk, WellFormed, SlotOk, Deref, Unique;
    var r' := AddPointer(r, a, t, aim);
    NewPointer(g, r', a);
    UniqueKept(g, r, r');
    assert Grows(g, r, r');
    hide Grows;
    KeptByStep(g, r, r');
  }

  lemma NewPointer(g: Graph, r: Run, a: Slot)
    requires WellFormed(g) && a in r.aim && a in r.val && a in r.open && TargetOk(g, r.aim[a].way, r.val[a])
    requires r.aim[a].node == if r.val[a] == null then null else Deref(g, r.val[a])
    ensures SlotOk(g, r, a)
  {
    hide WellFormed;
  }

  /** A waiting node gets the copy of its value. */
  function Fill(r: Run, d: Node, c: Content): Run {
    r.(to := r.to[d := c], wait := r.wait - {d})
  }

  lemma FillSound(g: Graph, r: Run, d: Node, c: Content)
    requires Sound(g, r) && d in r.wait && r.of[d] in g.cells && Copied(g, r, c, g.cells[r.of[d]], d)
    requires Marked(g, r, r.of[d]) || r.of[d] in r.busy
    requires g.cells[r.of[d]].IsCopyable() || forall e <- r.of :: Home(r, e) ==> r.of[e] != r.of[d]
    ensures Sound(g, Fill(r, d, c)) && Grows(g, r, Fill(r, d, c))
  {
    hide ToOk, SlotOk, SourceOk, WellFormed, BlockCopied, KindOk;
    hide Unique, Grows;
    var r' := Fill(r, d, c);
    FillGrows(g, r, d, c);
    FilledNode(g, r, r', d, c);
    hide Copied;
    KeptByStep(g, r, r');
  }

  lemma FillGrows(g: Graph, r: Run, d: Node, c: Content)
    requires Domains(g, r) && Unique(g, r) && d in r.wait
    requires r.of[d] in g.cells && (g.cells[r.of[d]].IsCopyable() || forall e <- r.of :: Home(r, e) ==>
                                    r.of[e] != r.of[d])
    ensures var r' := Fill(r, d, c); Domains(g, r') && Unique(g, r') && Grows(g, r, r')
  {
  }

  lemma FilledNode(g: Graph, r: Run, r': Run, d: Node, c: Content)
    requires Sound(g, r) && d in r.of && Grows(g, r, r') && d in r'.to && r'.to[d] == c
    requires r.of[d] in g.cells && Copied(g, r, c, g.cells[r.of[d]], d) && r'.from == r.from && r'.busy == r.busy
    requires Marked(g, r, r.of[d]) || r.of[d] in r.busy
    ensures ToOk(g, r', d)
  {
    hide SlotOk, SourceOk, WellFormed, BlockCopied, KindOk;
    assert ToOk(g, r, d);
    KeepBlock(g, r, r', c.block, g.cells[r.of[d]].block);
  }

  /** A waiting node becomes a reference to the node that holds the copy. */
  function Link(r: Run, d: Node, h: Node): Run {
    Fill(r, d, Reference(h))
  }

  lemma LinkSound(g: Graph, r: Run, d: Node, h: Node)
    requires Sound(g, r) && d in r.wait && Home(r, h) && h.stable && r.of[h] == r.of[d]
    requires r.to[h].Data? && !r.to[h].kind.copyable
    ensures Sound(g, Link(r, d, h)) && Grows(g, r, Link(r, d, h))
  {
    hide SlotOk, SourceOk, WellFormed, Copied, Unique, Grows;
    var r' := Link(r, d, h);
    LinkGrows(g, r, d, h);
    assert ToOk(g, r, d) && ToOk(g, r, h);
    assert ToOk(g, r', d);
    hide ToOk;
    KeptByStep(g, r, r');
  }

  lemma LinkGrows(g: Graph, r: Run, d: Node, h: Node)
    requires Domains(g, r) && Unique(g, r) && d in r.wait
    ensures var r' := Link(r, d, h); Domains(g, r') && Unique(g, r') && Grows(g, r, r')
  {
    UniqueKept(g, r, Link(r, d, h));
  }

  lemma OuterAtRest(g: Graph, s: Node)
    requires WellFormed(g) && s in g.cells
    ensures g.cells[s].Outer? ==> g.cells[s].replicate == null
  {
    assert ContentOk(g, s);
  }

  /** The source value is marked with the place of its copy. */
  function Mark(g: Graph, r: Run, s: Node, d: Node): Run
    requires s in g.cells
  {
    r.(from := r.from[s := MarkOf(g.cells[s], d)], busy := r.busy - {s})
  }

  lemma MarkSound(g: Graph, r: Run, s: Node, d: Node)
    requires Sound(g, r) && s in g.cells && g.cells[s].IsValue() && Arrived(r, d) && r.of[d] == s
    requires Marked(g, r, s) || WeakOpen(r)
    ensures Sound(g, Mark(g, r, s, d)) && Grows(g, r, Mark(g, r, s, d)) && Marked(g, Mark(g, r, s, d), s)
  {
    hide SlotOk, WellFormed, ToOk, Unique;
    var r' := Mark(g, r, s, d);
    assert MarkOf(g.cells[s], d) != g.cells[s] by {
      OuterAtRest(g, s);
    }
    UniqueKept(g, r, r');
    assert SourceOk(g, r', s);
    hide SourceOk;
    KeptByStep(g, r, r');
  }

  /** A copy held by an unstable node moves to the stable node `h`, and leaves a reference behind. */
  function Move(r: Run, d: Node, h: Node): Run
    requires d in r.to
  {
    r.(to := r.to[h := r.to[d]][d := Reference(h)], wait := r.wait - {h})
  }

  /** First the stable node gets the copy, then the unstable one the reference. */
  lemma MoveInTwo(r: Run, d: Node, h: Node)
    requires d in r.to && h in r.to
    ensures var half, whole := Overlay(r, h, r.to[d]), Move(r, d, h);
      && half.to == r.to[h := r.to[d]] && half.from == r.from && half.val == r.val
      && whole.to == half.to[d := Reference(h)] && whole.from == half.from && whole.val == half.val
  {
  }

  lemma MoveSound(g: Graph, r: Run, d: Node, h: Node)
    requires Sound(g, r) && Home(r, d) && !d.stable && !r.to[d].IsCopyable()
    requires h in r.wait && h.stable && r.of[h] == r.of[d]
    ensures r.to[d].Data? && Sound(g, Move(r, d, h)) && Grows(g, r, Move(r, d, h))
  {
    hide SlotOk, SourceOk, WellFormed, Unique, Grows;
    var r' := Move(r, d, h);
    MoveGrows(g, r, d, h);
    MovedNodes(g, r, r', d, h);
    hide ToOk;
    KeptByStep(g, r, r');
  }

  lemma MovedNodes(g: Graph, r: Run, r': Run, d: Node, h: Node)
    requires Sound(g, r) && Home(r, d) && !d.stable && !r.to[d].IsCopyable()
    requires h in r.wait && h.stable && r.of[h] == r.of[d] && r' == Move(r, d, h) && Grows(g, r, r')
    ensures r.to[d].Data? && ToOk(g, r', d) && ToOk(g, r', h)
  {
    hide SlotOk, SourceOk, WellFormed, Unique, BlockCopied;
    assert ToOk(g, r, d);
    KeepBlock(g, r, r', r.to[d].block, g.cells[r.of[d]].block);
  }

  lemma MoveGrows(g: Graph, r: Run, d: Node, h: Node)
    requires Domains(g, r) && Unique(g, r) && Home(r, d) && !d.stable
    requires h in r.wait && h.stable && r.of[h] == r.of[d]
    ensures var r' := Move(r, d, h); Domains(g, r') && Unique(g, r') && Grows(g, r, r')
  {
    MoveUnique(g, r, d, h);
    hide Unique;
  }

  lemma MoveUnique(g: Graph, r: Run, d: Node, h: Node)
    requires Domains(g, r) && Unique(g, r) && Home(r, d) && !d.stable
    requires h in r.wait && h.stable && r.of[h] == r.of[d]
    ensures Unique(g, Move(r, d, h))
  {
    var r' := Move(r, d, h);
    forall x, y | x in r'.of && y in r'.of && Home(r', x) && Home(r', y) && r'.of[x] == r'.of[y]
      ensures x == y || (r'.of[x] in g.cells && g.cells[r'.of[x]].IsCopyable())
    {
      var x0, y0 := if x == h then d else x, if y == h then d else y;
      assert Home(r, x0) && Home(r, y0);
    }
  }

  /** A pointer is redirected, or a weak one cleared. */
  function Resolve(r: Run, a: Slot, v: Node?): Run {
    r.(val := r.val[a := v], open := r.open - {a})
  }

  lemma ResolveSound(g: Graph, r: Run, a: Slot, v: Node?)
    requires Sound(g, r) && a in r.open && a in r.aim
    requires v == null ==> r.aim[a].node == null || (r.aim[a].way.Weak? && !Marked(g, r, r.aim[a].node))
    requires v != null ==> Home(r, v) && v.stable && r.of[v] == r.aim[a].node
    ensures Sound(g, Resolve(r, a, v)) && Grows(g, r, Resolve(r, a, v))
  {
    hide ToOk, SourceOk, WellFormed, Unique;
    var r' := Resolve(r, a, v);
    UniqueKept(g, r, r');
    assert SlotOk(g, r, a);
    assert Grows(g, r, r') && SlotOk(g, r', a);
    hide Grows, SlotOk;
    KeptByStep(g, r, r');
  }

  /** A waiting node's memory is used for something else. */
  function Overlay(r: Run, d: Node, c: Content): Run {
    r.(to := r.to[d := c])
  }

  lemma OverlaySound(g: Graph, r: Run, d: Node, c: Content)
    requires Sound(g, r) && d in r.wait
    ensures Sound(g, Overlay(r, d, c)) && Grows(g, r, Overlay(r, d, c))
  {
    hide SlotOk, SourceOk, WellFormed, Unique, Grows, Copied, Marked;
    var r' := Overlay(r, d, c);
    OverlayGrows(g, r, d, c);
    SameMarks(g, r, r');
    assert ToOk(g, r, d);
    assert ToOk(g, r', d);
    hide ToOk;
    KeptByStep(g, r, r');
  }

  lemma OverlayGrows(g: Graph, r: Run, d: Node, c: Content)
    requires Domains(g, r) && Unique(g, r) && d in r.wait
    ensures var r' := Overlay(r, d, c); Domains(g, r') && Unique(g, r') && Grows(g, r, r')
  {
    UniqueKept(g, r, Overlay(r, d, c));
  }

  /** The copying of a value begins. */
  function Begin(r: Run, s: Node): Run {
    r.(busy := r.busy + {s})
  }

  lemma BeginSound(g: Graph, r: Run, s: Node)
    requires Sound(g, r)
    ensures Sound(g, Begin(r, s)) && Grows(g, r, Begin(r, s))
  {
    hide SlotOk, SourceOk, WellFormed, Unique, ToOk;
    var r' := Begin(r, s);
    UniqueKept(g, r, r');
    assert Grows(g, r, r');
    hide Grows;
    KeptByStep(g, r, r');
  }

  lemma SameMarks(g: Graph, r: Run, r': Run)
    requires r'.from == r.from
    ensures ClearedStay(g, r, r') && forall n <- g.cells :: Marked(g, r', n) <==> Marked(g, r, n)
  {
  }

  // ------------------------------------------------------------ copying a block adds only

  ghost function AimOf(g: Graph, way: Way, t: Node?): Aim
    requires WellFormed(g) && TargetOk(g, way, t)
  {
    Aim(way, if t == null then null else Deref(g, t))
  }

  /** New nodes and pointers, all still to be done, and nothing else. */
  ghost predicate OnlyAdds(g: Graph, r: Run, r': Run) {
    && Grows(g, r, r') && r'.from == r.from && r'.busy == r.busy
    && (forall d <- r'.of :: Arrived(r', d) ==> d in r.of && Arrived(r, d) && r'.to[d] == r.to[d])
    && r.wait <= r'.wait && r.open <= r'.open && (forall a <- r'.aim :: a in r.aim || a in r'.open)
  }

  lemma OnlyAddsTrans(g: Graph, r: Run, r1: Run, r2: Run)
    requires OnlyAdds(g, r, r1) && OnlyAdds(g, r1, r2)
    ensures OnlyAdds(g, r, r2)
  {
  }

  lemma AddNodeAdds(g: Graph, r: Run, d: Node, s: Node, c: Content)
    requires Domains(g, r) && Unique(g, r) && d !in r.of && d !in g.cells
    ensures OnlyAdds(g, r, AddNode(r, d, s, c))
  {
    AddNodeGrows(g, r, d, s, c);
    hide Grows;
  }

  lemma OverlayAdds(g: Graph, r: Run, d: Node, c: Content)
    requires Domains(g, r) && Unique(g, r) && d in r.wait
    ensures OnlyAdds(g, r, Overlay(r, d, c))
  {
    OverlayGrows(g, r, d, c);
    hide Grows;
  }

  lemma AddPointerAdds(g: Graph, r: Run, a: Slot, t: Node?, aim: Aim)
    requires a !in r.aim
    ensures OnlyAdds(g, r, AddPointer(r, a, t, aim))
  {
    assert Grows(g, r, AddPointer(r, a, t, aim));
    hide Grows;
  }

  lemma OnlyAddsMarks(g: Graph, r: Run, r': Run)
    requires OnlyAdds(g, r, r')
    ensures Grows(g, r, r') && r'.busy == r.busy && (WeakOpen(r) ==> WeakOpen(r'))
    ensures forall s :: Marked(g, r', s) <==> Marked(g, r, s)
    ensures forall d :: Home(r', d) ==> Home(r, d) && r'.of[d] == r.of[d]
  {
  }

  lemma NothingAdded(g: Graph, r: Run)
    ensures OnlyAdds(g, r, r)
  {
    hide Marked, Home;
  }

  lemma NodeKept(g: Graph, r: Run, r': Run, n: Node, n0: Node)
    requires OnlyAdds(g, r, r') && WellFormed(g) && NodeCopied(g, r, n, n0)
    ensures NodeCopied(g, r', n, n0)
  {
    hide WellFormed, Deref;
  }

  lemma PointerKept(g: Graph, r: Run, r': Run, p: Pointer, p0: Pointer)
    requires OnlyAdds(g, r, r') && WellFormed(g) && PointerCopied(g, r, p, p0)
    ensures PointerCopied(g, r', p, p0)
  {
    hide WellFormed, PointerOk, Target;
  }

  /** What a block leads to over anything but weak pointers is reachable from the roots. */
  ghost predicate StepsReachable(g: Graph, b0: Block, b: Block)
    requires WellFormed(g) && BlockOk(g, b0) && BlockOk(g, b)
  {
    forall s :: Arrive(g, b, s) != null ==> Reachable(g, b0, Arrive(g, b, s))
  }

  lemma ChildReachable(g: Graph, b0: Block, b: Block, i: nat)
    requires WellFormed(g) && BlockOk(g, b0) && BlockOk(g, b) && StepsReachable(g, b0, b) && i < |b.nodes|
    ensures b.nodes[i] in g.cells && !g.cells[b.nodes[i]].Outer? && Reachable(g, b0, Deref(g, b.nodes[i]))
  {
    hide WellFormed, Reachable;
    assert Arrive(g, b, Child(i)) == Deref(g, b.nodes[i]);
  }

  lemma FieldReachable(g: Graph, b0: Block, b: Block, i: nat)
    requires WellFormed(g) && BlockOk(g, b0) && BlockOk(g, b) && StepsReachable(g, b0, b) && i < |b.pointers|
    ensures PointerOk(g, b.pointers[i])
    ensures var p := b.pointers[i];
      p.way.Weak? || Target(g, p.slot, p.way) == null || Reachable(g, b0, Target(g, p.slot, p.way))
  {
    hide WellFormed, Reachable;
    var p := b.pointers[i];
    assert PointerOk(g, p);
    if !p.way.Weak? {
      assert Arrive(g, b, Follow(i)) == Target(g, p.slot, p.way);
    }
  }

  lemma StepsOfRoots(g: Graph, b0: Block)
    requires WellFormed(g) && BlockOk(g, b0)
    ensures StepsReachable(g, b0, b0)
  {
    hide WellFormed, BlockOk, Reachable, Arrive;
    forall s | Arrive(g, b0, s) != null ensures Reachable(g, b0, Arrive(g, b0, s)) {
      ReachableFirst(g, b0, s);
    }
  }

  lemma StepsOfValue(g: Graph, b0: Block, n: Node)
    requires WellFormed(g) && BlockOk(g, b0) && Reachable(g, b0, n)
    ensures n in g.cells && g.cells[n].IsValue() && BlockOk(g, g.cells[n].block) &&
      StepsReachable(g, b0, g.cells[n].block)
  {
    hide WellFormed, BlockOk, Reachable, Arrive;
    ReachableOn(g, b0, n, Child(0));
    forall s | Arrive(g, g.cells[n].block, s) != null ensures Reachable(g, b0, Arrive(g, g.cells[n].block, s)) {
      ReachableOn(g, b0, n, s);
    }
  }

  // ---------------------------------------------------------------- reading the two graphs

  lemma SourceContent(g: Graph, r: Run, n: Node)
    requires Sound(g, r) && n in g.cells
    ensures n in r.from && (g.cells[n].Reference? ==> r.from[n] == g.cells[n])
    ensures r.from[n].Reference? ==> r.from[n] == g.cells[n]
    ensures g.cells[n].IsValue() && !Marked(g, r, n) ==> r.from[n] == g.cells[n]
    ensures g.cells[n].IsValue() && Marked(g, r, n) ==>
      var d := MarkDest(r.from[n]);
      d != null && Arrived(r, d) && r.of[d] == n && r.from[n] == MarkOf(g.cells[n], d)
  {
    assert SourceOk(g, r, n);
  }

  /** An unmarked value has no copy, unless it is being copied. */
  lemma UnmarkedHasNone(g: Graph, r: Run, s: Node)
    requires Sound(g, r) && !Marked(g, r, s) && s !in r.busy
    ensures forall e <- r.of :: Arrived(r, e) ==> r.of[e] != s
  {
    hide WellFormed, SourceOk, SlotOk, Unique, Copied;
    forall e | e in r.of && Arrived(r, e) ensures r.of[e] != s {
      assert ToOk(g, r, e);
    }
  }

  lemma ArrivedContent(g: Graph, r: Run, d: Node)
    requires Sound(g, r) && Arrived(r, d)
    ensures r.of[d] in g.cells && g.cells[r.of[d]].IsValue() && WellFormed(g)
    ensures r.to[d].Reference? ==>
      var h := r.to[d].dest;
      Home(r, h) && h.stable && r.of[h] == r.of[d] && r.to[h].Data? && !r.to[h].kind.copyable
    ensures !r.to[d].Reference? ==> Home(r, d) && Copied(g, r, r.to[d], g.cells[r.of[d]], d)
  {
    hide WellFormed, SourceOk, SlotOk, Unique, BlockCopied, KindOk;
    assert ToOk(g, r, d);
  }

  /** A copyable value can be held by any node. */
  lemma CopyableAnywhere(g: Graph, r: Run, c: Content, c0: Content, d: Node, e: Node)
    requires WellFormed(g) && Copied(g, r, c, c0, d) && c.IsCopyable()
    ensures Copied(g, r, c, c0, e) && c0.IsCopyable()
  {
  }

  /** What copying a value into `d` leaves as it was. */
  ghost predicate Collected(g: Graph, r: Run, r': Run, d: Node) {
    && Grows(g, r, r') && r'.from == r.from && r'.busy == r.busy && Arrived(r', d)
    && (WeakOpen(r) ==> WeakOpen(r'))
  }

  lemma CollectedTrans(g: Graph, r: Run, r1: Run, r2: Run, d: Node)
    requires OnlyAdds(g, r, r1) && Collected(g, r1, r2, d)
    ensures Collected(g, r, r2, d)
  {
  }

  /** The same value over a new block. */
  function WithBlock(c: Content, b: Block): Content {
    match c
    case Data(k, _) => Data(k, b)
    case Outer(k, _, _) => Outer(k, b, null)
    case _ => c
  }

  lemma CopiedOver(g: Graph, r: Run, b: Block, s: Node, d: Node)
    requires WellFormed(g) && s in g.cells && g.cells[s].IsValue() && !g.cells[s].kind.inline
    requires BlockCopied(g, r, b, g.cells[s].block) && Plain(b) && (g.cells[s].Outer? ==> d.stable)
    ensures Copied(g, r, WithBlock(g.cells[s], b), g.cells[s], d)
  {
    hide NodeCopied, PointerCopied, BlockOk, WellFormed;
    ValueKind(g, s);
    var c := g.cells[s];
    if c.kind.copyable {
      assert b == Block([], []);
    }
  }

  lemma ValueKind(g: Graph, s: Node)
    requires WellFormed(g) && s in g.cells && g.cells[s].IsValue()
    ensures BlockOk(g, g.cells[s].block)
    ensures g.cells[s].Data? ==> KindOk(s, g.cells[s].kind, g.cells[s].block)
    ensures g.cells[s].Outer? ==> !g.cells[s].kind.inline && !g.cells[s].kind.copyable && g.cells[s].replicate == null
  {
    assert ContentOk(g, s);
  }

  lemma FillCollected(g: Graph, r: Run, d: Node, c: Content)
    requires Grows(g, r, Fill(r, d, c)) && d in r.of && c.IsValue()
    ensures Collected(g, r, Fill(r, d, c), d) && Home(Fill(r, d, c), d)
  {
    hide Grows;
  }

  /** The copy of an inline value: its pointer is the new node's own word. */
  lemma CopiedInline(g: Graph, r: Run, s: Node, d: Node)
    requires WellFormed(g) && s in g.cells && g.cells[s].Data? && g.cells[s].kind.inline
    requires d.stable && d.word !in r.aim
    ensures g.cells[s].block.nodes == [] && |g.cells[s].block.pointers| == 1 && !g.cells[s].kind.copyable
    ensures var p := g.cells[s].block.pointers[0];
      && p.slot == s.word && PointerOk(g, p) && TargetOk(g, p.way, g.vals[p.slot])
      && Copied(g, AddPointer(r, d.word, g.vals[p.slot], AimOf(g, p.way, g.vals[p.slot])),
                Data(g.cells[s].kind, Block([], [Pointer(d.word, p.way)])), g.cells[s], d)
  {
    hide WellFormed, Deref;
    ValueKind(g, s);
    var p := g.cells[s].block.pointers[0];
    assert PointerOk(g, p);
    var r' := AddPointer(r, d.word, g.vals[p.slot], AimOf(g, p.way, g.vals[p.slot]));
    assert PointerCopied(g, r', Pointer(d.word, p.way), p);
  }

  lemma FillInlineCollected(g: Graph, r: Run, d: Node, t: Node?, aim: Aim, c: Content)
    requires d in r.of && d in r.wait && d.word !in r.aim && c.IsValue()
    ensures Collected(g, r, Fill(AddPointer(r, d.word, t, aim), d, c), d) &&
      Home(Fill(AddPointer(r, d.word, t, aim), d, c), d)
  {
  }

  /** A value collected into `h`, to which `d` then refers, is collected into `d`. */
  lemma CollectedBehind(g: Graph, r: Run, h: Node, s: Node, r3: Run, d: Node)
    requires Domains(g, r) && Unique(g, r) && h !in r.of && h !in g.cells && d in r.wait
    requires Collected(g, Overlay(AddNode(r, h, s, Blank), d, Reference(h)), r3, h) && d in r3.of
    requires Grows(g, r3, Link(r3, d, h))
    ensures Collected(g, r, Link(r3, d, h), d)
  {
    hide Grows, Unique, Marked, Home, OnlyAdds;
    var r1 := AddNode(r, h, s, Blank);
    var r2 := Overlay(r1, d, Reference(h));
    AddNodeGrows(g, r, h, s, Blank);
    AddNodeAdds(g, r, h, s, Blank);
    OverlayAdds(g, r1, d, Reference(h));
    OnlyAddsTrans(g, r, r1, r2);
    CollectedTrans(g, r, r2, r3, h);
    GrowsTrans(g, r, r3, Link(r3, d, h));
  }

  lemma GrowsTrans(g: Graph, r: Run, r1: Run, r2: Run)
    requires Grows(g, r, r1) && Grows(g, r1, r2)
    ensures Grows(g, r, r2)
  {
  }

  lemma NoneStill(g: Graph, r: Run, h: Node, s: Node, d: Node)
    requires forall e <- r.of :: Arrived(r, e) ==> r.of[e] != s
    requires d in r.wait && d in r.of && h !in r.of
    ensures var r2 := Overlay(AddNode(r, h, s, Blank), d, Reference(h));
      && d in r2.of && r2.of[d] == r.of[d] && h in r2.of && r2.of[h] == s && r2.busy == r.busy && r2.from == r.from
      && d in r2.to && r2.to[d] == Reference(h)
      && forall e <- r2.of :: Arrived(r2, e) ==> r2.of[e] != s
  {
  }

  lemma Referred(g: Graph, r: Run, r': Run, d: Node, h: Node)
    requires Collected(g, r, r', h) && d in r.of && h in r.of
    ensures d in r'.of && h in r'.of && r'.of[d] == r.of[d] && r'.of[h] == r.of[h]
  {
  }

  /** `d` is to become the copy of the value `s`, which has none yet. */
  ghost predicate Uncopied(g: Graph, r: Run, d: Node, s: Node) {
    && d in r.of && r.of[d] == s && s in g.cells && s in r.busy
    && forall e <- r.of :: Arrived(r, e) ==> r.of[e] != s
  }

  /** A copy moved to the new node `h`, to which `d` then refers. */
  lemma CollectedMoved(g: Graph, r: Run, h: Node, s: Node, r2: Run, d: Node)
    requires Domains(g, r) && Unique(g, r) && h !in r.of && h !in g.cells
    requires Collected(g, AddNode(r, h, s, Blank), r2, h)
    requires Domains(g, r2) && Unique(g, r2) && d in r2.wait && d in r2.of
    requires var r3 := Overlay(r2, d, Reference(h)); Grows(g, r3, Link(r3, d, h))
    ensures Collected(g, r, Link(Overlay(r2, d, Reference(h)), d, h), d)
  {
    hide Grows, Unique, Marked, Home, OnlyAdds;
    var r1 := AddNode(r, h, s, Blank);
    var r3 := Overlay(r2, d, Reference(h));
    AddNodeAdds(g, r, h, s, Blank);
    CollectedTrans(g, r, r1, r2, h);
    OverlayGrows(g, r2, d, Reference(h));
    GrowsTrans(g, r, r2, r3);
    GrowsTrans(g, r, r3, Link(r3, d, h));
  }

  /** The values not copied yet. */
  ghost function Left(g: Graph, r: Run): set<Node> {
    set n <- g.cells | g.cells[n].IsValue() && !Marked(g, r, n)
  }

  lemma LeftWithout(g: Graph, r: Run, r1: Run, s: Node, d: Node)
    requires WellFormed(g) && r.from.Keys == g.cells.Keys && r1.from == r.from && s in g.cells && g.cells[s].IsValue()
    ensures Left(g, Mark(g, r1, s, d)) == Left(g, r) - {s}
  {
    hide WellFormed;
    OuterAtRest(g, s);
    assert MarkOf(g.cells[s], d) != g.cells[s];
  }

  /** What processing the value `s` for `d` amounts to. */
  ghost predicate Processed(g: Graph, r: Run, r': Run, s: Node, d: Node) {
    && Grows(g, r, r') && r'.busy == r.busy && Arrived(r', d) && Left(g, r') == Left(g, r) - {s} && Marked(g, r', s)
    && (WeakOpen(r) ==> WeakOpen(r'))
  }

  lemma ProcessedByMark(g: Graph, r: Run, r1: Run, s: Node, d: Node)
    requires WellFormed(g) && Domains(g, r) && s in g.cells && g.cells[s].IsValue()
    requires Collected(g, Begin(r, s), r1, d) || (Collected(g, r, r1, d) && r.busy == {})
    requires r.busy == {} && Grows(g, r1, Mark(g, r1, s, d))
    ensures Processed(g, r, Mark(g, r1, s, d), s, d)
  {
    hide WellFormed;
    LeftWithout(g, r, r1, s, d);
    OuterAtRest(g, s);
    hide Left;
  }

  lemma CollectedMarks(g: Graph, r: Run, r1: Run, d: Node, s: Node)
    requires Collected(g, r, r1, d) || Collected(g, Begin(r, s), r1, d)
    requires s in g.cells && (Marked(g, r, s) || WeakOpen(r)) && d in r.of
    ensures (Marked(g, r1, s) || WeakOpen(r1)) && Arrived(r1, d) && r1.of[d] == r.of[d]
  {
  }

  /** No value is copied in the step. */
  ghost predicate SharedOnly(g: Graph, r: Run, r': Run) {
    Grows(g, r, r') && r'.from == r.from && r'.busy == r.busy && (WeakOpen(r) ==> WeakOpen(r'))
  }

  lemma SharedSelf(g: Graph, r: Run)
    ensures SharedOnly(g, r, r)
  {
    hide Marked, Home, Arrived, WeakOpen;
  }

  lemma ResolvedShared(g: Graph, r: Run, r1: Run, a: Slot, v: Node?)
    requires SharedOnly(g, r, r1) && Grows(g, r1, Resolve(r1, a, v)) && a in r1.aim
    ensures Grows(g, r, Resolve(r1, a, v)) && Left(g, Resolve(r1, a, v)) == Left(g, r) &&
      Resolve(r1, a, v).busy == r.busy
    ensures !r1.aim[a].way.Weak? && WeakOpen(r) ==> WeakOpen(Resolve(r1, a, v))
  {
    GrowsTrans(g, r, r1, Resolve(r1, a, v));
    hide Grows;
  }

  lemma ResolvedNew(g: Graph, r: Run, h: Node, s: Node, r2: Run, a: Slot)
    requires Domains(g, r) && Unique(g, r) && h !in r.of && h !in g.cells
    requires Processed(g, AddNode(r, h, s, Blank), r2, s, h) && Grows(g, r2, Resolve(r2, a, h)) && a in r2.aim
    requires s in g.cells && g.cells[s].IsValue() && !Marked(g, r, s)
    ensures Grows(g, r, Resolve(r2, a, h)) && Left(g, Resolve(r2, a, h)) < Left(g, r) &&
      Resolve(r2, a, h).busy == r.busy
    ensures !r2.aim[a].way.Weak? && WeakOpen(r) ==> WeakOpen(Resolve(r2, a, h))
  {
    hide Unique;
    AddNodeGrows(g, r, h, s, Blank);
    GrowsTrans(g, r, AddNode(r, h, s, Blank), r2);
    GrowsTrans(g, r, r2, Resolve(r2, a, h));
    hide Grows;
    assert s in Left(g, r);
  }

  lemma OverlayNew(g: Graph, r: Run, d: Node, f: Node, c: Content)
    requires WellFormed(g) && f in g.cells && d.stable == f.stable
    ensures Overlay(AddNode(r, d, Deref(g, f), Blank), d, c) == AddNode(r, d, Deref(g, f), c)
    ensures NodeCopied(g, AddNode(r, d, Deref(g, f), c), d, f)
  {
    hide WellFormed, Deref;
    assert r.to[d := Blank][d := c] == r.to[d := c];
  }
}
