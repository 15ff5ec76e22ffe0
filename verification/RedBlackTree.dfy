/** The ghost view of a dictionary's nodes: a tree, or a tree with a hole (a
    context), the red-black conditions on both, and the pointers they stand for. */
module RedBlackTree {
  import opened Wrappers

  datatype Color = Black | Red

  datatype Side = L | R

  /** NodeDictionary::Node. */
  class Node<K, V> {
    var parent: Node?<K, V>
    var left: Node?<K, V>
    var right: Node?<K, V>
    var color: Color
    var key: K
    var value: V

    constructor (parent: Node?<K, V>, color: Color, key: K, value: V)
      ensures this.parent == parent && left == null && right == null
      ensures this.color == color && this.key == key && this.value == value
    {
      this.parent, left, right := parent, null, null;
      this.color, this.key, this.value := color, key, value;
    }
  }

  /** Node::getTheOtherChild. */
  function GetTheOtherChild<K, V>(n: Node<K, V>, oneChild: Node?<K, V>): Node?<K, V>
    reads n
  {
    if oneChild == n.left then n.right else n.left
  }

  /** Node::getOneChild. */
  function GetOneChild<K, V>(n: Node<K, V>): Node?<K, V>
    reads n
  {
    if n.left == null then n.right else n.left
  }

  predicate IsRed<K, V>(n: Node?<K, V>)
    reads n
  {
    n != null && n.color == Red
  }

  predicate IsBlack<K, V>(n: Node?<K, V>)
    reads n
  {
    n == null || n.color == Black
  }

  datatype Entry<K, V> = Entry(node: Node<K, V>, key: K, value: V)

  datatype Tree<K, V> =
    | Leaf
    | Branch(node: Node<K, V>, color: Color, key: K, value: V,
             left: Tree<K, V>, right: Tree<K, V>)
  {
    function Root(): Node?<K, V> {
      if Leaf? then null else node
    }

    function RootColor(): Color {
      if Leaf? then Black else color
    }

    ghost function Nodes(): set<Node<K, V>> {
      if Leaf? then {} else {node} + left.Nodes() + right.Nodes()
    }

    ghost predicate Distinct() {
      Branch? ==>
        && node !in left.Nodes() && node !in right.Nodes() && left.Nodes() !! right.Nodes()
        && left.Distinct() && right.Distinct()
    }

    function Entries(): seq<Entry<K, V>> {
      if Leaf? then [] else left.Entries() + [Entry(node, key, value)] + right.Entries()
    }

    function Height(): nat {
      if Leaf? then 0
      else 1 + if left.Height() < right.Height() then right.Height() else left.Height()
    }
  }

  /** The branch over `near`, on side `s`, and `far`, on the other side. */
  function Join<K, V>(s: Side, n: Node<K, V>, c: Color, k: K, v: V, near: Tree<K, V>, far: Tree<K, V>): (t: Tree<K, V>)
    ensures t.Branch? && t.node == n && t.color == c && t.key == k && t.value == v && Near(t, s) == near &&
      Near(t, Other(s)) == far
  {
    if s == L then Branch(n, c, k, v, near, far) else Branch(n, c, k, v, far, near)
  }

  /** A tree with one subtree taken out: the path from the hole up to the root. */
  datatype Context<K, V> =
    | Top
    | Hole(side: Side, node: Node<K, V>, color: Color, key: K, value: V,
           sibling: Tree<K, V>, up: Context<K, V>)
  {
    function Parent(): Node?<K, V> {
      if Top? then null else node
    }

    /** The number of nodes from the hole up to the root. */
    ghost function Depth(): nat {
      if Top? then 0 else up.Depth() + 1
    }

    function Fill(t: Tree<K, V>): (f: Tree<K, V>)
      requires Hole?
      ensures f.Branch? && Near(f, side) == t && Near(f, Other(side)) == sibling
    {
      Join(side, node, color, key, value, t, sibling)
    }

    function Plug(t: Tree<K, V>): Tree<K, V>
      decreases this
    {
      if Top? then t else up.Plug(Fill(t))
    }

    ghost function Nodes(): set<Node<K, V>> {
      if Top? then {} else {node} + sibling.Nodes() + up.Nodes()
    }

    ghost predicate Distinct() {
      Hole? ==>
        && node !in sibling.Nodes() && node !in up.Nodes() && sibling.Nodes() !! up.Nodes()
        && sibling.Distinct() && up.Distinct()
    }

    function Before(): seq<Entry<K, V>> {
      if Top? then []
      else if side == L then up.Before()
      else up.Before() + sibling.Entries() + [Entry(node, key, value)]
    }

    function After(): seq<Entry<K, V>> {
      if Top? then []
      else if side == L then [Entry(node, key, value)] + sibling.Entries() + up.After()
      else up.After()
    }
  }

  // ------------------------------------------------------- red-black conditions

  /** `t` has no red node with a red child and black height `h` on every path. */
  predicate RB<K, V>(t: Tree<K, V>, h: nat) {
    match t
    case Leaf => h == 0
    case Branch(_, Red, _, _, l, r) => l.RootColor() == r.RootColor() == Black && RB(l, h) && RB(r, h)
    case Branch(_, Black, _, _, l, r) => h > 0 && RB(l, h - 1) && RB(r, h - 1)
  }

  ghost predicate IsRedBlack<K, V>(t: Tree<K, V>) {
    t.RootColor() == Black && exists h: nat :: RB(t, h)
  }

  /** A subtree of black height `h` and root colour `c` completes `ctx` to a red-black tree. */
  predicate Fits<K, V>(ctx: Context<K, V>, h: nat, c: Color) {
    match ctx
    case Top => c == Black
    case Hole(_, _, Red, _, _, s, up) => c == s.RootColor() == Black && RB(s, h) && Fits(up, h, Red)
    case Hole(_, _, Black, _, _, s, up) => RB(s, h) && Fits(up, h + 1, Black)
  }

  lemma {:induction false} PlugIsRedBlack<K, V>(ctx: Context<K, V>, t: Tree<K, V>, h: nat)
    requires RB(t, h) && Fits(ctx, h, t.RootColor())
    ensures IsRedBlack(ctx.Plug(t))
    decreases ctx
  {
    if ctx.Hole? {
      PlugIsRedBlack(ctx.up, ctx.Fill(t), if ctx.color == Red then h else h + 1);
    }
  }

  lemma {:induction false} PlugEntries<K, V>(ctx: Context<K, V>, t: Tree<K, V>)
    ensures ctx.Plug(t).Entries() == ctx.Before() + t.Entries() + ctx.After()
    decreases ctx
  {
    if ctx.Hole? {
      PlugEntries(ctx.up, ctx.Fill(t));
    }
  }

  // ------------------------------------------------------------------- pointers

  /** What the fields of one node hold. */
  datatype Cell<K, V> = Cell(parent: Node?<K, V>, left: Node?<K, V>, right: Node?<K, V>,
                             color: Color, key: K, value: V)

  function Layout<K, V>(t: Tree<K, V>, parent: Node?<K, V>): (m: map<Node<K, V>, Cell<K, V>>)
    ensures m.Keys == t.Nodes()
  {
    match t
    case Leaf => map[]
    case Branch(n, c, k, v, l, r) =>
      Layout(l, n) + Layout(r, n) + map[n := Cell(parent, l.Root(), r.Root(), c, k, v)]
  }

  function ContextLayout<K, V>(ctx: Context<K, V>, hole: Node?<K, V>): (m: map<Node<K, V>, Cell<K, V>>)
    ensures m.Keys == ctx.Nodes()
    decreases ctx
  {
    match ctx
    case Top => map[]
    case Hole(side, n, c, k, v, s, up) =>
      ContextLayout(up, n) + Layout(s, n) +
      map[n := if side == L then Cell(up.Parent(), hole, s.Root(), c, k, v)
               else Cell(up.Parent(), s.Root(), hole, c, k, v)]
  }

  ghost predicate Apart<K, V>(ctx: Context<K, V>, t: Tree<K, V>) {
    ctx.Distinct() && t.Distinct() && ctx.Nodes() !! t.Nodes()
  }

  lemma {:induction false} PlugLayout<K, V>(ctx: Context<K, V>, t: Tree<K, V>)
    requires Apart(ctx, t)
    ensures Layout(ctx.Plug(t), null) == ContextLayout(ctx, t.Root()) + Layout(t, ctx.Parent())
    decreases ctx
  {
    if ctx.Hole? {
      PlugLayout(ctx.up, ctx.Fill(t));
      var n := ctx.node;
      Regroup(ContextLayout(ctx.up, n), Layout(ctx.sibling, n), Layout(t, n),
              map[n := ContextLayout(ctx, t.Root())[n]]);
    }
  }

  lemma {:induction false} PlugDistinct<K, V>(ctx: Context<K, V>, t: Tree<K, V>)
    ensures ctx.Plug(t).Nodes() == ctx.Nodes() + t.Nodes()
    ensures ctx.Plug(t).Distinct() <==> Apart(ctx, t)
    decreases ctx
  {
    if ctx.Hole? {
      PlugDistinct(ctx.up, ctx.Fill(t));
    }
  }

  lemma {:induction false} PlugRoot<K, V>(ctx: Context<K, V>, t: Tree<K, V>, t': Tree<K, V>)
    requires ctx.Hole? || t.Root() == t'.Root()
    ensures ctx.Plug(t).Root() == ctx.Plug(t').Root()
    ensures ctx.Top? ==> ctx.Plug(t).Root() == t.Root()
    decreases ctx
  {
    if ctx.Hole? {
      PlugRoot(ctx.up, ctx.Fill(t), ctx.Fill(t'));
    }
  }

  /** A cell whose child on side `s` is `n`. */
  function SetChild<K, V>(c: Cell<K, V>, s: Side, n: Node?<K, V>): Cell<K, V> {
    if s == L then c.(left := n) else c.(right := n)
  }

  function Other(s: Side): Side {
    if s == L then R else L
  }

  function Near<K, V>(t: Tree<K, V>, s: Side): Tree<K, V>
    requires t.Branch?
  {
    if s == L then t.left else t.right
  }

  predicate CanRotate<K, V>(s: Side, t: Tree<K, V>) {
    t.Branch? && Near(t, Other(s)).Branch?
  }

  /** `t` rotated towards side `s`: its child on the other side takes its place. */
  function Rotated<K, V>(s: Side, t: Tree<K, V>): Tree<K, V>
    requires CanRotate(s, t)
  {
    var u := Near(t, Other(s));
    var t1 := Join(s, t.node, t.color, t.key, t.value, Near(t, s), Near(u, s));
    Join(s, u.node, u.color, u.key, u.value, t1, Near(u, Other(s)))
  }

  /** The cells of `m` once `b` has `q` for a parent. */
  function Reparented<K, V>(m: map<Node<K, V>, Cell<K, V>>, b: Node?<K, V>, q: Node?<K, V>): map<Node<K, V>,
    Cell<K, V>> {
    map n | n in m :: if n == b then m[n].(parent := q) else m[n]
  }

  /** The cells of `m` once `u`, the child of `t` away from `s`, has taken its place
      under `parent`, and `t` has adopted `b`, the child of `u` on side `s`. */
  function Relinked<K, V>(m: map<Node<K, V>, Cell<K, V>>, s: Side,
                          t: Node<K, V>, u: Node<K, V>, b: Node?<K, V>, parent: Node?<K, V>)
    : map<Node<K, V>, Cell<K, V>>
  {
    map n | n in m ::
      if n == t then SetChild(m[n].(parent := u), Other(s), b)
      else if n == u then SetChild(m[n].(parent := parent), s, t)
      else if n == b then m[n].(parent := t)
      else m[n]
  }

  lemma Reparent<K, V>(t: Tree<K, V>, p: Node?<K, V>, q: Node?<K, V>)
    requires t.Distinct()
    ensures Layout(t, q) == Reparented(Layout(t, p), t.Root(), q)
  {
  }

  lemma Recombine<X, Y>(a: map<X, Y>, b: map<X, Y>, b': map<X, Y>, c: map<X, Y>, t: X, u: X,
                        x: Y, y: Y, x': Y, y': Y)
    requires a.Keys !! b.Keys && a.Keys !! c.Keys && b.Keys !! c.Keys && b'.Keys == b.Keys
    requires t != u && t !in a && t !in b && t !in c && u !in a && u !in b && u !in c
    ensures var m, m' := a + (b + c + map[u := y]) + map[t := x], a + b' + map[t := x'] + c + map[u := y'];
      && m.Keys == m'.Keys == a.Keys + b.Keys + c.Keys + {t, u}
      && m[t] == x && m[u] == y && m'[t] == x' && m'[u] == y'
      && forall n <- m :: n != t && n != u ==> if n in b then m[n] == b[n] && m'[n] == b'[n] else m'[n] == m[n]
  {
  }

  lemma RelinkedIs<K, V>(m: map<Node<K, V>, Cell<K, V>>, m': map<Node<K, V>, Cell<K, V>>, s: Side,
                         t: Node<K, V>, u: Node<K, V>, r: Node?<K, V>, parent: Node?<K, V>)
    requires m'.Keys == m.Keys && t in m && u in m && t != u
    requires m'[t] == SetChild(m[t].(parent := u), Other(s), r)
    requires m'[u] == SetChild(m[u].(parent := parent), s, t)
    requires forall n <- m :: n != t && n != u ==> m'[n] == if n == r then m[n].(parent := t) else m[n]
    ensures m' == Relinked(m, s, t, u, r, parent)
  {
  }

  lemma RelinkedUnion<K, V>(a: map<Node<K, V>, Cell<K, V>>, b: map<Node<K, V>, Cell<K, V>>,
                            c: map<Node<K, V>, Cell<K, V>>, s: Side, t: Node<K, V>, u: Node<K, V>,
                            r: Node?<K, V>, parent: Node?<K, V>, x: Cell<K, V>, y: Cell<K, V>)
    requires a.Keys !! b.Keys && a.Keys !! c.Keys && b.Keys !! c.Keys
    requires t != u && t !in a && t !in b && t !in c && u !in a && u !in b && u !in c
    requires r == null || r in b
    ensures a + Reparented(b, r, t) + map[t := SetChild(x.(parent := u), Other(s), r)]
            + c + map[u := SetChild(y.(parent := parent), s, t)]
         == Relinked(a + (b + c + map[u := y]) + map[t := x], s, t, u, r, parent)
  {
    hide SetChild, Other, Relinked;
    var x', y' := SetChild(x.(parent := u), Other(s), r), SetChild(y.(parent := parent), s, t);
    var m, m' := a + (b + c + map[u := y]) + map[t := x], a + Reparented(b, r, t) + map[t := x'] + c + map[u := y'];
    Recombine(a, b, Reparented(b, r, t), c, t, u, x, y, x', y');
    RelinkedIs(m, m', s, t, u, r, parent);
  }

  lemma RotateNodes<K, V>(s: Side, t: Tree<K, V>)
    requires t.Distinct() && CanRotate(s, t)
    ensures Rotated(s, t).Nodes() == t.Nodes() && Rotated(s, t).Distinct()
  {
  }

  lemma RotateEntries<K, V>(s: Side, t: Tree<K, V>)
    requires CanRotate(s, t)
    ensures Rotated(s, t).Entries() == t.Entries()
    ensures Rotated(s, t).Nodes() == t.Nodes()
  {
  }

  /** Layout, seen through sides. */
  lemma LayoutOf<K, V>(s: Side, t: Tree<K, V>, parent: Node?<K, V>)
    requires t.Branch? && t.Distinct()
    ensures Layout(t, parent) ==
      Layout(Near(t, s), t.node) + Layout(Near(t, Other(s)), t.node) +
      map[t.node := Cell(parent, t.left.Root(), t.right.Root(), t.color, t.key, t.value)]
  {
  }

  /** The node sets of the parts of a rotation. */
  lemma RotateParts<K, V>(s: Side, t: Tree<K, V>)
    requires t.Distinct() && CanRotate(s, t)
    ensures var u := Near(t, Other(s)); var a, b, c := Near(t, s).Nodes(), Near(u, s).Nodes(),
      Near(u, Other(s)).Nodes();
      && a !! b && a !! c && b !! c && t.node != u.node
      && t.node !in a && t.node !in b && t.node !in c && u.node !in a && u.node !in b && u.node !in c
      && t.Nodes() == a + b + c + {t.node, u.node}
  {
  }

  lemma RotateLayout<K, V>(s: Side, t: Tree<K, V>, parent: Node?<K, V>)
    requires t.Distinct() && CanRotate(s, t)
    ensures var u := Near(t, Other(s));
      Layout(Rotated(s, t), parent) == Relinked(Layout(t, parent), s, t.node, u.node, Near(u, s).Root(), parent)
  {
    var u, t' := Near(t, Other(s)), Rotated(s, t);
    var a, b, c := Near(t, s), Near(u, s), Near(u, Other(s));
    var x := Cell(parent, t.left.Root(), t.right.Root(), t.color, t.key, t.value);
    var y := Cell(t.node, u.left.Root(), u.right.Root(), u.color, u.key, u.value);
    RotateParts(s, t);
    RotateNodes(s, t);
    LayoutOf(s, t, parent);
    LayoutOf(s, u, t.node);
    LayoutOf(s, t', parent);
    LayoutOf(s, Near(t', s), u.node);
    Reparent(b, u.node, t.node);
    RelinkedUnion(Layout(a, t.node), Layout(b, u.node), Layout(c, u.node), s, t.node, u.node, b.Root(), parent, x, y);
  }

  lemma Rehole<K, V>(ctx: Context<K, V>, h: Node?<K, V>, h': Node?<K, V>)
    ensures ContextLayout(ctx, h') ==
      if ctx.Top? then map[]
      else ContextLayout(ctx, h)[ctx.node := SetChild(ContextLayout(ctx, h)[ctx.node], ctx.side, h')]
  {
  }

  /** The cells of a whole tree after a rotation below `parent`, whose child on side `ps` was `t`. */
  function RotatedCells<K, V>(m: map<Node<K, V>, Cell<K, V>>, s: Side, t: Node<K, V>, u: Node<K, V>, b: Node?<K, V>,
                              ps: Side, parent: Node?<K, V>): map<Node<K, V>, Cell<K, V>>
  {
    map n | n in m ::
      if n == parent then SetChild(m[n], ps, u)
      else if n == t then SetChild(m[n].(parent := u), Other(s), b)
      else if n == u then SetChild(m[n].(parent := parent), s, t)
      else if n == b then m[n].(parent := t)
      else m[n]
  }

  lemma RotatedUnion<K, V>(cm: map<Node<K, V>, Cell<K, V>>, tm: map<Node<K, V>, Cell<K, V>>, s: Side,
                           t: Node<K, V>, u: Node<K, V>, b: Node?<K, V>, ps: Side, parent: Node?<K, V>)
    requires cm.Keys !! tm.Keys && t in tm && u in tm && (b == null || b in tm) && (parent == null || parent in cm)
    ensures var cm' := if parent == null then cm else cm[parent := SetChild(cm[parent], ps, u)];
      cm' + Relinked(tm, s, t, u, b, parent) == RotatedCells(cm + tm, s, t, u, b, ps, parent)
  {
  }

  function ParentSide<K, V>(ctx: Context<K, V>): Side {
    if ctx.Top? then L else ctx.side
  }

  lemma RotateUnder<K, V>(s: Side, ctx: Context<K, V>, t: Tree<K, V>)
    requires CanRotate(s, t) && Apart(ctx, t)
    ensures Apart(ctx, Rotated(s, t))
    ensures var u := Near(t, Other(s));
      Layout(ctx.Plug(Rotated(s, t)), null) ==
        RotatedCells(Layout(ctx.Plug(t), null), s, t.node, u.node, Near(u, s).Root(), ParentSide(ctx), ctx.Parent())
  {
    var u, t' := Near(t, Other(s)), Rotated(s, t);
    RotateNodes(s, t);
    RotateParts(s, t);
    RotateLayout(s, t, ctx.Parent());
    PlugLayout(ctx, t);
    PlugLayout(ctx, t');
    Rehole(ctx, t.node, u.node);
    RotatedUnion(ContextLayout(ctx, t.node), Layout(t, ctx.Parent()), s, t.node, u.node, Near(u, s).Root(),
                 ParentSide(ctx), ctx.Parent());
  }

  /** The context of the child of `t` on side `s`. */
  function Down<K, V>(ctx: Context<K, V>, t: Tree<K, V>, s: Side): (c: Context<K, V>)
    requires t.Branch?
    ensures c.Plug(Near(t, s)) == ctx.Plug(t)
  {
    Hole(s, t.node, t.color, t.key, t.value, Near(t, Other(s)), ctx)
  }

  lemma CellAt<K, V>(ctx: Context<K, V>, t: Tree<K, V>)
    requires t.Branch? && ctx.Plug(t).Distinct()
    ensures t.node in ctx.Plug(t).Nodes()
    ensures Layout(ctx.Plug(t), null)[t.node] ==
            Cell(ctx.Parent(), t.left.Root(), t.right.Root(), t.color, t.key, t.value)
  {
    PlugDistinct(ctx, t);
    PlugLayout(ctx, t);
  }

  /** The fields of every node hold what `m` says. */
  ghost predicate Shows<K, V>(m: map<Node<K, V>, Cell<K, V>>)
    reads m.Keys
  {
    forall n <- m.Keys :: Cell(n.parent, n.left, n.right, n.color, n.key, n.value) == m[n]
  }

  /** `root` is the topmost node of `t`, and `t` is what its nodes' fields hold. */
  ghost predicate Represents<K, V>(root: Node?<K, V>, t: Tree<K, V>)
    reads t.Nodes()
  {
    root == t.Root() && t.Distinct() && Shows(Layout(t, null))
  }

  /** What a rotation reads in the tree `m`, and what it leaves in the tree `m'`. */
  ghost predicate RotationStep<K, V>(m: map<Node<K, V>, Cell<K, V>>, m': map<Node<K, V>, Cell<K, V>>, s: Side,
                                     t: Node<K, V>, u: Node<K, V>, b: Node?<K, V>, ps: Side)
  {
    && t in m && u in m && (b == null || b in m) && t != u && t != b && u != b
    && (if s == L then m[t].right == u && m[u].left == b else m[t].left == u && m[u].right == b)
    && var parent := m[t].parent;
    && (parent == null || (parent in m && parent != t && parent != u && parent != b &&
                           (ps == L <==> m[parent].left == t)))
    && m'.Keys == m.Keys
    && m'[t] == (if s == L then m[t].(parent := u, right := b) else m[t].(parent := u, left := b))
    && m'[u] == (if s == L then m[u].(parent := parent, left := t) else m[u].(parent := parent, right := t))
    && (b != null ==> m'[b] == m[b].(parent := t))
    && (parent != null ==> m'[parent] == if ps == L then m[parent].(left := u) else m[parent].(right := u))
    && (forall n <- m :: n == t || n == u || n == b || n == parent || m'[n] == m[n])
  }

  lemma RotationFacts<K, V>(s: Side, ctx: Context<K, V>, t: Tree<K, V>)
    returns (m: map<Node<K, V>, Cell<K, V>>, m': map<Node<K, V>, Cell<K, V>>)
    requires ctx.Plug(t).Distinct() && CanRotate(s, t)
    ensures m == Layout(ctx.Plug(t), null) && m' == Layout(ctx.Plug(Rotated(s, t)), null)
    ensures ctx.Plug(Rotated(s, t)).Distinct()
    ensures ctx.Plug(Rotated(s, t)).Root() == if ctx.Top? then Near(t, Other(s)).node else ctx.Plug(t).Root()
    ensures t.node in m && m[t.node].parent == ctx.Parent()
    ensures var u := Near(t, Other(s)); RotationStep(m, m', s, t.node, u.node, Near(u, s).Root(), ParentSide(ctx))
  {
    var u := Near(t, Other(s));
    m, m' := Layout(ctx.Plug(t), null), Layout(ctx.Plug(Rotated(s, t)), null);
    PlugDistinct(ctx, t);
    CellAt(ctx, t);
    CellAt(Down(ctx, t, Other(s)), u);
    RotateParts(s, t);
    RotateUnder(s, ctx, t);
    PlugDistinct(ctx, Rotated(s, t));
    if ctx.Hole? {
      PlugRoot(ctx, t, Rotated(s, t));
      CellAt(ctx.up, ctx.Fill(t));
    }
  }

  lemma RewriteHere<K, V>(t: Tree<K, V>, parent: Node?<K, V>, c: Color, k: K, v: V)
    requires t.Branch? && t.Distinct()
    ensures var t' := t.(color := c, key := k, value := v); var m := Layout(t, parent);
      && t'.Distinct() && t'.Nodes() == t.Nodes()
      && Layout(t', parent) == m[t.node := m[t.node].(color := c, key := k, value := v)]
  {
  }

  lemma UpdateRight<X, Y>(a: map<X, Y>, b: map<X, Y>, x: X, y: Y)
    ensures a + b[x := y] == (a + b)[x := y]
  {
  }

  /** Rewriting one node's own fields. */
  lemma Rewrite<K, V>(ctx: Context<K, V>, t: Tree<K, V>, c: Color, k: K, v: V)
    returns (m: map<Node<K, V>, Cell<K, V>>, m': map<Node<K, V>, Cell<K, V>>)
    requires t.Branch? && ctx.Plug(t).Distinct()
    ensures var t' := t.(color := c, key := k, value := v);
      && m == Layout(ctx.Plug(t), null) && m' == Layout(ctx.Plug(t'), null)
      && ctx.Plug(t').Distinct() && ctx.Plug(t').Root() == ctx.Plug(t).Root()
      && t.node in m && m' == m[t.node := m[t.node].(color := c, key := k, value := v)]
      && m[t.node] == Cell(ctx.Parent(), t.left.Root(), t.right.Root(), t.color, t.key, t.value)
  {
    var t' := t.(color := c, key := k, value := v);
    m, m' := Layout(ctx.Plug(t), null), Layout(ctx.Plug(t'), null);
    PlugDistinct(ctx, t);
    RewriteHere(t, ctx.Parent(), c, k, v);
    PlugDistinct(ctx, t');
    PlugLayout(ctx, t);
    PlugLayout(ctx, t');
    PlugRoot(ctx, t, t');
    var tm := Layout(t, ctx.Parent());
    UpdateRight(ContextLayout(ctx, t.node), tm, t.node, tm[t.node].(color := c, key := k, value := v));
  }

  /** The fields of a node, read from the tree they form. */
  lemma ReadAt<K, V>(root: Node?<K, V>, ctx: Context<K, V>, t: Tree<K, V>)
    requires Represents(root, ctx.Plug(t)) && t.Branch?
    ensures t.node in ctx.Plug(t).Nodes()
    ensures t.node.parent == ctx.Parent() && t.node.left == t.left.Root() && t.node.right == t.right.Root()
    ensures t.node.color == t.color && t.node.key == t.key && t.node.value == t.value
  {
    CellAt(ctx, t);
    var n := t.node;
    assert Cell(n.parent, n.left, n.right, n.color, n.key, n.value) == Layout(ctx.Plug(t), null)[n];
  }

  /** The fields of the parent of a hole; which side the hole is on can be read off them. */
  lemma ReadParent<K, V>(root: Node?<K, V>, ctx: Context<K, V>, t: Tree<K, V>)
    requires Represents(root, ctx.Plug(t)) && ctx.Hole?
    ensures ctx.node in ctx.Plug(t).Nodes()
    ensures ctx.node.parent == ctx.up.Parent() && ctx.node.color == ctx.color
    ensures ctx.node.left == (if ctx.side == L then t.Root() else ctx.sibling.Root())
    ensures ctx.node.right == (if ctx.side == R then t.Root() else ctx.sibling.Root())
    ensures t.Branch? || ctx.sibling.Branch? ==> t.Root() != ctx.sibling.Root()
  {
    ReadAt(root, ctx.up, ctx.Fill(t));
    PlugDistinct(ctx, t);
    assert t.Branch? ==> t.node in t.Nodes();
    assert ctx.sibling.Branch? ==> ctx.sibling.node in ctx.sibling.Nodes();
  }

  /** The colours of a node's children, read from the tree they form. */
  lemma ReadChildren<K, V>(root: Node?<K, V>, ctx: Context<K, V>, t: Tree<K, V>)
    requires Represents(root, ctx.Plug(t)) && t.Branch?
    ensures t.node in ctx.Plug(t).Nodes() && t.node.left == t.left.Root() && t.node.right == t.right.Root()
    ensures IsBlack(t.node.left) <==> t.left.RootColor() == Black
    ensures IsBlack(t.node.right) <==> t.right.RootColor() == Black
  {
    ReadAt(root, ctx, t);
    if t.left.Branch? { ReadAt(root, Down(ctx, t, L), t.left); }
    if t.right.Branch? { ReadAt(root, Down(ctx, t, R), t.right); }
  }

  /** What fixRemove reads around a hole. */
  lemma ReadSibling<K, V>(root: Node?<K, V>, ctx: Context<K, V>, t: Tree<K, V>)
    requires Represents(root, ctx.Plug(t)) && ctx.Hole? && ctx.sibling.Branch?
    ensures var p, s := ctx.node, ctx.sibling.node;
      && p in ctx.Plug(t).Nodes() && s in ctx.Plug(t).Nodes()
      && p.color == ctx.color && p.parent == ctx.up.Parent()
      && (t.Root() == p.left <==> ctx.side == L) && (t.Root() == p.right <==> ctx.side == R)
      && GetTheOtherChild(p, t.Root()) == s
      && s.color == ctx.sibling.color && s.left == ctx.sibling.left.Root() && s.right == ctx.sibling.right.Root()
      && (IsBlack(s.left) <==> ctx.sibling.left.RootColor() == Black)
      && (IsBlack(s.right) <==> ctx.sibling.right.RootColor() == Black)
  {
    ReadParent(root, ctx, t);
    var c := Down(ctx.up, ctx.Fill(t), Other(ctx.side));
    ReadAt(root, c, ctx.sibling);
    ReadChildren(root, c, ctx.sibling);
  }

  /** Two subtrees with the same in-order entries and nodes fill a context alike. */
  lemma SwapEntries<K, V>(ctx: Context<K, V>, t: Tree<K, V>, t': Tree<K, V>)
    requires t'.Entries() == t.Entries() && t'.Nodes() == t.Nodes()
    ensures ctx.Plug(t').Entries() == ctx.Plug(t).Entries() && ctx.Plug(t').Nodes() == ctx.Plug(t).Nodes()
  {
    PlugEntries(ctx, t);
    PlugEntries(ctx, t');
    PlugDistinct(ctx, t);
    PlugDistinct(ctx, t');
  }

  /** The subtrees of a laid-out tree are laid out. */
  lemma ShowsChildren<K, V>(t: Tree<K, V>, parent: Node?<K, V>)
    requires t.Branch? && t.Distinct() && Shows(Layout(t, parent))
    ensures Shows(Layout(t.left, t.node)) && Shows(Layout(t.right, t.node))
    ensures t.node.left == t.left.Root() && t.node.right == t.right.Root()
    ensures t.node.color == t.color && t.node.key == t.key && t.node.value == t.value
  {
    var m, n := Layout(t, parent), t.node;
    assert Cell(n.parent, n.left, n.right, n.color, n.key, n.value) == m[n];
    assert forall x <- t.left.Nodes() :: m[x] == Layout(t.left, n)[x];
    assert forall x <- t.right.Nodes() :: m[x] == Layout(t.right, n)[x];
  }

  /** A node over two laid-out trees. */
  lemma ShowsJoin<K, V>(t: Tree<K, V>, parent: Node?<K, V>)
    requires t.Branch? && t.Distinct() && Shows(Layout(t.left, t.node)) && Shows(Layout(t.right, t.node))
    requires t.node.parent == parent && t.node.left == t.left.Root() && t.node.right == t.right.Root()
    requires t.node.color == t.color && t.node.key == t.key && t.node.value == t.value
    ensures Shows(Layout(t, parent))
  {
    var m, n := Layout(t, parent), t.node;
    forall x | x in m ensures Cell(x.parent, x.left, x.right, x.color, x.key, x.value) == m[x] {
      if x in t.left.Nodes() {
        assert m[x] == Layout(t.left, n)[x];
      } else if x in t.right.Nodes() {
        assert m[x] == Layout(t.right, n)[x];
      }
    }
  }

  /** Freeing what is below each child, then the children, frees what is below the node. */
  lemma FreedBelow<K, V>(a: set<Node<K, V>>, t: Tree<K, V>)
    requires t.Branch? && t.Distinct()
    ensures var l, r := t.left.Root(), t.right.Root();
      a - (t.left.Nodes() - {l}) - (t.right.Nodes() - {r}) - {l} - {r} == a - (t.Nodes() - {t.node})
  {
    assert t.left.Branch? ==> t.left.node in t.left.Nodes();
    assert t.right.Branch? ==> t.right.node in t.right.Nodes();
  }

  /** The converse of PlugIsRedBlack. */
  lemma {:induction false} Unplug<K, V>(ctx: Context<K, V>, t: Tree<K, V>) returns (h: nat)
    requires IsRedBlack(ctx.Plug(t))
    ensures RB(t, h) && Fits(ctx, h, t.RootColor())
    decreases ctx
  {
    if ctx.Top? {
      h :| RB(t, h);
    } else {
      var h' := Unplug(ctx.up, ctx.Fill(t));
      h := if ctx.color == Red then h' else h' - 1;
    }
  }

  lemma FitsBlack<K, V>(ctx: Context<K, V>, h: nat, c: Color)
    requires Fits(ctx, h, c)
    ensures Fits(ctx, h, Black)
  {
  }

  lemma MinusAbsent<X, Y>(a: map<X, Y>, x: X)
    requires x !in a
    ensures a - {x} == a
  {
  }

  lemma PlusOne<X, Y>(a: map<X, Y>, x: X, y: Y)
    ensures a + map[x := y] == a[x := y]
  {
  }

  lemma WithoutOne<X>(a: set<X>, b: set<X>, c: set<X>, x: X)
    requires x !in a && x !in b && c == b + {x}
    ensures a + b == (a + c) - {x}
  {
  }

  lemma SingleLayout<K, V>(t: Tree<K, V>, parent: Node?<K, V>)
    requires t.Branch? && t.left == t.right == Leaf
    ensures Layout(t, parent) == map[t.node := Cell(parent, null, null, t.color, t.key, t.value)]
    ensures t.Nodes() == {t.node} && t.Distinct()
  {
  }

  /** The cells once a new red node fills the empty hole of `ctx`. */
  lemma Attach<K, V>(ctx: Context<K, V>, n: Node<K, V>, k: K, v: V)
    returns (m: map<Node<K, V>, Cell<K, V>>, m': map<Node<K, V>, Cell<K, V>>)
    requires ctx.Plug(Leaf).Distinct() && n !in ctx.Plug(Leaf).Nodes()
    ensures var t := Branch(n, Red, k, v, Leaf, Leaf);
      && m == Layout(ctx.Plug(Leaf), null) && m' == Layout(ctx.Plug(t), null)
      && ctx.Plug(t).Distinct() && ctx.Plug(t).Root() == (if ctx.Top? then n else ctx.Plug(Leaf).Root())
      && ctx.Plug(t).Nodes() == ctx.Plug(Leaf).Nodes() + {n}
      && (ctx.Hole? ==> ctx.node in m)
      && (ctx.Top? ==> m == map[])
      && m' == (if ctx.Top? then m else m[ctx.node := SetChild(m[ctx.node], ctx.side, n)])
               [n := Cell(ctx.Parent(), null, null, Red, k, v)]
  {
    var t := Branch(n, Red, k, v, Leaf, Leaf);
    SingleLayout(t, ctx.Parent());
    m, m' := Layout(ctx.Plug(Leaf), null), Layout(ctx.Plug(t), null);
    PlugDistinct(ctx, Leaf);
    PlugDistinct(ctx, t);
    PlugLayout(ctx, Leaf);
    PlugLayout(ctx, t);
    Rehole(ctx, null, n);
    if ctx.Hole? { PlugRoot(ctx, Leaf, t); }
    PlusEmpty(ContextLayout(ctx, null));
    PlusOne(ContextLayout(ctx, n), n, Cell(ctx.Parent(), null, null, Red, k, v));
  }

  /** `t` has at most one child, `c`. */
  ghost predicate OnlyChild<K, V>(t: Tree<K, V>, c: Tree<K, V>) {
    t.Branch? && ((t.left == Leaf && t.right == c) || (t.right == Leaf && t.left == c))
  }

  lemma ReadOnlyChild<K, V>(root: Node?<K, V>, ctx: Context<K, V>, t: Tree<K, V>, c: Tree<K, V>)
    requires Represents(root, ctx.Plug(t)) && OnlyChild(t, c)
    ensures t.Branch? && t.node.color == t.color && (t.node.left == null || t.node.right == null)
    ensures GetOneChild(t.node) == c.Root() == if c.Leaf? then null else c.node
  {
    hide Represents;
    ReadAt(root, ctx, t);
  }

  lemma OnlyChildApart<K, V>(ctx: Context<K, V>, t: Tree<K, V>, c: Tree<K, V>)
    requires Apart(ctx, t) && OnlyChild(t, c)
    ensures t.Branch? && t.node !in c.Nodes() && t.node !in ctx.Nodes()
    ensures t.Nodes() == c.Nodes() + {t.node} && Apart(ctx, c)
  {
  }

  lemma OnlyChildLayout<K, V>(t: Tree<K, V>, c: Tree<K, V>, p: Node?<K, V>)
    requires t.Distinct() && OnlyChild(t, c)
    ensures c.Distinct() && t.Nodes() == c.Nodes() + {t.node} && t.node !in c.Nodes()
    ensures c.Branch? ==> c.node in c.Nodes()
    ensures forall n <- c.Nodes() :: Layout(t, p)[n] == Layout(c, t.node)[n]
  {
  }

  lemma DetachNodes<K, V>(ctx: Context<K, V>, t: Tree<K, V>, c: Tree<K, V>)
    requires ctx.Plug(t).Distinct() && OnlyChild(t, c)
    ensures Apart(ctx, t) && Apart(ctx, c)
    ensures ctx.Plug(c).Distinct() && ctx.Plug(c).Root() == if ctx.Top? then c.Root() else ctx.Plug(t).Root()
    ensures t.node in ctx.Plug(t).Nodes() && ctx.Plug(c).Nodes() == ctx.Plug(t).Nodes() - {t.node}
  {
    hide *;
    PlugDistinct(ctx, t);
    OnlyChildApart(ctx, t, c);
    PlugDistinct(ctx, c);
    WithoutOne(ctx.Nodes(), c.Nodes(), t.Nodes(), t.node);
    if ctx.Hole? {
      PlugRoot(ctx, t, c);
    } else {
      PlugRoot(ctx, c, c);
    }
  }

  lemma DetachUnion<K, V>(cm: map<Node<K, V>, Cell<K, V>>, tm: map<Node<K, V>, Cell<K, V>>,
                          xm: map<Node<K, V>, Cell<K, V>>, x: Node<K, V>, r: Node?<K, V>, ps: Side, parent: Node?<K, V>)
    requires tm.Keys == xm.Keys + {x} && x !in xm && cm.Keys !! tm.Keys && (forall n <- xm :: tm[n] == xm[n])
    requires (r == null || r in xm) && (parent == null || parent in cm)
    ensures var cm' := if parent == null then cm else cm[parent := SetChild(cm[parent], ps, r)];
      var m, m' := cm + tm, cm' + Reparented(xm, r, parent);
      && m'.Keys == m.Keys - {x}
      && forall n :: n in m' ==>
        m'[n] == (if n == parent then SetChild(m[n], ps, r) else if n == r then m[n].(parent := parent) else m[n])
  {
  }

  /** The cells once the only child of a node has taken its place. */
  lemma Detach<K, V>(ctx: Context<K, V>, t: Tree<K, V>, c: Tree<K, V>)
    returns (m: map<Node<K, V>, Cell<K, V>>, m': map<Node<K, V>, Cell<K, V>>)
    requires ctx.Plug(t).Distinct() && OnlyChild(t, c)
    ensures m == Layout(ctx.Plug(t), null) && m' == Layout(ctx.Plug(c), null)
    ensures t.node in m && (ctx.Hole? ==> ctx.node in m && ctx.node != t.node)
    ensures c.Branch? ==> c.node in m && c.node != ctx.Parent() && c.node != t.node
    ensures m'.Keys == m.Keys - {t.node}
    ensures forall n :: n in m' ==>
      m'[n] == (if n == ctx.Parent() then SetChild(m[n], ParentSide(ctx), c.Root())
                else if n == c.Root() then m[n].(parent := ctx.Parent())
                else m[n])
  {
    m, m' := Layout(ctx.Plug(t), null), Layout(ctx.Plug(c), null);
    DetachNodes(ctx, t, c);
    PlugLayout(ctx, t);
    PlugLayout(ctx, c);
    Rehole(ctx, t.node, c.Root());
    Reparent(c, t.node, ctx.Parent());
    OnlyChildLayout(t, c, ctx.Parent());
    DetachUnion(ContextLayout(ctx, t.node), Layout(t, ctx.Parent()), Layout(c, t.node), t.node, c.Root(),
                ParentSide(ctx), ctx.Parent());
  }
}
