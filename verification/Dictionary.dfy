/** NodeDictionary: a mutable red-black tree with parent pointers. */
module Dictionary {
  import opened RedBlackTree
  import opened RedBlackFix
  import opened SearchOrder

  /** The operations of a dictionary, and what they are on a finite map. */
  datatype Operation<K, V> =
    | Put(key: K, value: V) | Get(key: K) | CondExchange(key: K, defaultValue: V, value: V) | Delete(key: K) | Clear

  datatype Answer<V> = Done | Missing | Found(value: V)

  function After<K, V>(m: map<K, V>, op: Operation<K, V>): map<K, V> {
    match op
    case Put(k, v) => m[k := v]
    case Get(_) => m
    case CondExchange(k, _, v) => m[k := v]
    case Delete(k) => m - {k}
    case Clear => map[]
  }

  function AnswerTo<K, V>(m: map<K, V>, op: Operation<K, V>): Answer<V> {
    match op
    case Get(k) => if k in m then Found(m[k]) else Missing
    case CondExchange(k, d, _) => Found(if k in m then m[k] else d)
    case _ => Done
  }

  /** What an operation changes and answers, key by key. */
  lemma OperationIs<K(!new), V(!new)>(m: map<K, V>, op: Operation<K, V>)
    ensures op.Clear? ==> forall k :: k !in After(m, op)
    ensures !op.Clear? ==> forall k | k != op.key :: k in After(m, op) <==> k in m
    ensures !op.Clear? ==> forall k | k != op.key && k in m :: After(m, op)[k] == m[k]
    ensures op.Put? || op.CondExchange? ==> op.key in After(m, op) && After(m, op)[op.key] == op.value
    ensures op.Delete? ==> op.key !in After(m, op)
    ensures op.Get? ==> After(m, op) == m && if op.key in m then AnswerTo(m, op) == Found(m[op.key])
                                             else AnswerTo(m, op) == Missing
    ensures op.CondExchange? ==> AnswerTo(m, op) == Found(if op.key in m then m[op.key] else op.defaultValue)
  {
  }

  /** The operations take effect one after the other, in their order. */
  lemma {:induction false} InTurn<K, V>(m: map<K, V>, ops: seq<Operation<K, V>>, i: nat)
    requires i < |ops|
    ensures |Answers(m, ops)| == |ops| && Answers(m, ops)[i] == AnswerTo(AfterAll(m, ops[..i]), ops[i])
    ensures AfterAll(m, ops[..i + 1]) == After(AfterAll(m, ops[..i]), ops[i])
    decreases |ops|
  {
    if i == 0 {
      assert ops[..1] == [ops[0]];
      if |ops| > 1 {
        InTurn(After(m, ops[0]), ops[1..], 0);
      }
    } else {
      InTurn(After(m, ops[0]), ops[1..], i - 1);
      assert ops[..i][1..] == ops[1..][..i - 1] && ops[..i + 1][1..] == ops[1..][..i];
    }
  }

  function AfterAll<K, V>(m: map<K, V>, ops: seq<Operation<K, V>>): map<K, V>
    decreases |ops|
  {
    if ops == [] then m else AfterAll(After(m, ops[0]), ops[1..])
  }

  function Answers<K, V>(m: map<K, V>, ops: seq<Operation<K, V>>): seq<Answer<V>>
    decreases |ops|
  {
    if ops == [] then [] else [AnswerTo(m, ops[0])] + Answers(After(m, ops[0]), ops[1..])
  }

  class NodeDictionary<K(==, !new), V> {
    /** compareFeatures. */
    const compare: (K, K) -> int
    /** What a node's value holds before anything is stored in it. */
    const blank: V

    var root: Node?<K, V>

    ghost var tree: Tree<K, V>
    /** The nodes obtained from the memory manager and not given back. */
    ghost var owned: set<Node<K, V>>

    ghost predicate Valid()
      reads this, tree.Nodes()
    {
      && IsTotalOrder(compare)
      && Represents(root, tree) && IsRedBlack(tree)
      && Ascending(compare, tree.Entries())
      && owned == tree.Nodes()
    }

    /** The dictionary as a finite map; a binding's node is where its value is kept. */
    ghost function Bindings(): map<K, Entry<K, V>>
      reads this
    {
      Index(tree.Entries())
    }

    ghost function Contents(): map<K, V>
      reads this
    {
      Values(tree.Entries())
    }

    constructor (compare: (K, K) -> int, blank: V)
      requires IsTotalOrder(compare)
      ensures Valid() && Bindings() == map[] && Contents() == map[] && tree == Leaf
      ensures this.compare == compare && this.blank == blank
    {
      this.compare, this.blank := compare, blank;
      root := null;
      tree, owned := Leaf, {};
      assert RB<K, V>(Leaf, 0);
    }

    /** The nodes now form `r`. */
    ghost method Adopt(r: Tree<K, V>)
      requires IsTotalOrder(compare) && Represents(root, r) && IsRedBlack(r)
      requires Ascending(compare, r.Entries()) && owned == r.Nodes()
      modifies `tree
      ensures Valid() && tree == r
    {
      tree := r;
    }

    method NewNode(parent: Node?<K, V>, color: Color, key: K) returns (n: Node<K, V>)
      modifies `owned
      ensures fresh(n) && owned == old(owned) + {n}
      ensures n.parent == parent && n.left == null && n.right == null
      ensures n.color == color && n.key == key && n.value == blank
    {
      n := new Node(parent, color, key, blank);
      owned := owned + {n};
    }

    /** Giving a node back: nothing is known of its fields afterwards. */
    method FreeNode(n: Node<K, V>)
      requires n in owned
      modifies `owned, n
      ensures owned == old(owned) - {n}
    {
      owned := owned - {n};
      n.parent, n.left, n.right := null, null, null;
    }

    /** lookupNode; `steps` counts the nodes compared. */
    method LookupNode(key: K)
      returns (found: bool, node: Node?<K, V>, parent: Node?<K, V>,
               ghost ctx: Context<K, V>, ghost t: Tree<K, V>, ghost steps: nat)
      requires Valid()
      ensures ctx.Plug(t) == tree && IsPlaceOf(compare, ctx, key)
      ensures node == t.Root() && parent == ctx.Parent() && found == t.Branch?
      ensures found ==> t.key == key
      ensures steps == ctx.Depth() + (if found then 1 else 0) && steps <= tree.Height()
    {
      node, parent := root, null;
      ctx, t, steps := Top, tree, 0;
      while node != null
        invariant ctx.Plug(t) == tree && IsPlaceOf(compare, ctx, key)
        invariant node == t.Root() && parent == ctx.Parent()
        invariant steps == ctx.Depth() && steps + t.Height() <= tree.Height()
        decreases t
      {
        ReadAt(root, ctx, t);
        var comparison := compare(key, node.key);
        steps := steps + 1;
        if comparison == 0 {
          found := true;
          return;
        } else if comparison < 0 {
          assert Less(compare, key, t.key);
          Descend(compare, ctx, t, L, key);
          parent, node := node, node.left;
          ctx, t := Down(ctx, t, L), t.left;
        } else {
          assert Less(compare, t.key, key);
          Descend(compare, ctx, t, R, key);
          parent, node := node, node.right;
          ctx, t := Down(ctx, t, R), t.right;
        }
      }
      found := false;
    }

    /** lookup: the node that keeps the value of `key`. */
    method Lookup(key: K) returns (slot: Node?<K, V>)
      requires Valid()
      ensures (slot != null) == (key in Bindings())
      ensures slot != null ==> slot in tree.Nodes() && Bindings()[key] == Entry(slot, key, slot.value)
    {
      var found, node, parent;
      ghost var ctx, t, steps;
      found, node, parent, ctx, t, steps := LookupNode(key);
      slot := null;
      if found {
        slot := node;
        ReadAt(root, ctx, t);
        NodeBinding(compare, ctx, t);
      } else {
        PlaceIsUnbound(compare, ctx, key);
      }
    }

    /** The pointer updates of rotateLeft. */
    method SwingLeft(parent: Node<K, V>, child: Node<K, V>, ghost ps: Side,
                     ghost m: map<Node<K, V>, Cell<K, V>>, ghost m': map<Node<K, V>, Cell<K, V>>)
      requires Shows(m) && parent in m && child in m && RotationStep(m, m', L, parent, child, m[child].left, ps)
      modifies `root, m.Keys
      ensures Shows(m') && root == if m[parent].parent == null then child else old(root)
    {
      var grandParent := parent.parent;

      parent.right := child.left;
      if child.left != null {
        child.left.parent := parent;
      }

      child.left := parent;
      child.parent := grandParent;
      parent.parent := child;

      if grandParent == null {
        root := child;
      } else if grandParent.left == parent {
        grandParent.left := child;
      } else {
        grandParent.right := child;
      }

      forall n | n in m' ensures Cell(n.parent, n.left, n.right, n.color, n.key, n.value) == m'[n] {
        assert m[n] == old(Cell(n.parent, n.left, n.right, n.color, n.key, n.value));
        if n == parent {} else if n == child {} else if n == m[child].left {} else if n == grandParent {} else {}
      }
    }

    method SwingRight(parent: Node<K, V>, child: Node<K, V>, ghost ps: Side,
                      ghost m: map<Node<K, V>, Cell<K, V>>, ghost m': map<Node<K, V>, Cell<K, V>>)
      requires Shows(m) && parent in m && child in m && RotationStep(m, m', R, parent, child, m[child].right, ps)
      modifies `root, m.Keys
      ensures Shows(m') && root == if m[parent].parent == null then child else old(root)
    {
      var grandParent := parent.parent;

      parent.left := child.right;
      if child.right != null {
        child.right.parent := parent;
      }

      child.right := parent;
      child.parent := grandParent;
      parent.parent := child;

      if grandParent == null {
        root := child;
      } else if grandParent.left == parent {
        grandParent.left := child;
      } else {
        grandParent.right := child;
      }

      forall n | n in m' ensures Cell(n.parent, n.left, n.right, n.color, n.key, n.value) == m'[n] {
        assert m[n] == old(Cell(n.parent, n.left, n.right, n.color, n.key, n.value));
        if n == parent {} else if n == child {} else if n == m[child].right {} else if n == grandParent {} else {}
      }
    }

    /** rotateLeft. */
    method RotateLeft(parent: Node<K, V>, child: Node<K, V>, ghost ctx: Context<K, V>, ghost t: Tree<K, V>)
      requires Represents(root, ctx.Plug(t))
      requires CanRotate(L, t) && parent == t.node && child == t.right.node
      modifies `root, ctx.Plug(t).Nodes()
      ensures Represents(root, ctx.Plug(Rotated(L, t)))
      ensures ctx.Plug(Rotated(L, t)).Nodes() == ctx.Plug(t).Nodes()
    {
      ghost var m, m' := RotationFacts(L, ctx, t);
      SwingLeft(parent, child, ParentSide(ctx), m, m');
    }

    /** rotateRight. */
    method RotateRight(parent: Node<K, V>, child: Node<K, V>, ghost ctx: Context<K, V>, ghost t: Tree<K, V>)
      requires Represents(root, ctx.Plug(t))
      requires CanRotate(R, t) && parent == t.node && child == t.left.node
      modifies `root, ctx.Plug(t).Nodes()
      ensures Represents(root, ctx.Plug(Rotated(R, t)))
      ensures ctx.Plug(Rotated(R, t)).Nodes() == ctx.Plug(t).Nodes()
    {
      ghost var m, m' := RotationFacts(R, ctx, t);
      SwingRight(parent, child, ParentSide(ctx), m, m');
    }

    static method SetColor(n: Node<K, V>, c: Color, ghost m: map<Node<K, V>, Cell<K, V>>)
      requires Shows(m) && n in m
      modifies n`color
      ensures Shows(m[n := m[n].(color := c)])
    {
      n.color := c;
    }

    /** Assigning a colour. */
    method Paint(n: Node<K, V>, c: Color, ghost ctx: Context<K, V>, ghost t: Tree<K, V>)
      requires Represents(root, ctx.Plug(t)) && t.Branch? && n == t.node
      modifies ctx.Plug(t).Nodes()
      ensures Represents(root, ctx.Plug(t.(color := c)))
      ensures ctx.Plug(t.(color := c)).Nodes() == ctx.Plug(t).Nodes()
    {
      assert t.(color := c, key := t.key, value := t.value) == t.(color := c);
      ghost var m, m' := Rewrite(ctx, t, c, t.key, t.value);
      SetColor(n, c, m);
    }

    method FixInsertPushUp(parent: Node<K, V>, uncle: Node<K, V>, grandParent: Node<K, V>,
                           ghost ctx: Context<K, V>, ghost t: Tree<K, V>, ghost h: nat)
      requires Represents(root, ctx.Plug(t)) && RedUnderRed(ctx, t, h) && ctx.up.sibling.RootColor() == Red
      requires parent == ctx.node && grandParent == ctx.up.node && uncle == ctx.up.sibling.node
      modifies ctx.Plug(t).Nodes()
      ensures Represents(root, ctx.up.up.Plug(PushedUp(ctx, t)))
    {
      ghost var g, p := ctx.up, ctx.Fill(t);
      Paint(parent, Black, g, p);
      ghost var p' := p.(color := Black);
      ghost var c := Down(g.up, g.Fill(p'), Other(g.side));
      Paint(uncle, Black, c, g.sibling);
      ghost var g' := c.Fill(g.sibling.(color := Black));
      Paint(grandParent, Red, g.up, g');
    }

    /** fixInsert: `node` is red, and its parent may be red too. */
    method FixInsert(node: Node<K, V>, ghost ctx: Context<K, V>, ghost t: Tree<K, V>, ghost h: nat)
      returns (ghost r: Tree<K, V>)
      requires Represents(root, ctx.Plug(t)) && RedAt(ctx, t, h) && node == t.node
      modifies `root, ctx.Plug(t).Nodes()
      ensures Represents(root, r) && IsRedBlack(r)
      ensures r.Entries() == ctx.Plug(t).Entries() && r.Nodes() == ctx.Plug(t).Nodes()
      decreases ctx
    {
      ReadAt(root, ctx, t);
      var parent := node.parent;

      if parent == null {
        // Case 1
        Paint(node, Black, ctx, t);
        r := t.(color := Black);
        BlackenRoot(t, h);
        return;
      }
      ReadParent(root, ctx, t);
      if parent.color == Black {
        // Case 2: nothing to do
        r := ctx.Plug(t);
        PlugIsRedBlack(ctx, t, h);
        return;
      }
      RedParentIsNotRoot(ctx, t, h);
      hide *;
      ReadUncle(root, ctx, t, h);
      var grandParent := parent.parent;
      var uncle := GetTheOtherChild(grandParent, parent);
      if IsRed(uncle) {
        // Case 3
        PushUp(ctx, t, h);
        FixInsertPushUp(parent, uncle, grandParent, ctx, t, h);
        r := FixInsert(grandParent, ctx.up.up, PushedUp(ctx, t), h + 1);
      } else {
        r := FixInsertRotate(node, parent, grandParent, ctx, t, h);
      }
    }

    method FixInsertRotate(node: Node<K, V>, parent: Node<K, V>, grandParent: Node<K, V>,
                           ghost ctx: Context<K, V>, ghost t: Tree<K, V>, ghost h: nat)
      returns (ghost r: Tree<K, V>)
      requires Represents(root, ctx.Plug(t)) && RedUnderRed(ctx, t, h) && ctx.up.sibling.RootColor() == Black
      requires node == t.node && parent == ctx.node && grandParent == ctx.up.node
      modifies `root, ctx.Plug(t).Nodes()
      ensures Represents(root, r) && IsRedBlack(r)
      ensures r.Entries() == ctx.Plug(t).Entries() && r.Nodes() == ctx.Plug(t).Nodes()
    {
      ghost var g, p := ctx.up, ctx.Fill(t);
      ReadParent(root, ctx, t);
      ReadParent(root, g, p);
      TurnOut(ctx, t, h);
      var outer := parent;
      // Case 4
      if node == parent.right && parent == grandParent.left {
        RotateLeft(parent, node, g, p);
        p := Rotated(L, p);
        outer := node;
      } else if node == parent.left && parent == grandParent.right {
        RotateRight(parent, node, g, p);
        p := Rotated(R, p);
        outer := node;
      }
      r := FixInsertFinish(outer, grandParent, g, p, h);
    }

    method FixInsertFinish(parent: Node<K, V>, grandParent: Node<K, V>,
                           ghost g: Context<K, V>, ghost p: Tree<K, V>, ghost h: nat)
      returns (ghost r: Tree<K, V>)
      requires Represents(root, g.Plug(p)) && Outer(g, p, h) && parent == p.node && grandParent == g.node
      modifies `root, g.Plug(p).Nodes()
      ensures Represents(root, r) && IsRedBlack(r)
      ensures r.Entries() == g.Plug(p).Entries() && r.Nodes() == g.Plug(p).Nodes()
    {
      TurnUp(g, p, h);
      // Case 5
      Paint(parent, Black, g, p);
      Paint(grandParent, Red, g.up, g.Fill(p.(color := Black)));
      ghost var q := Recoloured(g, p);
      assert g.(color := Red).Fill(p.(color := Black)) == q;
      ReadParent(root, g.(color := Red), p.(color := Black));
      r := g.up.Plug(Rotated(Other(g.side), q));
      if parent == grandParent.left {
        RotateRight(grandParent, parent, g.up, q);
      } else {
        RotateLeft(grandParent, parent, g.up, q);
      }
    }

    /** fixRemove: the subtree at `node` is one black node short. */
    method FixRemove(node: Node?<K, V>, parent: Node?<K, V>, ghost ctx: Context<K, V>, ghost t: Tree<K, V>,
                     ghost h: nat)
      returns (ghost r: Tree<K, V>)
      requires Represents(root, ctx.Plug(t)) && Short(ctx, t, h) && node == t.Root() && parent == ctx.Parent()
      modifies `root, ctx.Plug(t).Nodes()
      ensures Represents(root, r) && IsRedBlack(r)
      ensures r.Entries() == ctx.Plug(t).Entries() && r.Nodes() == ctx.Plug(t).Nodes()
      decreases ctx
    {
      if parent == null {
        // Case 1: nothing to do
        r := t;
        return;
      }
      ghost var c := ctx;
      ShortHasSibling(c, t, h);
      ReadSibling(root, c, t);
      var sibling := GetTheOtherChild(parent, node);
      assert sibling != null;

      if sibling.color == Red {
        // Case 2
        FixRemoveRedSibling(node, parent, sibling, c, t, h);
        c := Lowered(c);
        ShortHasSibling(c, t, h);
        ReadSibling(root, c, t);
        sibling := GetTheOtherChild(parent, node);
      }

      assert sibling.color == Black;
      if IsBlack(sibling.left) && IsBlack(sibling.right) {
        ReddenSibling(c, t, h);
        ghost var s := Down(c.up, c.Fill(t), Other(c.side));
        Paint(sibling, Red, s, c.sibling);
        ghost var q := SiblingReddened(c, t, c.color);
        assert s.Fill(c.sibling.(color := Red)) == q;
        ReadAt(root, c.up, q);
        if parent.color == Black {
          // Case 3
          assert q == SiblingReddened(c, t, Black);
          r := FixRemove(parent, parent.parent, c.up, q, h + 1);
        } else {
          // Case 4
          Paint(parent, Black, c.up, q);
          r := c.up.Plug(SiblingReddened(c, t, Black));
        }
      } else {
        r := FixRemoveLend(node, parent, sibling, c, t, h);
      }
    }

    method FixRemoveRedSibling(node: Node?<K, V>, parent: Node<K, V>, sibling: Node<K, V>,
                               ghost ctx: Context<K, V>, ghost t: Tree<K, V>, ghost h: nat)
      requires Represents(root, ctx.Plug(t)) && Short(ctx, t, h) && node == t.Root()
      requires ctx.Hole? && parent == ctx.node && ctx.sibling.RootColor() == Red && sibling == ctx.sibling.node
      modifies `root, ctx.Plug(t).Nodes()
      ensures Represents(root, Lowered(ctx).Plug(t))
      ensures Short(Lowered(ctx), t, h) && Lowered(ctx).sibling.RootColor() == Black
      ensures Lowered(ctx).Plug(t).Entries() == ctx.Plug(t).Entries()
      ensures Lowered(ctx).Plug(t).Nodes() == ctx.Plug(t).Nodes()
    {
      LowerHole(ctx, t, h);
      ghost var q := SiblingBlackened(ctx, t);
      Paint(parent, Red, ctx.up, ctx.Fill(t));
      ghost var red := ctx.(color := Red);
      ghost var s := Down(red.up, red.Fill(t), Other(red.side));
      Paint(sibling, Black, s, ctx.sibling);
      assert s.Fill(ctx.sibling.(color := Black)) == q;
      ReadParent(root, red.(sibling := ctx.sibling.(color := Black)), t);
      if node == parent.left {
        RotateLeft(parent, sibling, ctx.up, q);
      } else {
        RotateRight(parent, sibling, ctx.up, q);
      }
    }

    method FixRemoveLend(node: Node?<K, V>, parent: Node<K, V>, sibling: Node<K, V>,
                         ghost ctx: Context<K, V>, ghost t: Tree<K, V>, ghost h: nat)
      returns (ghost r: Tree<K, V>)
      requires Represents(root, ctx.Plug(t)) && ShortBesideBlack(ctx, t, h) && node == t.Root()
      requires parent == ctx.node && sibling == ctx.sibling.node
      requires !(ctx.sibling.left.RootColor() == ctx.sibling.right.RootColor() == Black)
      modifies `root, ctx.Plug(t).Nodes()
      ensures Represents(root, r) && IsRedBlack(r)
      ensures r.Entries() == ctx.Plug(t).Entries() && r.Nodes() == ctx.Plug(t).Nodes()
    {
      TurnSibling(ctx, t, h);
      ghost var c, s := ctx.sibling, Down(ctx.up, ctx.Fill(t), Other(ctx.side));
      ReadSibling(root, ctx, t);
      var newSibling := sibling;
      // Case 5
      if node == parent.left && IsBlack(sibling.right) {
        assert IsRed(sibling.left);
        newSibling := sibling.left;
        RotateRight(sibling, sibling.left, s, c);
        c := Rotated(R, c);
      } else if node == parent.right && IsBlack(sibling.left) {
        assert IsRed(sibling.right);
        newSibling := sibling.right;
        RotateLeft(sibling, sibling.right, s, c);
        c := Rotated(L, c);
      }
      PlugEntries(s, ctx.sibling);
      PlugEntries(s, c);
      assert s.Fill(c) == ctx.(sibling := c).Fill(t);
      r := FixRemoveFinish(node, parent, newSibling, ctx.(sibling := c), t, h);
    }

    method FixRemoveFinish(node: Node?<K, V>, parent: Node<K, V>, sibling: Node<K, V>,
                           ghost ctx: Context<K, V>, ghost t: Tree<K, V>, ghost h: nat)
      returns (ghost r: Tree<K, V>)
      requires Represents(root, ctx.Plug(t)) && node == t.Root() && RB(t, h)
      requires ctx.Hole? && CanLend(ctx.sibling, ctx.side, h)
      requires if ctx.color == Red then Fits(ctx.up, h + 1, Red) else Fits(ctx.up, h + 2, Black)
      requires parent == ctx.node && sibling == ctx.sibling.node
      modifies `root, ctx.Plug(t).Nodes()
      ensures Represents(root, r) && IsRedBlack(r)
      ensures r.Entries() == ctx.Plug(t).Entries() && r.Nodes() == ctx.Plug(t).Nodes()
    {
      Lend(ctx, t, h);
      ghost var q := Lent(ctx, t);
      ghost var s, far := ctx.sibling, Near(ctx.sibling, Other(ctx.side));
      ghost var sc := Down(ctx.up, ctx.Fill(t), Other(ctx.side));
      ReadSibling(root, ctx, t);

      // Case 6
      Paint(sibling, parent.color, sc, s);
      ghost var s1 := s.(color := ctx.color);
      ghost var ctx1 := ctx.(sibling := s1);
      assert ctx1.Fill(t) == sc.Fill(s1);
      Paint(parent, Black, ctx.up, ctx1.Fill(t));
      ghost var ctx2 := ctx1.(color := Black);
      ReadSibling(root, ctx2, t);
      ghost var fc := Down(Down(ctx.up, ctx2.Fill(t), Other(ctx.side)), s1, Other(ctx.side));
      if node == parent.left {
        Paint(sibling.right, Black, fc, far);
        RotateLeft(parent, sibling, ctx.up, q);
      } else {
        Paint(sibling.left, Black, fc, far);
        RotateRight(parent, sibling, ctx.up, q);
      }
      r := ctx.up.Plug(Rotated(ctx.side, q));
    }

    /** The linking step of lookupOrCreate. */
    method LinkNode(node: Node<K, V>, parent: Node?<K, V>, key: K, ghost side: Side,
                    ghost m: map<Node<K, V>, Cell<K, V>>, ghost m': map<Node<K, V>, Cell<K, V>>)
      requires Shows(m) && node !in m && (if parent == null then m == map[] else parent in m)
      requires parent != null ==> (side == L <==> Less(compare, key, m[parent].key))
      requires m' == (if parent == null then m else m[parent := SetChild(m[parent], side, node)])
                     [node := Cell(node.parent, node.left, node.right, node.color, node.key, node.value)]
      modifies `root, m.Keys
      ensures Shows(m') && root == if parent == null then node else old(root)
    {
      if parent == null {
        root := node;
      } else if compare(key, parent.key) < 0 {
        parent.left := node;
      } else {
        parent.right := node;
      }
    }

    method Create(parent: Node?<K, V>, key: K, ghost ctx: Context<K, V>) returns (node: Node<K, V>, ghost t: Tree<K, V>)
      requires IsTotalOrder(compare) && IsPlaceOf(compare, ctx, key)
      requires Represents(root, ctx.Plug(Leaf)) && parent == ctx.Parent() && owned == ctx.Plug(Leaf).Nodes()
      modifies `root, `owned, ctx.Plug(Leaf).Nodes()
      ensures fresh(node) && t == Branch(node, Red, key, blank, Leaf, Leaf)
      ensures Represents(root, ctx.Plug(t)) && owned == ctx.Plug(t).Nodes() == old(owned) + {node}
    {
      hide IsTotalOrder, IsPlaceOf, Less;
      node := NewNode(parent, Red, key);
      t := Branch(node, Red, key, blank, Leaf, Leaf);
      ghost var m, m' := Attach(ctx, node, key, blank);
      if ctx.Hole? { LinkSide(compare, ctx, key, m); }
      LinkNode(node, parent, key, ParentSide(ctx), m, m');
    }

    method CreateAndFix(parent: Node?<K, V>, key: K, ghost ctx: Context<K, V>)
      returns (node: Node<K, V>, ghost t: Tree<K, V>, ghost r: Tree<K, V>)
      requires IsTotalOrder(compare) && IsPlaceOf(compare, ctx, key) && IsRedBlack(ctx.Plug(Leaf))
      requires Represents(root, ctx.Plug(Leaf)) && parent == ctx.Parent() && owned == ctx.Plug(Leaf).Nodes()
      modifies `root, `owned, ctx.Plug(Leaf).Nodes()
      ensures fresh(node) && t == Branch(node, Red, key, blank, Leaf, Leaf)
      ensures Represents(root, r) && IsRedBlack(r) && r.Entries() == ctx.Plug(t).Entries()
      ensures owned == r.Nodes() == old(owned) + {node}
    {
      ghost var h := Unplug(ctx, Leaf);
      node, t := Create(parent, key, ctx);
      r := FixInsert(node, ctx, t, 0);
    }

    /** lookupOrCreate, when the key was not found. */
    method Insert(key: K, parent: Node?<K, V>, ghost ctx: Context<K, V>) returns (slot: Node<K, V>)
      requires Valid() && ctx.Plug(Leaf) == tree && IsPlaceOf(compare, ctx, key) && parent == ctx.Parent()
      modifies this, tree.Nodes()
      ensures Valid() && fresh(tree.Nodes() - old(tree.Nodes()))
      ensures slot in tree.Nodes()
      ensures Bindings() == old(Bindings())[key := Entry(slot, key, blank)]
      ensures Contents() == old(Contents())[key := blank]
    {
      hide Layout, Shows, IsTotalOrder, Ascending;
      ghost var t, r;
      slot, t, r := CreateAndFix(parent, key, ctx);
      FillPlace(compare, ctx, t);
      Adopt(r);
    }

    method LookupOrCreate(key: K) returns (found: bool, slot: Node<K, V>)
      requires Valid()
      modifies this, tree.Nodes()
      ensures Valid() && fresh(tree.Nodes() - old(tree.Nodes()))
      ensures found == (key in old(Bindings()))
      ensures found ==> Bindings() == old(Bindings())
      ensures !found ==> Bindings() == old(Bindings())[key := Entry(slot, key, blank)]
      ensures slot in tree.Nodes() && key in Bindings() && Bindings()[key].node == slot
      ensures Contents() == if found then old(Contents()) else old(Contents())[key := blank]
    {
      hide Layout, Shows, IsTotalOrder, Ascending, Values, IsRedBlack;
      var node, parent;
      ghost var ctx, t, steps;
      found, node, parent, ctx, t, steps := LookupNode(key);
      if found {
        slot := node;
        ReadAt(root, ctx, t);
        NodeBinding(compare, ctx, t);
      } else {
        PlaceIsUnbound(compare, ctx, key);
        slot := Insert(key, parent, ctx);
      }
    }

    /** replaceChild: `newChild` takes the place of `child`, which is given back. */
    method ReplaceChild(parent: Node?<K, V>, child: Node<K, V>, newChild: Node?<K, V>, ghost ps: Side,
                        ghost m: map<Node<K, V>, Cell<K, V>>, ghost m': map<Node<K, V>, Cell<K, V>>)
      requires Shows(m) && owned == m.Keys && child in m && m'.Keys == m.Keys - {child}
      requires parent != null ==> parent in m' && (ps == L <==> parent.left == child)
      requires newChild != null ==> newChild in m' && newChild != parent
      requires forall n :: n in m' ==>
        m'[n] == (if n == parent then SetChild(m[n], ps, newChild)
                  else if n == newChild then m[n].(parent := parent)
                  else m[n])
      modifies `root, `owned, m.Keys
      ensures Shows(m') && owned == m'.Keys
      ensures root == if parent == null then newChild else old(root)
    {
      if parent == null {
        root := newChild;
      } else if parent.left == child {
        parent.left := newChild;
      } else {
        parent.right := newChild;
      }

      if newChild != null {
        newChild.parent := parent;
      }

      FreeNode(child);
      forall n | n in m' ensures Cell(n.parent, n.left, n.right, n.color, n.key, n.value) == m'[n] {
        assert m[n] == old(Cell(n.parent, n.left, n.right, n.color, n.key, n.value));
      }
    }

    /** The first half of removeNodeWithAtMostOneNonLeafChild. */
    method CutOut(node: Node<K, V>, parent: Node?<K, V>, child: Node?<K, V>,
                  ghost ctx: Context<K, V>, ghost t: Tree<K, V>, ghost c: Tree<K, V>)
      requires Represents(root, ctx.Plug(t)) && OnlyChild(t, c) && owned == ctx.Plug(t).Nodes()
      requires node == t.node && parent == ctx.Parent() && child == c.Root()
      modifies `root, `owned, ctx.Plug(t).Nodes()
      ensures Represents(root, ctx.Plug(c)) && owned == ctx.Plug(c).Nodes() == old(owned) - {node}
    {
      DetachNodes(ctx, t, c);
      ghost var m, m' := Detach(ctx, t, c);
      if ctx.Hole? { ReadParent(root, ctx, t); }
      ReplaceChild(parent, node, child, ParentSide(ctx), m, m');
    }

    method RemoveNodeWithAtMostOneNonLeafChild(node: Node<K, V>, parent: Node?<K, V>,
                                               ghost ctx: Context<K, V>, ghost t: Tree<K, V>, ghost c: Tree<K, V>)
      returns (ghost r: Tree<K, V>)
      requires Represents(root, ctx.Plug(t)) && IsRedBlack(ctx.Plug(t)) && OnlyChild(t, c)
      requires node == t.node && parent == ctx.Parent() && owned == ctx.Plug(t).Nodes()
      modifies `root, `owned, ctx.Plug(t).Nodes()
      ensures Represents(root, r) && IsRedBlack(r) && r.Entries() == ctx.Plug(c).Entries()
      ensures owned == r.Nodes() == old(owned) - {node}
    {
      hide *;
      ReadOnlyChild(root, ctx, t, c);
      OnlyChildIsRed(ctx, t, c);
      assert node.left == null || node.right == null;

      var nodeColor := node.color;
      var child := GetOneChild(node);
      CutOut(node, parent, child, ctx, t, c);
      r := ctx.Plug(c);

      if nodeColor == Red {
        // Simple case 1: nothing to do
      } else if child != null {
        // Simple case 2: blacken the child
        ReadAt(root, ctx, c);
        assert child.color == Red;
        Paint(child, Black, ctx, c);
        r := ctx.Plug(c.(color := Black));
      } else {
        // Complex case
        r := FixRemove(child, parent, ctx, c, 0);
      }
    }

    /** Node::rightMost. */
    static method RightMost(node: Node<K, V>, ghost root: Node?<K, V>, ghost ctx: Context<K, V>, ghost t: Tree<K, V>)
      returns (bottom: Node<K, V>)
      requires Represents(root, ctx.Plug(t)) && t.Branch? && node == t.node
      ensures bottom == RightMostTree(t).node
      decreases t
    {
      ReadAt(root, ctx, t);
      if node.right == null {
        bottom := node;
      } else {
        bottom := RightMost(node.right, root, Down(ctx, t, R), t.right);
      }
    }

    static method SetBinding(n: Node<K, V>, k: K, v: V, ghost m: map<Node<K, V>, Cell<K, V>>)
      requires Shows(m) && n in m
      modifies n`key, n`value
      ensures Shows(m[n := m[n].(key := k, value := v)])
    {
      n.key := k;
      n.value := v;
    }

    /** Assigning a node's key and value. */
    method Overwrite(n: Node<K, V>, k: K, v: V, ghost ctx: Context<K, V>, ghost t: Tree<K, V>)
      requires Represents(root, ctx.Plug(t)) && t.Branch? && n == t.node
      modifies ctx.Plug(t).Nodes()
      ensures Represents(root, ctx.Plug(t.(key := k, value := v)))
      ensures ctx.Plug(t.(key := k, value := v)).Nodes() == ctx.Plug(t).Nodes()
    {
      assert t.(color := t.color, key := k, value := v) == t.(key := k, value := v);
      ghost var m, m' := Rewrite(ctx, t, t.color, k, v);
      SetBinding(n, k, v, m);
    }

    /** The two-children half of remove: the predecessor moves into `node`, and its own node goes. */
    method RemoveInner(node: Node<K, V>, ghost ctx: Context<K, V>, ghost t: Tree<K, V>)
      returns (ghost r: Tree<K, V>)
      requires Represents(root, ctx.Plug(t)) && IsRedBlack(ctx.Plug(t)) && owned == ctx.Plug(t).Nodes()
      requires t.Branch? && t.left.Branch? && node == t.node
      modifies `root, `owned, ctx.Plug(t).Nodes()
      ensures Represents(root, r) && IsRedBlack(r)
      ensures r.Entries() == PredecessorContext(ctx, t).Plug(RightMostTree(t.left).left).Entries()
      ensures owned == r.Nodes() == old(owned) - {RightMostTree(t.left).node}
    {
      ghost var c, b := PredecessorContext(ctx, t), RightMostTree(t.left);
      PredecessorShape(ctx, t);
      RightMostPlug(Down(ctx, t, L), t.left);
      ReadAt(root, ctx, t);
      var bottom := RightMost(node.left, root, Down(ctx, t, L), t.left);
      ReadAt(root, RightMostContext(Down(ctx, t, L), t.left), b);
      Overwrite(node, bottom.key, bottom.value, ctx, t);
      ReadAt(root, c, b);
      r := RemoveNodeWithAtMostOneNonLeafChild(bottom, bottom.parent, c, b, b.left);
    }

    /** remove, once the node of the key is found; `gone` is the node given back. */
    method RemoveFound(node: Node<K, V>, parent: Node?<K, V>, ghost ctx: Context<K, V>, ghost t: Tree<K, V>)
      returns (ghost r: Tree<K, V>, ghost gone: Node<K, V>)
      requires Represents(root, ctx.Plug(t)) && IsRedBlack(ctx.Plug(t)) && owned == ctx.Plug(t).Nodes()
      requires t.Branch? && node == t.node && parent == ctx.Parent()
      requires IsTotalOrder(compare) && Ascending(compare, ctx.Plug(t).Entries())
      modifies `root, `owned, ctx.Plug(t).Nodes()
      ensures Represents(root, r) && IsRedBlack(r)
      ensures Ascending(compare, r.Entries()) && Values(r.Entries()) == Values(ctx.Plug(t).Entries()) - {t.key}
      ensures owned == r.Nodes() == old(owned) - {gone} && gone in old(owned)
    {
      ReadAt(root, ctx, t);
      if node.left != null && node.right != null {
        PredecessorValues(compare, ctx, t);
        gone := RightMostTree(t.left).node;
        RightMostPlug(Down(ctx, t, L), t.left);
        ReadAt(root, RightMostContext(Down(ctx, t, L), t.left), RightMostTree(t.left));
        r := RemoveInner(node, ctx, t);
      } else {
        ghost var c := if t.left == Leaf then t.right else t.left;
        CutOutValues(compare, ctx, t, c);
        gone := node;
        r := RemoveNodeWithAtMostOneNonLeafChild(node, parent, ctx, t, c);
      }
    }

    method Remove(key: K) returns (found: bool)
      requires Valid()
      modifies this, tree.Nodes()
      ensures Valid()
      ensures found == (key in old(Contents()))
      ensures Contents() == old(Contents()) - {key}
      ensures tree.Nodes() <= old(tree.Nodes()) && owned <= old(owned) &&
        |owned| == |old(owned)| - (if found then 1 else 0)
    {
      var node, parent;
      ghost var ctx, t, steps;
      found, node, parent, ctx, t, steps := LookupNode(key);
      if !found {
        PlaceIsUnbound(compare, ctx, key);
        MinusAbsent(Contents(), key);
        return;
      }
      NodeBinding(compare, ctx, t);
      ghost var r, gone := RemoveFound(node, parent, ctx, t);
      Adopt(r);
    }

    /** removeAll's walk: every node below `node` is given back, `node` itself is not. */
    method FreeBelow(node: Node?<K, V>, ghost t: Tree<K, V>, ghost parent: Node?<K, V>)
      requires node == t.Root() && t.Distinct() && Shows(Layout(t, parent)) && t.Nodes() <= owned
      modifies `owned, t.Nodes()
      ensures owned == old(owned) - (t.Nodes() - {node})
      decreases t
    {
      if node == null {
        return;
      }
      ShowsChildren(t, parent);
      FreeBelow(node.left, t.left, node);
      FreeBelow(node.right, t.right, node);
      if node.left != null {
        FreeNode(node.left);
      }
      if node.right != null {
        FreeNode(node.right);
      }
      FreedBelow(old(owned), t);
    }

    method RemoveAll()
      requires Valid()
      modifies this, tree.Nodes()
      ensures Valid() && Contents() == map[] && owned == tree.Nodes() == {} && root == null
    {
      if root == null {
        return;
      }
      FreeBelow(root, tree, null);
      FreeNode(root);
      root := null;
      tree := Leaf;
      assert RB<K, V>(Leaf, 0);
    }

    /** The children of a copied node. */
    static method SetChildren(n: Node<K, V>, left: Node?<K, V>, right: Node?<K, V>, ghost l: Tree<K, V>,
                              ghost r: Tree<K, V>, ghost below: set<Node<K, V>>)
      returns (ghost t: Tree<K, V>)
      requires l.Distinct() && r.Distinct() && l.Nodes() !! r.Nodes() && l.Nodes() + r.Nodes() == below && n !in below
      requires left == l.Root() && right == r.Root()
      requires Shows(Layout(l, n)) && Shows(Layout(r, n))
      modifies n
      ensures t == Branch(n, old(n.color), old(n.key), old(n.value), l, r)
      ensures t.Distinct() && Shows(Layout(t, old(n.parent))) && t.Nodes() == below + {n}
    {
      t := Branch(n, n.color, n.key, n.value, l, r);
      n.left := left;
      n.right := right;
      ShowsJoin(t, n.parent);
    }

    /** replicate, on the two subtrees of a node copied to `n`; `made` collects the new nodes. */
    static method CopyChildren(n: Node<K, V>, left: Node?<K, V>, right: Node?<K, V>, fk: K -> K, fv: V -> V,
                               ghost t: Tree<K, V>, ghost src: Node<K, V>, ghost region: set<Node<K, V>>)
      returns (left': Node?<K, V>, right': Node?<K, V>, ghost l: Tree<K, V>, ghost r: Tree<K, V>,
               ghost made: set<Node<K, V>>)
      requires t.Branch? && t.left.Distinct() && t.right.Distinct()
      requires t.left.Nodes() <= region && t.right.Nodes() <= region
      requires left == t.left.Root() && right == t.right.Root()
      requires Shows(Layout(t.left, src)) && Shows(Layout(t.right, src))
      ensures left' == l.Root() && l.Distinct() && Shows(Layout(l, n)) && IsCopy(t.left, l, fk, fv)
      ensures right' == r.Root() && r.Distinct() && Shows(Layout(r, n)) && IsCopy(t.right, r, fk, fv)
      ensures l.Nodes() !! r.Nodes() && l.Nodes() + r.Nodes() == made && fresh(made)
      decreases t, 0
    {
      ghost var ml, mr;
      left', l, ml := CopyNodes(left, n, fk, fv, t.left, src, region);
      right', r, mr := CopyNodes(right, n, fk, fv, t.right, src, region);
      made := ml + mr;
    }

    /** replicate: a copy of the nodes of `t` below `parent`. */
    static method CopyNodes(src: Node?<K, V>, parent: Node?<K, V>, fk: K -> K, fv: V -> V,
                            ghost t: Tree<K, V>, ghost p: Node?<K, V>, ghost region: set<Node<K, V>>)
      returns (dest: Node?<K, V>, ghost t': Tree<K, V>, ghost made: set<Node<K, V>>)
      requires src == t.Root() && t.Distinct() && Shows(Layout(t, p)) && t.Nodes() <= region
      ensures dest == t'.Root() && t'.Distinct() && Shows(Layout(t', parent)) && IsCopy(t, t', fk, fv)
      ensures fresh(made) && t'.Nodes() == made
      decreases t, 1
    {
      if src == null {
        return null, Leaf, {};
      }
      ShowsChildren(t, p);
      assert t.left.Nodes() <= region && t.right.Nodes() <= region && src !in t.left.Nodes() + t.right.Nodes();
      hide *;
      var n := new Node(parent, src.color, fk(src.key), fv(src.value));
      var left, right;
      ghost var l, r;
      left, right, l, r, made := CopyChildren(n, src.left, src.right, fk, fv, t, src, region);
      t' := SetChildren(n, left, right, l, r, made);
      CopyJoin(t, t', fk, fv);
      dest, made := n, made + {n};
    }

    /** The order a walk from right to left visits the nodes in. */
    static method FoldNodes<T>(node: Node?<K, V>, init: T, f: (K, V, T) -> T,
                               ghost t: Tree<K, V>, ghost parent: Node?<K, V>, ghost region: set<Node<K, V>>)
      returns (r: T)
      requires node == t.Root() && t.Distinct() && Shows(Layout(t, parent)) && t.Nodes() <= region
      ensures r == FoldEntries(t.Entries(), init, f)
      decreases t
    {
      if node == null {
        return init;
      }
      ShowsChildren(t, parent);
      r := FoldNodes(node.right, init, f, t.right, node, region);
      r := f(node.key, node.value, r);
      r := FoldNodes(node.left, r, f, t.left, node, region);
      FoldBranch(t, init, f);
    }

    /** foldRight: from the greatest key down to the smallest. */
    method FoldRight<T>(init: T, f: (K, V, T) -> T) returns (r: T)
      requires Valid()
      ensures r == FoldEntries(tree.Entries(), init, f)
    {
      r := FoldNodes(root, init, f, tree, null, owned);
    }

    /** dictKeys. */
    method DictKeys() returns (keys: seq<K>)
      requires Valid()
      ensures forall i, j :: 0 <= i < j < |keys| ==> Less(compare, keys[i], keys[j])
      ensures forall k :: k in keys <==> k in Contents()
    {
      var f := (k: K, v: V, r: seq<K>) => [k] + r;
      keys := FoldRight([], f);
      FoldToKeys(tree.Entries(), f);
      KeysAscend(compare, tree.Entries());
    }

    /** Storing in the value slot handed out by lookup or lookupOrCreate. */
    method Store(slot: Node<K, V>, v: V)
      requires Valid() && slot in tree.Nodes()
      modifies `tree, tree.Nodes()
      ensures Valid() && tree.Nodes() == old(tree.Nodes())
      ensures Bindings() == old(Bindings())[old(slot.key) := Entry(slot, old(slot.key), v)]
      ensures Contents() == old(Contents())[old(slot.key) := v]
    {
      ghost var ctx, t := Locate(Top, tree, slot);
      ReadAt(root, ctx, t);
      StoreValue(compare, ctx, t, v);
      Overwrite(slot, slot.key, v, ctx, t);
      assert t.(key := t.key, value := v) == t.(value := v);
      Adopt(ctx.Plug(t.(value := v)));
    }

    /** dictGet and dictCondGet: the value of `key`, or nothing. */
    method DictGet(key: K) returns (found: bool, value: V)
      requires Valid()
      ensures found == (key in Contents())
      ensures value == if found then Contents()[key] else blank
    {
      var slot := Lookup(key);
      found, value := slot != null, if slot != null then slot.value else blank;
    }

    /** A binding's node holds its key and its value. */
    lemma SlotFields(key: K)
      requires Valid() && key in Bindings()
      ensures var n := Bindings()[key].node;
        n in tree.Nodes() && n.key == key && n.value == Bindings()[key].value == Contents()[key]
    {
      AscendingIsDistinct(compare, tree.Entries());
      IndexKeys(tree.Entries(), key);
      var i :| 0 <= i < |tree.Entries()| && tree.Entries()[i].key == key;
      var ctx, t := LocateEntry(Top, tree, i);
      ReadAt(root, ctx, t);
    }

    method DictPut(key: K, newValue: V)
      requires Valid()
      modifies this, tree.Nodes()
      ensures Valid() && fresh(tree.Nodes() - old(tree.Nodes()))
      ensures Contents() == old(Contents())[key := newValue]
    {
      hide *;
      var found, slot := LookupOrCreate(key);
      SlotFields(key);
      Store(slot, newValue);
    }

    lemma SameKeys()
      ensures Contents().Keys == Bindings().Keys
    {
    }

    method DictCondExchange(key: K, defaultValue: V, newValue: V) returns (oldValue: V)
      requires Valid()
      modifies this, tree.Nodes()
      ensures Valid() && fresh(tree.Nodes() - old(tree.Nodes()))
      ensures Contents() == old(Contents())[key := newValue]
      ensures oldValue == if key in old(Contents()) then old(Contents())[key] else defaultValue
    {
      SameKeys();
      hide *;
      var found, slot := LookupOrCreate(key);
      SlotFields(key);
      oldValue := if found then slot.value else defaultValue;
      Store(slot, newValue);
    }

    method Ask(key: K) returns (answer: Answer<V>)
      requires Valid()
      ensures Valid() && tree == old(tree) && Contents() == old(Contents()) && answer == AnswerTo(Contents(), Get(key))
    {
      var found, v := DictGet(key);
      answer := if found then Found(v) else Missing;
    }

    /** One operation on the dictionary. */
    method Perform(op: Operation<K, V>) returns (answer: Answer<V>)
      requires Valid()
      modifies this, tree.Nodes()
      ensures Valid() && fresh(tree.Nodes() - old(tree.Nodes()))
      ensures Contents() == After(old(Contents()), op) && answer == AnswerTo(old(Contents()), op)
    {
      hide Valid, Contents;
      if op.Put? {
        DictPut(op.key, op.value);
        answer := Done;
      } else if op.Get? {
        answer := Ask(op.key);
      } else if op.CondExchange? {
        var w := DictCondExchange(op.key, op.defaultValue, op.value);
        answer := Found(w);
      } else if op.Delete? {
        var found := Remove(op.key);
        answer := Done;
      } else {
        RemoveAll();
        answer := Done;
      }
    }

    /** Any sequence of operations does, and answers, what it does on a finite map. */
    method Run(ops: seq<Operation<K, V>>) returns (answers: seq<Answer<V>>)
      requires Valid()
      modifies this, tree.Nodes()
      ensures Valid() && fresh(tree.Nodes() - old(tree.Nodes()))
      ensures Contents() == AfterAll(old(Contents()), ops) && answers == Answers(old(Contents()), ops)
      decreases |ops|
    {
      if ops == [] {
        return [];
      }
      var answer := Perform(ops[0]);
      answers := Run(ops[1..]);
      answers := [answer] + answers;
    }

    /** replicate: fills this empty dictionary with a copy of `src`. */
    method Replicate(src: NodeDictionary<K, V>, fk: K -> K, fv: V -> V)
      requires Valid() && root == null && src.Valid() && src != this && src.compare == compare
      requires OrderPreserving(compare, fk)
      modifies this
      ensures Valid() && fresh(tree.Nodes()) && IsCopy(src.tree, tree, fk, fv)
      ensures Contents().Keys == set k | k in src.Contents().Keys :: fk(k)
      ensures forall k | k in src.Contents() :: Contents()[fk(k)] == fv(src.Contents()[k])
    {
      hide OrderPreserving, IsTotalOrder, Ascending, IsRedBlack, IsCopy, Index, Values, Layout, Shows;
      var dest;
      ghost var t, made;
      dest, t, made := CopyNodes(src.root, null, fk, fv, src.tree, null, src.owned);
      root, owned := dest, made;
      CopiedValues(compare, src.tree, t, fk, fv);
      Adopt(t);
    }

    method Clone(src: NodeDictionary<K, V>)
      requires Valid() && src.Valid() && src != this && src.compare == compare && tree.Nodes() !! src.tree.Nodes()
      modifies this, tree.Nodes()
      ensures Valid() && src.Valid() && fresh(tree.Nodes())
      ensures Contents() == src.Contents() == old(src.Contents())
    {
      hide Index, Values, Ascending, IsTotalOrder, IsRedBlack, Layout, Shows;
      RemoveAll();
      Replicate(src, k => k, v => v);
    }
  }
}