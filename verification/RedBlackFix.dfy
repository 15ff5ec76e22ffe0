/** The red-black argument behind insertion and removal: each repair step, on trees. */
module RedBlackFix {
  import opened RedBlackTree

  // ------------------------------------------------------------------ insertion

  /** `t`, a red node of black height `h`, may break only the rule on its own parent. */
  ghost predicate RedAt<K, V>(ctx: Context<K, V>, t: Tree<K, V>, h: nat) {
    t.Branch? && t.color == Red && RB(t, h) && Fits(ctx, h, Black)
  }

  ghost predicate RedUnderRed<K, V>(ctx: Context<K, V>, t: Tree<K, V>, h: nat) {
    RedAt(ctx, t, h) && ctx.Hole? && ctx.color == Red && ctx.up.Hole? && ctx.up.color == Black
  }

  lemma RedParentIsNotRoot<K, V>(ctx: Context<K, V>, t: Tree<K, V>, h: nat)
    requires RedAt(ctx, t, h) && ctx.Hole? && ctx.color == Red
    ensures RedUnderRed(ctx, t, h)
  {
    assert Fits(ctx.up, h, Red);
  }

  /** The grandparent and the uncle of a red node under a red parent. */
  lemma ReadUncle<K, V>(root: Node?<K, V>, ctx: Context<K, V>, t: Tree<K, V>, h: nat)
    requires Represents(root, ctx.Plug(t)) && RedUnderRed(ctx, t, h)
    ensures ctx.Hole? && ctx.up.Hole? && ctx.node.parent == ctx.up.node
    ensures var uncle := GetTheOtherChild(ctx.up.node, ctx.node);
      && (IsRed(uncle) <==> ctx.up.sibling.RootColor() == Red)
      && (ctx.up.sibling.Branch? ==> uncle == ctx.up.sibling.node) && (ctx.up.sibling.Leaf? ==> uncle == null)
  {
    hide Layout, Shows, RB, Fits;
    var g, p := ctx.up, ctx.Fill(t);
    ReadParent(root, ctx, t);
    ReadParent(root, g, p);
    if g.sibling.Branch? { ReadAt(root, Down(g.up, g.Fill(p), Other(g.side)), g.sibling); }
  }

  /** fixInsert, case 1: the root turns black. */
  lemma BlackenRoot<K, V>(t: Tree<K, V>, h: nat)
    requires RedAt(Top, t, h)
    ensures var r := t.(color := Black); IsRedBlack(r) && r.Entries() == t.Entries()
  {
    assert RB(t.(color := Black), h + 1);
  }

  /** fixInsert, case 3: the grandparent with both its children blackened, itself red. */
  function PushedUp<K, V>(ctx: Context<K, V>, t: Tree<K, V>): Tree<K, V>
    requires ctx.Hole? && ctx.up.Hole? && ctx.up.sibling.Branch?
  {
    var g := ctx.up;
    Join(g.side, g.node, Red, g.key, g.value, ctx.Fill(t).(color := Black), g.sibling.(color := Black))
  }

  lemma PushUp<K, V>(ctx: Context<K, V>, t: Tree<K, V>, h: nat)
    requires RedUnderRed(ctx, t, h) && ctx.up.sibling.RootColor() == Red
    ensures RedAt(ctx.up.up, PushedUp(ctx, t), h + 1)
    ensures ctx.up.up.Plug(PushedUp(ctx, t)).Entries() == ctx.Plug(t).Entries()
    ensures ctx.up.up.Plug(PushedUp(ctx, t)).Nodes() == ctx.Plug(t).Nodes()
  {
    assert Fits(ctx.up, h, Red);
    var p := ctx.Fill(t);
    assert p.Branch?;
    assert RB(p.(color := Black), h + 1) && RB(ctx.up.sibling.(color := Black), h + 1);
    SwapEntries(ctx.up.up, ctx.up.Fill(ctx.Fill(t)), PushedUp(ctx, t));
  }

  /** A red node under a red parent, on the outer side of the grandparent. */
  ghost predicate Outer<K, V>(g: Context<K, V>, p: Tree<K, V>, h: nat) {
    && g.Hole? && g.color == Black && RB(g.sibling, h) && g.sibling.RootColor() == Black && Fits(g.up, h + 1, Black)
    && p.Branch? && p.color == Red && Near(p, g.side).RootColor() == Red
    && RB(Near(p, g.side), h) && RB(Near(p, Other(g.side)), h) && Near(p, Other(g.side)).RootColor() == Black
  }

  /** fixInsert, case 4: rotating the parent makes an inner red node the outer one. */
  lemma TurnOut<K, V>(ctx: Context<K, V>, t: Tree<K, V>, h: nat)
    requires RedUnderRed(ctx, t, h) && ctx.up.sibling.RootColor() == Black
    ensures ctx.side == ctx.up.side ==> Outer(ctx.up, ctx.Fill(t), h)
    ensures ctx.side != ctx.up.side ==>
      CanRotate(ctx.up.side, ctx.Fill(t)) && Outer(ctx.up, Rotated(ctx.up.side, ctx.Fill(t)), h) &&
      ctx.up.Plug(Rotated(ctx.up.side, ctx.Fill(t))).Entries() == ctx.Plug(t).Entries()
  {
    assert Fits(ctx.up, h, Red);
    if ctx.side != ctx.up.side {
      var p := ctx.Fill(t);
      RotateEntries(ctx.up.side, p);
      PlugEntries(ctx.up, p);
      PlugEntries(ctx.up, Rotated(ctx.up.side, p));
    }
  }

  /** fixInsert, case 5: the subtree of the grandparent, recoloured, before its rotation. */
  function Recoloured<K, V>(g: Context<K, V>, p: Tree<K, V>): Tree<K, V>
    requires g.Hole? && p.Branch?
  {
    var q := g.Fill(p.(color := Black));
    assert q.Branch?;
    q.(color := Red)
  }

  lemma TurnUp<K, V>(g: Context<K, V>, p: Tree<K, V>, h: nat)
    requires Outer(g, p, h)
    ensures CanRotate(Other(g.side), Recoloured(g, p))
    ensures var r := Rotated(Other(g.side), Recoloured(g, p));
      RB(r, h + 1) && IsRedBlack(g.up.Plug(r)) &&
      g.up.Plug(r).Entries() == g.Plug(p).Entries() && g.up.Plug(r).Nodes() == g.Plug(p).Nodes()
  {
    var q := Recoloured(g, p);
    var r := Rotated(Other(g.side), q);
    RotateEntries(Other(g.side), q);
    assert r.Nodes() == g.Fill(p).Nodes();
    SwapEntries(g.up, g.Fill(p), r);
    PlugIsRedBlack(g.up, r, h + 1);
  }

  // -------------------------------------------------------------------- removal

  /** `t`, black-rooted, has black height one less than `ctx` needs. */
  ghost predicate Short<K, V>(ctx: Context<K, V>, t: Tree<K, V>, h: nat) {
    RB(t, h) && t.RootColor() == Black && Fits(ctx, h + 1, Black)
  }

  lemma ShortHasSibling<K, V>(ctx: Context<K, V>, t: Tree<K, V>, h: nat)
    requires Short(ctx, t, h) && ctx.Hole?
    ensures ctx.sibling.Branch? && RB(ctx.sibling, h + 1)
    ensures ctx.sibling.color == Red ==> ctx.color == Black
  {
  }

  /** fixRemove, case 2: the parent's subtree, recoloured, before its rotation. */
  function SiblingBlackened<K, V>(ctx: Context<K, V>, t: Tree<K, V>): Tree<K, V>
    requires ctx.Hole? && ctx.sibling.Branch?
  {
    Join(ctx.side, ctx.node, Red, ctx.key, ctx.value, t, ctx.sibling.(color := Black))
  }

  /** fixRemove, case 2: the context of the short subtree after the rotation. */
  function Lowered<K, V>(ctx: Context<K, V>): Context<K, V>
    requires ctx.Hole? && ctx.sibling.Branch?
  {
    var s := ctx.sibling;
    Hole(ctx.side, ctx.node, Red, ctx.key, ctx.value, Near(s, ctx.side),
         Hole(ctx.side, s.node, Black, s.key, s.value, Near(s, Other(ctx.side)), ctx.up))
  }

  lemma LowerHole<K, V>(ctx: Context<K, V>, t: Tree<K, V>, h: nat)
    requires Short(ctx, t, h) && ctx.Hole? && ctx.sibling.RootColor() == Red
    ensures Short(Lowered(ctx), t, h) && Lowered(ctx).sibling.RootColor() == Black
    ensures CanRotate(ctx.side, SiblingBlackened(ctx, t))
    ensures ctx.up.Plug(Rotated(ctx.side, SiblingBlackened(ctx, t))) == Lowered(ctx).Plug(t)
    ensures Lowered(ctx).Plug(t).Entries() == ctx.Plug(t).Entries()
    ensures Lowered(ctx).Plug(t).Nodes() == ctx.Plug(t).Nodes()
  {
    var q := SiblingBlackened(ctx, t);
    RotateEntries(ctx.side, q);
    assert Lowered(ctx).up.Fill(Lowered(ctx).Fill(t)) == Rotated(ctx.side, q);
    assert Rotated(ctx.side, q).Nodes() == ctx.Fill(t).Nodes();
    SwapEntries(ctx.up, ctx.Fill(t), Rotated(ctx.side, q));
  }

  /** fixRemove, cases 3 and 4: the parent's subtree with a red sibling and colour `c` on top. */
  function SiblingReddened<K, V>(ctx: Context<K, V>, t: Tree<K, V>, c: Color): Tree<K, V>
    requires ctx.Hole? && ctx.sibling.Branch?
  {
    Join(ctx.side, ctx.node, c, ctx.key, ctx.value, t, ctx.sibling.(color := Red))
  }

  ghost predicate ShortBesideBlack<K, V>(ctx: Context<K, V>, t: Tree<K, V>, h: nat) {
    Short(ctx, t, h) && ctx.Hole? && ctx.sibling.Branch? && ctx.sibling.color == Black
  }

  lemma ReddenSibling<K, V>(ctx: Context<K, V>, t: Tree<K, V>, h: nat)
    requires ShortBesideBlack(ctx, t, h)
    requires ctx.sibling.left.RootColor() == ctx.sibling.right.RootColor() == Black
    ensures ctx.color == Black ==> Short(ctx.up, SiblingReddened(ctx, t, Black), h + 1)
    ensures ctx.color == Red ==> IsRedBlack(ctx.up.Plug(SiblingReddened(ctx, t, Black)))
    ensures ctx.up.Plug(SiblingReddened(ctx, t, Black)).Entries() == ctx.Plug(t).Entries()
    ensures ctx.up.Plug(SiblingReddened(ctx, t, Black)).Nodes() == ctx.Plug(t).Nodes()
  {
    var q := SiblingReddened(ctx, t, Black);
    assert RB(q, h + 1) by {
      assert RB(ctx.sibling.(color := Red), h);
    }
    SwapEntries(ctx.up, ctx.Fill(t), q);
    if ctx.color == Red {
      assert Fits(ctx.up, h + 1, Red);
      PlugIsRedBlack(ctx.up, q, h + 1);
    }
  }

  /** The sibling can lend a black node: its far child, blackened, has black height `h + 1`. */
  ghost predicate CanLend<K, V>(s: Tree<K, V>, side: Side, h: nat) {
    && s.Branch? && RB(Near(s, side), h)
    && Near(s, Other(side)).Branch? && RB(Near(s, Other(side)).(color := Black), h + 1)
  }

  /** fixRemove, case 5: a sibling whose far child is black is rotated away from the hole. */
  lemma TurnSibling<K, V>(ctx: Context<K, V>, t: Tree<K, V>, h: nat)
    requires ShortBesideBlack(ctx, t, h)
    ensures var s := ctx.sibling; var side := ctx.side;
      if Near(s, Other(side)).RootColor() == Red then CanLend(s, side, h)
      else Near(s, side).RootColor() == Red ==>
        CanRotate(Other(side), s) && CanLend(Rotated(Other(side), s), side, h) &&
        Rotated(Other(side), s).Entries() == s.Entries() && Rotated(Other(side), s).Nodes() == s.Nodes()
  {
    var s := ctx.sibling;
    var far := Near(s, Other(ctx.side));
    assert RB(s, h + 1) && RB(far, h) && RB(Near(s, ctx.side), h);
    if far.RootColor() == Red {
      assert RB(far.(color := Black), h + 1);
    } else if Near(s, ctx.side).RootColor() == Red {
      RotateEntries(Other(ctx.side), s);
    }
  }

  /** fixRemove, case 6: the parent's subtree, recoloured, before its rotation. */
  function Lent<K, V>(ctx: Context<K, V>, t: Tree<K, V>): Tree<K, V>
    requires ctx.Hole? && ctx.sibling.Branch? && Near(ctx.sibling, Other(ctx.side)).Branch?
  {
    var s := ctx.sibling;
    Join(ctx.side, ctx.node, Black, ctx.key, ctx.value, t,
         Join(ctx.side, s.node, ctx.color, s.key, s.value, Near(s, ctx.side),
              Near(s, Other(ctx.side)).(color := Black)))
  }

  lemma Lend<K, V>(ctx: Context<K, V>, t: Tree<K, V>, h: nat)
    requires ctx.Hole? && RB(t, h) && CanLend(ctx.sibling, ctx.side, h)
    requires if ctx.color == Red then Fits(ctx.up, h + 1, Red) else Fits(ctx.up, h + 2, Black)
    ensures CanRotate(ctx.side, Lent(ctx, t))
    ensures var r := ctx.up.Plug(Rotated(ctx.side, Lent(ctx, t)));
      IsRedBlack(r) && r.Entries() == ctx.Plug(t).Entries() && r.Nodes() == ctx.Plug(t).Nodes()
  {
    var q := Rotated(ctx.side, Lent(ctx, t));
    RotateEntries(ctx.side, Lent(ctx, t));
    var s := ctx.sibling;
    assert Near(Lent(ctx, t), Other(ctx.side)).Nodes() == s.Nodes();
    assert Near(Lent(ctx, t), Other(ctx.side)).Entries() == s.Entries();
    assert RB(q, if ctx.color == Red then h + 1 else h + 2);
    SwapEntries(ctx.up, ctx.Fill(t), q);
    PlugIsRedBlack(ctx.up, q, if ctx.color == Red then h + 1 else h + 2);
  }

  /** A node with at most one child: what its colour says about that child. */
  lemma OnlyChildIsRed<K, V>(ctx: Context<K, V>, t: Tree<K, V>, c: Tree<K, V>)
    requires IsRedBlack(ctx.Plug(t)) && OnlyChild(t, c)
    ensures t.color == Red ==> IsRedBlack(ctx.Plug(c))
    ensures t.color == Black && c.Branch? ==> c.color == Red && IsRedBlack(ctx.Plug(c.(color := Black)))
    ensures c.Branch? ==> ctx.Plug(c.(color := Black)).Entries() == ctx.Plug(c).Entries()
    ensures t.color == Black && c.Leaf? ==> Short(ctx, c, 0)
  {
    var h := Unplug(ctx, t);
    if t.color == Red {
      FitsBlack(ctx, h, Red);
      PlugIsRedBlack(ctx, c, h);
    } else if c.Branch? {
      assert RB(c.(color := Black), h);
      PlugIsRedBlack(ctx, c.(color := Black), h);
    }
    if c.Branch? {
      PlugEntries(ctx, c);
      PlugEntries(ctx, c.(color := Black));
    }
  }

  // ---------------------------------------------------------------- predecessor

  /** rightMost, on trees: the bottom right subtree and its context. */
  function RightMostTree<K, V>(t: Tree<K, V>): (b: Tree<K, V>)
    requires t.Branch?
    ensures b.Branch? && b.right == Leaf
  {
    if t.right.Leaf? then t else RightMostTree(t.right)
  }

  function RightMostContext<K, V>(ctx: Context<K, V>, t: Tree<K, V>): (c: Context<K, V>)
    requires t.Branch?
    ensures c.Hole? == (ctx.Hole? || t.right.Branch?)
    decreases t
  {
    if t.right.Leaf? then ctx else RightMostContext(Down(ctx, t, R), t.right)
  }

  lemma {:induction false} RightMostPlug<K, V>(ctx: Context<K, V>, t: Tree<K, V>)
    requires t.Branch?
    ensures var c, b := RightMostContext(ctx, t), RightMostTree(t);
      && c.Plug(b) == ctx.Plug(t) && c.After() == ctx.After()
      && c.Before() + b.left.Entries() + [Entry(b.node, b.key, b.value)] == ctx.Before() + t.Entries()
    decreases t
  {
    if t.right.Branch? {
      RightMostPlug(Down(ctx, t, R), t.right);
    } else {
      assert t.Entries() == t.left.Entries() + [Entry(t.node, t.key, t.value)];
    }
  }
}
