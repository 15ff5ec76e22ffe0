/** Search order: sorted entries, the finite map they stand for, and the height of the tree. */
module SearchOrder {
  import opened RedBlackTree
  import opened RedBlackFix

  predicate Less<K>(cmp: (K, K) -> int, a: K, b: K) {
    cmp(a, b) < 0
  }

  /** What is assumed of compareFeatures. */
  ghost predicate IsTotalOrder<K(!new)>(cmp: (K, K) -> int) {
    && (forall a, b :: cmp(a, b) == 0 <==> a == b)
    && (forall a, b :: Less(cmp, a, b) <==> cmp(b, a) > 0)
    && (forall a, b, c :: Less(cmp, a, b) && Less(cmp, b, c) ==> Less(cmp, a, c))
  }

  ghost predicate Ascending<K, V>(cmp: (K, K) -> int, s: seq<Entry<K, V>>) {
    forall i, j :: 0 <= i < j < |s| ==> Less(cmp, s[i].key, s[j].key)
  }

  ghost predicate AllBelow<K, V>(cmp: (K, K) -> int, s: seq<Entry<K, V>>, k: K) {
    forall i :: 0 <= i < |s| ==> Less(cmp, s[i].key, k)
  }

  ghost predicate AllAbove<K, V>(cmp: (K, K) -> int, k: K, s: seq<Entry<K, V>>) {
    forall i :: 0 <= i < |s| ==> Less(cmp, k, s[i].key)
  }

  ghost predicate NoDuplicates<K, V>(s: seq<Entry<K, V>>) {
    forall i, j :: 0 <= i < j < |s| ==> s[i].key != s[j].key
  }

  lemma AscendingIsDistinct<K(!new), V>(cmp: (K, K) -> int, s: seq<Entry<K, V>>)
    requires IsTotalOrder(cmp) && Ascending(cmp, s)
    ensures NoDuplicates(s)
  {
    forall i, j | 0 <= i < j < |s| ensures s[i].key != s[j].key {
      assert Less(cmp, s[i].key, s[j].key);
      assert cmp(s[i].key, s[i].key) == 0;
    }
  }

  /** The finite map a sequence of entries stands for. */
  function Index<K, V>(s: seq<Entry<K, V>>): map<K, Entry<K, V>> {
    if s == [] then map[] else Index(s[1..])[s[0].key := s[0]]
  }

  lemma {:induction false} IndexKeys<K, V>(s: seq<Entry<K, V>>, k: K)
    requires NoDuplicates(s)
    ensures k in Index(s) <==> exists i :: 0 <= i < |s| && s[i].key == k
    ensures forall i :: 0 <= i < |s| && s[i].key == k ==> Index(s)[k] == s[i]
  {
    if s != [] {
      var r := s[1..];
      IndexKeys(r, k);
      assert forall i :: 0 < i < |s| ==> s[i] == r[i - 1];
    }
  }

  lemma DistinctParts<K, V>(a: seq<Entry<K, V>>, b: seq<Entry<K, V>>)
    requires NoDuplicates(a + b)
    ensures NoDuplicates(a) && NoDuplicates(b)
    ensures forall i, j :: 0 <= i < |a| && 0 <= j < |b| ==> a[i].key != b[j].key
  {
    var s := a + b;
    assert forall i :: 0 <= i < |a| ==> s[i] == a[i];
    assert forall j :: 0 <= j < |b| ==> s[|a| + j] == b[j];
  }

  lemma {:induction false} IndexSplit<K, V>(a: seq<Entry<K, V>>, b: seq<Entry<K, V>>)
    requires NoDuplicates(a + b)
    ensures Index(a + b) == Index(a) + Index(b)
    ensures Index(a).Keys !! Index(b).Keys
  {
    if a == [] {
      assert a + b == b;
    } else {
      var r := a[1..];
      assert (a + b)[1..] == r + b;
      assert [a[0]] + (r + b) == a + b;
      DistinctParts([a[0]], r + b);
      IndexSplit(r, b);
      DistinctParts(a, b);
      IndexKeys(b, a[0].key);
    }
  }

  /** Sorted sequences around a key. */
  lemma AscendingAround<K, V>(cmp: (K, K) -> int, a: seq<Entry<K, V>>, e: Entry<K, V>, b: seq<Entry<K, V>>)
    requires Ascending(cmp, a + [e] + b)
    ensures Ascending(cmp, a + b) && AllBelow(cmp, a, e.key) && AllAbove(cmp, e.key, b)
  {
    var t, n := a + [e] + b, |a|;
    assert t[n] == e;
    assert forall i :: 0 <= i < n ==> t[i] == a[i];
    forall i | 0 <= i < |b| ensures Less(cmp, e.key, b[i].key) {
      assert t[n + 1 + i] == b[i];
    }
    forall i, j | 0 <= i < j < |a + b| ensures Less(cmp, (a + b)[i].key, (a + b)[j].key) {
      assert (a + b)[i] == t[if i < n then i else i + 1] && (a + b)[j] == t[if j < n then j else j + 1];
    }
  }

  lemma AscendingInsert<K, V>(cmp: (K, K) -> int, a: seq<Entry<K, V>>, e: Entry<K, V>, b: seq<Entry<K, V>>)
    requires Ascending(cmp, a + b) && AllBelow(cmp, a, e.key) && AllAbove(cmp, e.key, b)
    ensures Ascending(cmp, a + [e] + b)
  {
    var t, n := a + [e] + b, |a|;
    assert t[n] == e;
    forall i, j | 0 <= i < j < |t| ensures Less(cmp, t[i].key, t[j].key) {
      if i == n {
        assert t[j] == b[j - n - 1];
      } else if j == n {
        assert t[i] == a[i];
      } else {
        assert t[i] == (a + b)[if i < n then i else i - 1] && t[j] == (a + b)[if j < n then j else j - 1];
      }
    }
  }

  /** Inserting an entry between smaller and greater ones adds exactly that binding. */
  lemma IndexAround<K(!new), V>(cmp: (K, K) -> int, a: seq<Entry<K, V>>, e: Entry<K, V>, b: seq<Entry<K, V>>)
    requires IsTotalOrder(cmp) && Ascending(cmp, a + [e] + b)
    ensures e.key !in Index(a + b) && Index(a + [e] + b) == Index(a + b)[e.key := e]
  {
    AscendingAround(cmp, a, e, b);
    AscendingIsDistinct(cmp, a + b);
    AscendingIsDistinct(cmp, a + [e] + b);
    IndexSplit(a, b);
    IndexSplit(a + [e], b);
    DistinctParts(a + [e], b);
    IndexSplit(a, [e]);
    assert Index([e]) == map[e.key := e];
  }

  /** The hole of `ctx` is where `k` belongs. */
  ghost predicate IsPlaceOf<K, V>(cmp: (K, K) -> int, ctx: Context<K, V>, k: K) {
    AllBelow(cmp, ctx.Before(), k) && AllAbove(cmp, k, ctx.After())
  }

  lemma SeqAround<X>(a: seq<X>, l: seq<X>, e: X, r: seq<X>, b: seq<X>)
    ensures a + (l + [e] + r) + b == (a + l) + [e] + (r + b)
    ensures a + (l + r) + b == (a + l) + (r + b)
  {
  }

  lemma EntriesOf<K, V>(t: Tree<K, V>)
    requires t.Branch?
    ensures t.Entries() == t.left.Entries() + [Entry(t.node, t.key, t.value)] + t.right.Entries()
  {
  }

  /** The entries before and after a node. */
  lemma EntriesAround<K, V>(ctx: Context<K, V>, t: Tree<K, V>)
    requires t.Branch?
    ensures ctx.Plug(t).Entries() ==
            (ctx.Before() + t.left.Entries()) + [Entry(t.node, t.key, t.value)] + (t.right.Entries() + ctx.After())
  {
    hide *;
    PlugEntries(ctx, t);
    EntriesOf(t);
    SeqAround(ctx.Before(), t.left.Entries(), Entry(t.node, t.key, t.value), t.right.Entries(), ctx.After());
  }

  lemma InnerBounds<K, V>(cmp: (K, K) -> int, a: seq<Entry<K, V>>, l: seq<Entry<K, V>>, k: K, r: seq<Entry<K, V>>,
                          b: seq<Entry<K, V>>)
    requires AllBelow(cmp, a + l, k) && AllAbove(cmp, k, r + b)
    ensures AllBelow(cmp, l, k) && AllAbove(cmp, k, r)
  {
    assert forall i :: 0 <= i < |l| ==> (a + l)[|a| + i] == l[i];
    assert forall i :: 0 <= i < |r| ==> (r + b)[i] == r[i];
  }

  lemma AroundNode<K, V>(cmp: (K, K) -> int, ctx: Context<K, V>, t: Tree<K, V>)
    requires Ascending(cmp, ctx.Plug(t).Entries()) && t.Branch?
    ensures AllBelow(cmp, t.left.Entries(), t.key) && AllAbove(cmp, t.key, t.right.Entries())
  {
    hide *;
    EntriesAround(ctx, t);
    var e := Entry(t.node, t.key, t.value);
    AscendingAround(cmp, ctx.Before() + t.left.Entries(), e, t.right.Entries() + ctx.After());
    InnerBounds(cmp, ctx.Before(), t.left.Entries(), t.key, t.right.Entries(), ctx.After());
  }

  lemma Descend<K(!new), V>(cmp: (K, K) -> int, ctx: Context<K, V>, t: Tree<K, V>, s: Side, k: K)
    requires IsTotalOrder(cmp) && Ascending(cmp, ctx.Plug(t).Entries()) && t.Branch? && IsPlaceOf(cmp, ctx, k)
    requires if s == L then Less(cmp, k, t.key) else Less(cmp, t.key, k)
    ensures IsPlaceOf(cmp, Down(ctx, t, s), k)
  {
    AroundNode(cmp, ctx, t);
    DownParts(ctx, t, s);
    hide Down, Context.Before, Context.After, Tree.Entries, Context.Plug, Ascending;
    var e := Entry(t.node, t.key, t.value);
    if s == L {
      AboveMore(cmp, k, e, t.right.Entries(), ctx.After());
    } else {
      BelowMore(cmp, ctx.Before(), t.left.Entries(), e, k);
    }
  }

  lemma DownParts<K, V>(ctx: Context<K, V>, t: Tree<K, V>, s: Side)
    requires t.Branch?
    ensures var e, d := Entry(t.node, t.key, t.value), Down(ctx, t, s);
      if s == L then d.Before() == ctx.Before() && d.After() == [e] + t.right.Entries() + ctx.After()
      else d.Before() == ctx.Before() + t.left.Entries() + [e] && d.After() == ctx.After()
  {
  }

  lemma AboveMore<K(!new), V>(cmp: (K, K) -> int, k: K, e: Entry<K, V>, r: seq<Entry<K, V>>, b: seq<Entry<K, V>>)
    requires IsTotalOrder(cmp) && Less(cmp, k, e.key) && AllAbove(cmp, e.key, r) && AllAbove(cmp, k, b)
    ensures AllAbove(cmp, k, [e] + r + b)
  {
  }

  lemma BelowMore<K(!new), V>(cmp: (K, K) -> int, a: seq<Entry<K, V>>, l: seq<Entry<K, V>>, e: Entry<K, V>, k: K)
    requires IsTotalOrder(cmp) && AllBelow(cmp, a, k) && AllBelow(cmp, l, e.key) && Less(cmp, e.key, k)
    ensures AllBelow(cmp, a + l + [e], k)
  {
  }

  /** The side of a key's place is the side lookupOrCreate links the new node on. */
  lemma ParentSideOf<K(!new), V>(cmp: (K, K) -> int, ctx: Context<K, V>, k: K)
    requires IsTotalOrder(cmp) && IsPlaceOf(cmp, ctx, k) && ctx.Hole?
    ensures ctx.side == L <==> Less(cmp, k, ctx.key)
  {
    if ctx.side == L {
      assert ctx.After()[0].key == ctx.key;
    } else {
      assert ctx.Before()[|ctx.Before()| - 1].key == ctx.key;
      assert Less(cmp, ctx.key, k);
    }
  }

  lemma LinkSide<K(!new), V>(cmp: (K, K) -> int, ctx: Context<K, V>, k: K, m: map<Node<K, V>, Cell<K, V>>)
    requires IsTotalOrder(cmp) && IsPlaceOf(cmp, ctx, k) && ctx.Hole?
    requires ctx.Plug(Leaf).Distinct() && m == Layout(ctx.Plug(Leaf), null)
    ensures ctx.node in m && (ctx.side == L <==> Less(cmp, k, m[ctx.node].key))
  {
    CellAt(ctx.up, ctx.Fill(Leaf));
    hide Layout;
    ParentSideOf(cmp, ctx, k);
  }

  /** A key whose place is empty is unbound. */
  lemma PlaceIsUnbound<K(!new), V>(cmp: (K, K) -> int, ctx: Context<K, V>, k: K)
    requires IsTotalOrder(cmp) && IsPlaceOf(cmp, ctx, k) && Ascending(cmp, ctx.Plug(Leaf).Entries())
    ensures k !in Index(ctx.Plug(Leaf).Entries())
  {
    var s := ctx.Plug(Leaf).Entries();
    PlugEntries(ctx, Leaf);
    AscendingIsDistinct(cmp, s);
    IndexKeys(s, k);
    assert s == ctx.Before() + ctx.After();
    forall i | 0 <= i < |s| ensures s[i].key != k {
      assert cmp(k, k) == 0;
      if i < |ctx.Before()| {
        assert Less(cmp, ctx.Before()[i].key, k);
      } else {
        assert Less(cmp, k, ctx.After()[i - |ctx.Before()|].key);
      }
    }
  }

  /** Filling the place of an unbound key binds it and changes nothing else. */
  lemma FillPlace<K(!new), V>(cmp: (K, K) -> int, ctx: Context<K, V>, t: Tree<K, V>)
    requires t.Branch? && t.left == t.right == Leaf
    requires IsTotalOrder(cmp) && IsPlaceOf(cmp, ctx, t.key) && Ascending(cmp, ctx.Plug(Leaf).Entries())
    ensures Ascending(cmp, ctx.Plug(t).Entries())
    ensures Index(ctx.Plug(t).Entries()) == Index(ctx.Plug(Leaf).Entries())[t.key := Entry(t.node, t.key, t.value)]
  {
    var e := Entry(t.node, t.key, t.value);
    PlugEntries(ctx, Leaf);
    PlugEntries(ctx, t);
    assert t.Entries() == [e];
    assert ctx.Before() + [] + ctx.After() == ctx.Before() + ctx.After();
    AscendingInsert(cmp, ctx.Before(), e, ctx.After());
    IndexAround(cmp, ctx.Before(), e, ctx.After());
  }

  /** The binding of a node, and the bindings without it. */
  lemma NodeBinding<K(!new), V>(cmp: (K, K) -> int, ctx: Context<K, V>, t: Tree<K, V>)
    requires IsTotalOrder(cmp) && Ascending(cmp, ctx.Plug(t).Entries()) && t.Branch?
    ensures var e := Entry(t.node, t.key, t.value);
      var rest := ctx.Before() + (t.left.Entries() + t.right.Entries()) + ctx.After();
      && Ascending(cmp, rest) && e.key !in Index(rest)
      && Index(ctx.Plug(t).Entries()) == Index(rest)[e.key := e]
  {
    hide *;
    EntriesAround(ctx, t);
    var e := Entry(t.node, t.key, t.value);
    var a, b := ctx.Before() + t.left.Entries(), t.right.Entries() + ctx.After();
    SeqAround(ctx.Before(), t.left.Entries(), e, t.right.Entries(), ctx.After());
    AscendingAround(cmp, a, e, b);
    IndexAround(cmp, a, e, b);
  }

  /** The finite map from keys to values. */
  function Values<K, V>(s: seq<Entry<K, V>>): map<K, V> {
    map k | k in Index(s) :: Index(s)[k].value
  }

  /** A key is bound exactly when an entry has it, and to that entry's value. */
  lemma ValuesAre<K(!new), V>(s: seq<Entry<K, V>>, k: K, v: V)
    requires NoDuplicates(s)
    ensures k in Values(s) && Values(s)[k] == v <==> exists i :: 0 <= i < |s| && s[i].key == k && s[i].value == v
  {
    IndexKeys(s, k);
  }

  lemma ValuesWithout<K(!new), V>(cmp: (K, K) -> int, a: seq<Entry<K, V>>, e: Entry<K, V>, b: seq<Entry<K, V>>)
    requires IsTotalOrder(cmp) && Ascending(cmp, a + [e] + b)
    ensures Ascending(cmp, a + b) && Values(a + b) == Values(a + [e] + b) - {e.key}
  {
    AscendingAround(cmp, a, e, b);
    IndexAround(cmp, a, e, b);
  }

  /** Moving a key's predecessor into its node, and dropping the predecessor's own node. */
  lemma ValuesMoved<K(!new), V>(cmp: (K, K) -> int, a: seq<Entry<K, V>>, p: Entry<K, V>, e: Entry<K, V>,
                                b: seq<Entry<K, V>>)
    requires IsTotalOrder(cmp) && Ascending(cmp, a + [p] + [e] + b)
    ensures var s := a + [Entry(e.node, p.key, p.value)] + b;
      Ascending(cmp, s) && Values(s) == Values(a + [p] + [e] + b) - {e.key}
  {
    var p' := Entry(e.node, p.key, p.value);
    ValuesWithout(cmp, a + [p], e, b);
    AscendingAround(cmp, a, p, b);
    IndexAround(cmp, a, p, b);
    AscendingInsert(cmp, a, p', b);
    IndexAround(cmp, a, p', b);
  }

  lemma OnlyChildEntries<K, V>(t: Tree<K, V>, c: Tree<K, V>)
    requires OnlyChild(t, c)
    ensures t.Branch? && t.left.Entries() + t.right.Entries() == c.Entries()
  {
    assert t.left.Entries() + [] == t.left.Entries();
    assert [] + t.right.Entries() == t.right.Entries();
  }

  /** Cutting out a node with at most one child unbinds its key. */
  lemma CutOutValues<K(!new), V>(cmp: (K, K) -> int, ctx: Context<K, V>, t: Tree<K, V>, c: Tree<K, V>)
    requires IsTotalOrder(cmp) && Ascending(cmp, ctx.Plug(t).Entries()) && OnlyChild(t, c)
    ensures Ascending(cmp, ctx.Plug(c).Entries())
    ensures Values(ctx.Plug(c).Entries()) == Values(ctx.Plug(t).Entries()) - {t.key}
  {
    OnlyChildEntries(t, c);
    hide *;
    EntriesAround(ctx, t);
    PlugEntries(ctx, c);
    var e := Entry(t.node, t.key, t.value);
    var a, b := ctx.Before() + t.left.Entries(), t.right.Entries() + ctx.After();
    SeqAround(ctx.Before(), t.left.Entries(), e, t.right.Entries(), ctx.After());
    ValuesWithout(cmp, a, e, b);
  }

  /** `t` with the binding of its predecessor, which it has when it has a left child. */
  function WithPredecessor<K, V>(t: Tree<K, V>): Tree<K, V>
    requires t.Branch? && t.left.Branch?
  {
    var b := RightMostTree(t.left);
    t.(key := b.key, value := b.value)
  }

  function PredecessorContext<K, V>(ctx: Context<K, V>, t: Tree<K, V>): Context<K, V>
    requires t.Branch? && t.left.Branch?
  {
    RightMostContext(Down(ctx, WithPredecessor(t), L), t.left)
  }

  lemma PredecessorShape<K, V>(ctx: Context<K, V>, t: Tree<K, V>)
    requires IsRedBlack(ctx.Plug(t)) && t.Branch? && t.left.Branch?
    ensures IsRedBlack(ctx.Plug(WithPredecessor(t)))
    ensures PredecessorContext(ctx, t).Plug(RightMostTree(t.left)) == ctx.Plug(WithPredecessor(t))
  {
    var h := Unplug(ctx, t);
    PlugIsRedBlack(ctx, WithPredecessor(t), h);
    RightMostPlug(Down(ctx, WithPredecessor(t), L), t.left);
  }

  lemma SeqAgain<X>(a: seq<X>, e: X, b: seq<X>)
    ensures a + ([e] + b) == a + [e] + b
  {
  }

  /** What surrounds the predecessor. */
  lemma PredecessorParts<K, V>(ctx: Context<K, V>, t: Tree<K, V>)
    requires t.Branch? && t.left.Branch?
    ensures var c, b := PredecessorContext(ctx, t), RightMostTree(t.left);
      && c.Before() + b.left.Entries() + [Entry(b.node, b.key, b.value)] == ctx.Before() + t.left.Entries()
      && c.After() == [Entry(t.node, b.key, b.value)] + (t.right.Entries() + ctx.After())
  {
    hide RightMostContext, RightMostTree;
    var d := Down(ctx, WithPredecessor(t), L);
    RightMostPlug(d, t.left);
    assert d.After() == [Entry(t.node, d.key, d.value)] + t.right.Entries() + ctx.After();
  }

  /** The entries before and after the removal of the predecessor's node. */
  lemma PredecessorEntries<K, V>(ctx: Context<K, V>, t: Tree<K, V>)
    requires t.Branch? && t.left.Branch?
    ensures var c, b := PredecessorContext(ctx, t), RightMostTree(t.left);
      var front, back := c.Before() + b.left.Entries(), t.right.Entries() + ctx.After();
      && ctx.Plug(t).Entries() ==
         front + [Entry(b.node, b.key, b.value)] + [Entry(t.node, t.key, t.value)] + back
      && c.Plug(b.left).Entries() == front + [Entry(t.node, b.key, b.value)] + back
  {
    hide *;
    var c, b := PredecessorContext(ctx, t), RightMostTree(t.left);
    PredecessorParts(ctx, t);
    EntriesAround(ctx, t);
    PlugEntries(c, b.left);
    SeqAgain(c.Before() + b.left.Entries(), Entry(t.node, b.key, b.value), t.right.Entries() + ctx.After());
  }

  /** Moving the predecessor's binding up and cutting out its node unbinds the key that was there. */
  lemma PredecessorValues<K(!new), V>(cmp: (K, K) -> int, ctx: Context<K, V>, t: Tree<K, V>)
    requires IsTotalOrder(cmp) && Ascending(cmp, ctx.Plug(t).Entries()) && t.Branch? && t.left.Branch?
    ensures var c, b := PredecessorContext(ctx, t), RightMostTree(t.left);
      && Ascending(cmp, c.Plug(b.left).Entries())
      && Values(c.Plug(b.left).Entries()) == Values(ctx.Plug(t).Entries()) - {t.key}
  {
    hide *;
    var c, b := PredecessorContext(ctx, t), RightMostTree(t.left);
    var e, p := Entry(t.node, t.key, t.value), Entry(b.node, b.key, b.value);
    var front, back := c.Before() + b.left.Entries(), t.right.Entries() + ctx.After();
    PredecessorEntries(ctx, t);
    ValuesMoved(cmp, front, p, e, back);
  }

  /** Every node has a place in the tree. */
  lemma {:induction false} Locate<K, V>(ctx: Context<K, V>, t: Tree<K, V>, n: Node<K, V>)
    returns (c: Context<K, V>, u: Tree<K, V>)
    requires n in t.Nodes()
    ensures c.Plug(u) == ctx.Plug(t) && u.Branch? && u.node == n
    decreases t
  {
    if n == t.node {
      c, u := ctx, t;
    } else if n in t.left.Nodes() {
      c, u := Locate(Down(ctx, t, L), t.left, n);
    } else {
      c, u := Locate(Down(ctx, t, R), t.right, n);
    }
  }

  /** Every entry has a place in the tree. */
  lemma {:induction false} LocateEntry<K, V>(ctx: Context<K, V>, t: Tree<K, V>, i: nat)
    returns (c: Context<K, V>, u: Tree<K, V>)
    requires i < |t.Entries()|
    ensures c.Plug(u) == ctx.Plug(t) && u.Branch? && t.Entries()[i] == Entry(u.node, u.key, u.value)
    decreases t
  {
    var n := |t.left.Entries()|;
    if i == n {
      c, u := ctx, t;
    } else if i < n {
      c, u := LocateEntry(Down(ctx, t, L), t.left, i);
    } else {
      c, u := LocateEntry(Down(ctx, t, R), t.right, i - n - 1);
    }
  }

  lemma StoreShape<K, V>(ctx: Context<K, V>, t: Tree<K, V>, v: V)
    requires t.Branch? && IsRedBlack(ctx.Plug(t))
    ensures IsRedBlack(ctx.Plug(t.(value := v)))
  {
    var h := Unplug(ctx, t);
    PlugIsRedBlack(ctx, t.(value := v), h);
  }

  lemma ValuesRebound<K(!new), V>(cmp: (K, K) -> int, a: seq<Entry<K, V>>, e: Entry<K, V>, v: V, b: seq<Entry<K, V>>)
    requires IsTotalOrder(cmp) && Ascending(cmp, a + [e] + b)
    ensures var s := a + [Entry(e.node, e.key, v)] + b;
      && Ascending(cmp, s) && Index(s) == Index(a + [e] + b)[e.key := Entry(e.node, e.key, v)]
      && Values(s) == Values(a + [e] + b)[e.key := v]
  {
    hide IsTotalOrder, Ascending, Index;
    var e' := Entry(e.node, e.key, v);
    AscendingAround(cmp, a, e, b);
    AscendingInsert(cmp, a, e', b);
    IndexAround(cmp, a, e, b);
    IndexAround(cmp, a, e', b);
  }

  /** Storing a value in a node rebinds its key and changes nothing else. */
  lemma StoreValue<K(!new), V>(cmp: (K, K) -> int, ctx: Context<K, V>, t: Tree<K, V>, v: V)
    requires IsTotalOrder(cmp) && Ascending(cmp, ctx.Plug(t).Entries()) && t.Branch? && IsRedBlack(ctx.Plug(t))
    ensures var r := ctx.Plug(t.(value := v));
      && IsRedBlack(r) && Ascending(cmp, r.Entries())
      && Index(r.Entries()) == Index(ctx.Plug(t).Entries())[t.key := Entry(t.node, t.key, v)]
      && Values(r.Entries()) == Values(ctx.Plug(t).Entries())[t.key := v]
  {
    hide *;
    StoreShape(ctx, t, v);
    EntriesAround(ctx, t);
    EntriesAround(ctx, t.(value := v));
    ValuesRebound(cmp, ctx.Before() + t.left.Entries(), Entry(t.node, t.key, t.value), v,
                  t.right.Entries() + ctx.After());
  }

  // -------------------------------------------------------------------- copying

  /** `t'` has the shape and colours of `t`, its keys and values copied by `fk` and `fv`. */
  ghost predicate IsCopy<K, V>(t: Tree<K, V>, t': Tree<K, V>, fk: K -> K, fv: V -> V)
    decreases t
  {
    match (t, t')
    case (Leaf, Leaf) => true
    case (Branch(_, c, k, v, l, r), Branch(_, c', k', v', l', r')) =>
      c' == c && k' == fk(k) && v' == fv(v) && IsCopy(l, l', fk, fv) && IsCopy(r, r', fk, fv)
    case _ => false
  }

  lemma CopyJoin<K, V>(t: Tree<K, V>, t': Tree<K, V>, fk: K -> K, fv: V -> V)
    requires t.Branch? && t'.Branch? && t'.color == t.color && t'.key == fk(t.key) && t'.value == fv(t.value)
    requires IsCopy(t.left, t'.left, fk, fv) && IsCopy(t.right, t'.right, fk, fv)
    ensures IsCopy(t, t', fk, fv) && t'.Root() == t'.node
  {
  }

  lemma {:induction false} CopyKeepsColours<K, V>(t: Tree<K, V>, t': Tree<K, V>, fk: K -> K, fv: V -> V, h: nat)
    requires IsCopy(t, t', fk, fv) && RB(t, h)
    ensures RB(t', h) && t'.RootColor() == t.RootColor()
  {
    if t.Branch? {
      var g := if t.color == Red then h else h - 1;
      CopyKeepsColours(t.left, t'.left, fk, fv, g);
      CopyKeepsColours(t.right, t'.right, fk, fv, g);
    }
  }

  lemma {:induction false} CopyEntries<K, V>(t: Tree<K, V>, t': Tree<K, V>, fk: K -> K, fv: V -> V)
    requires IsCopy(t, t', fk, fv)
    ensures |t'.Entries()| == |t.Entries()|
    ensures forall i :: 0 <= i < |t.Entries()| ==>
      t'.Entries()[i].key == fk(t.Entries()[i].key) && t'.Entries()[i].value == fv(t.Entries()[i].value)
  {
    if t.Branch? {
      CopyEntries(t.left, t'.left, fk, fv);
      CopyEntries(t.right, t'.right, fk, fv);
    }
  }

  ghost predicate OrderPreserving<K(!new)>(cmp: (K, K) -> int, fk: K -> K) {
    forall a, b :: Less(cmp, a, b) ==> Less(cmp, fk(a), fk(b))
  }

  /** A copy whose key copies keep their order is a dictionary again. */
  lemma CopyIsDictionary<K(!new), V>(cmp: (K, K) -> int, t: Tree<K, V>, t': Tree<K, V>, fk: K -> K, fv: V -> V)
    requires IsCopy(t, t', fk, fv) && OrderPreserving(cmp, fk)
    requires IsRedBlack(t) && Ascending(cmp, t.Entries())
    ensures IsRedBlack(t') && Ascending(cmp, t'.Entries())
  {
    var h: nat :| RB(t, h);
    CopyKeepsColours(t, t', fk, fv, h);
    CopyEntries(t, t', fk, fv);
    forall i, j | 0 <= i < j < |t'.Entries()| ensures Less(cmp, t'.Entries()[i].key, t'.Entries()[j].key) {
      assert Less(cmp, t.Entries()[i].key, t.Entries()[j].key);
    }
  }

  /** The bindings of the copy are the copies of the bindings. */
  lemma {:induction false} CopyValues<K, V>(s: seq<Entry<K, V>>, s': seq<Entry<K, V>>, fk: K -> K, fv: V -> V)
    requires |s'| == |s| && NoDuplicates(s) && NoDuplicates(s')
    requires forall i :: 0 <= i < |s| ==> s'[i].key == fk(s[i].key) && s'[i].value == fv(s[i].value)
    ensures Values(s').Keys == set k | k in Values(s).Keys :: fk(k)
    ensures forall k | k in Values(s) :: Values(s')[fk(k)] == fv(Values(s)[k])
  {
    forall k | k in Values(s) ensures fk(k) in Values(s') && Values(s')[fk(k)] == fv(Values(s)[k]) {
      IndexKeys(s, k);
      IndexKeys(s', fk(k));
      var i :| 0 <= i < |s| && s[i].key == k;
      assert s'[i].key == fk(k);
    }
    forall k' | k' in Values(s') ensures exists k :: k in Values(s) && k' == fk(k) {
      IndexKeys(s', k');
      var i :| 0 <= i < |s'| && s'[i].key == k';
      IndexKeys(s, s[i].key);
    }
  }

  lemma CopiedValues<K(!new), V>(cmp: (K, K) -> int, t: Tree<K, V>, t': Tree<K, V>, fk: K -> K, fv: V -> V)
    requires IsTotalOrder(cmp) && IsCopy(t, t', fk, fv) && OrderPreserving(cmp, fk)
    requires IsRedBlack(t) && Ascending(cmp, t.Entries())
    ensures IsRedBlack(t') && Ascending(cmp, t'.Entries())
    ensures Values(t'.Entries()).Keys == set k | k in Values(t.Entries()).Keys :: fk(k)
    ensures forall k | k in Values(t.Entries()) :: Values(t'.Entries())[fk(k)] == fv(Values(t.Entries())[k])
  {
    CopyIsDictionary(cmp, t, t', fk, fv);
    CopyEntries(t, t', fk, fv);
    AscendingIsDistinct(cmp, t.Entries());
    AscendingIsDistinct(cmp, t'.Entries());
    CopyValues(t.Entries(), t'.Entries(), fk, fv);
  }

  // -------------------------------------------------------------------- folding

  function FoldEntries<K, V, T>(s: seq<Entry<K, V>>, init: T, f: (K, V, T) -> T): T {
    if s == [] then init else f(s[0].key, s[0].value, FoldEntries(s[1..], init, f))
  }

  lemma {:induction false} FoldSplit<K, V, T>(a: seq<Entry<K, V>>, b: seq<Entry<K, V>>, init: T, f: (K, V, T) -> T)
    ensures FoldEntries(a + b, init, f) == FoldEntries(a, FoldEntries(b, init, f), f)
  {
    if a == [] {
      assert a + b == b;
    } else {
      assert (a + b)[1..] == a[1..] + b;
      FoldSplit(a[1..], b, init, f);
    }
  }

  lemma FoldOne<K, V, T>(e: Entry<K, V>, s: seq<Entry<K, V>>, init: T, f: (K, V, T) -> T)
    ensures FoldEntries([e] + s, init, f) == f(e.key, e.value, FoldEntries(s, init, f))
  {
    assert ([e] + s)[1..] == s;
  }

  function Keys<K, V>(s: seq<Entry<K, V>>): seq<K> {
    if s == [] then [] else [s[0].key] + Keys(s[1..])
  }

  lemma {:induction false} FoldToKeys<K, V>(s: seq<Entry<K, V>>, f: (K, V, seq<K>) -> seq<K>)
    requires forall k, v, r :: f(k, v, r) == [k] + r
    ensures FoldEntries(s, [], f) == Keys(s)
  {
    if s != [] {
      FoldToKeys(s[1..], f);
    }
  }

  /** The keys of a dictionary's entries: ascending, and those of the finite map. */
  lemma {:induction false} KeysAscend<K, V>(cmp: (K, K) -> int, s: seq<Entry<K, V>>)
    requires Ascending(cmp, s)
    ensures |Keys(s)| == |s| && forall i :: 0 <= i < |s| ==> Keys(s)[i] == s[i].key
    ensures forall i, j :: 0 <= i < j < |s| ==> Less(cmp, Keys(s)[i], Keys(s)[j])
    ensures forall k :: k in Keys(s) <==> k in Values(s)
  {
    if s != [] {
      KeysAscend(cmp, s[1..]);
    }
  }

  lemma FoldBranch<K, V, T>(t: Tree<K, V>, init: T, f: (K, V, T) -> T)
    requires t.Branch?
    ensures FoldEntries(t.Entries(), init, f) ==
            FoldEntries(t.left.Entries(), f(t.key, t.value, FoldEntries(t.right.Entries(), init, f)), f)
  {
    hide *;
    var e, l, r := Entry(t.node, t.key, t.value), t.left.Entries(), t.right.Entries();
    EntriesOf(t);
    assert l + [e] + r == l + ([e] + r);
    FoldSplit(l, [e] + r, init, f);
    FoldOne(e, r, init, f);
  }

  // --------------------------------------------------------------------- height

  function Pow2(n: nat): nat {
    if n == 0 then 1 else 2 * Pow2(n - 1)
  }

  lemma Associate(a: nat, b: nat, c: nat)
    ensures a * (b * c) == a * b * c
  {
  }

  lemma {:induction false} Pow2Add(a: nat, b: nat)
    ensures Pow2(a + b) == Pow2(a) * Pow2(b)
  {
    if a > 0 {
      Pow2Add(a - 1, b);
      Associate(2, Pow2(a - 1), Pow2(b));
    }
  }

  lemma {:induction false} Pow2Monotone(a: nat, b: nat)
    requires a <= b
    ensures Pow2(a) <= Pow2(b)
  {
    if a < b {
      Pow2Monotone(a, b - 1);
    }
  }

  lemma {:induction false} BlackHeightBounds<K, V>(t: Tree<K, V>, h: nat)
    requires RB(t, h)
    ensures Pow2(h) <= |t.Entries()| + 1
    ensures t.Height() <= if t.RootColor() == Red then 2 * h + 1 else 2 * h
  {
    if t.Branch? {
      var g := if t.color == Red then h else h - 1;
      BlackHeightBounds(t.left, g);
      BlackHeightBounds(t.right, g);
    }
  }

  lemma Square(a: nat, b: nat)
    requires a <= b
    ensures a * a <= b * b
  {
    assert a * a <= a * b <= b * b;
  }

  /** The height of a dictionary of n entries is at most 2 log2(n + 1). */
  lemma HeightIsLogarithmic<K, V>(t: Tree<K, V>)
    requires IsRedBlack(t)
    ensures Pow2(t.Height()) <= (|t.Entries()| + 1) * (|t.Entries()| + 1)
  {
    var h: nat :| RB(t, h);
    BlackHeightBounds(t, h);
    Pow2Monotone(t.Height(), h + h);
    Pow2Add(h, h);
    Square(Pow2(h), |t.Entries()| + 1);
  }
}
