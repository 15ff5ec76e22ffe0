/** The singly linked list with removable iterators. */
module ManagedList {

  class ListNode<T> {
    var next: ListNode?<T>
    var item: T

    constructor (next: ListNode?<T>, item: T)
      ensures this.next == next && this.item == item
    {
      this.next, this.item := next, item;
    }
  }

  /** removable_iterator: the node it is at, and the one before. */
  datatype Iterator<T> = Iterator(node: ListNode?<T>, prev: ListNode?<T>)

  // --------------------------------------------------------------- the spine, as a value

  /** The i-th node, or null where there is none. */
  ghost function At<T>(nodes: seq<ListNode<T>>, i: int): ListNode?<T> {
    if 0 <= i < |nodes| then nodes[i] else null
  }

  ghost predicate Distinct<T>(nodes: seq<ListNode<T>>) {
    forall i, j | 0 <= i < j < |nodes| :: nodes[i] != nodes[j]
  }

  /** Each node leads to the next. */
  ghost predicate Linked<T>(nodes: seq<ListNode<T>>, nexts: seq<ListNode?<T>>) {
    |nexts| == |nodes| && forall i | 0 <= i < |nodes| :: nexts[i] == At(nodes, i + 1)
  }

  /** Each node leads to the next, and the ends are known. */
  ghost predicate Shape<T>(nodes: seq<ListNode<T>>, nexts: seq<ListNode?<T>>, first: ListNode?<T>, last: ListNode?<T>) {
    Distinct(nodes) && Linked(nodes, nexts) && first == At(nodes, 0) && last == At(nodes, |nodes| - 1)
  }

  ghost function Without<T>(s: seq<T>, i: nat): (r: seq<T>)
    requires i < |s|
    ensures |r| == |s| - 1
  {
    s[..i] + s[i + 1..]
  }

  ghost function With<T>(s: seq<T>, i: nat, x: T): (r: seq<T>)
    requires i <= |s|
    ensures |r| == |s| + 1
  {
    s[..i] + [x] + s[i..]
  }

  lemma WithoutDistinct<T>(nodes: seq<ListNode<T>>, i: nat)
    requires Distinct(nodes) && i < |nodes|
    ensures Distinct(Without(nodes, i)) && nodes[i] !in Without(nodes, i)
  {
  }

  lemma WithoutAt<T>(nodes: seq<ListNode<T>>, i: nat, j: int)
    requires i < |nodes|
    ensures At(Without(nodes, i), j) == if j < i then At(nodes, j) else At(nodes, j + 1)
  {
  }

  lemma RemoveLinks<T>(nodes: seq<ListNode<T>>, nexts: seq<ListNode?<T>>, i: nat)
    requires Linked(nodes, nexts) && i < |nodes|
    ensures Linked(Without(nodes, i), Without(if i == 0 then nexts else nexts[i - 1 := nexts[i]], i))
  {
    hide At;
    var ns, xs := Without(nodes, i), Without(if i == 0 then nexts else nexts[i - 1 := nexts[i]], i);
    forall j | 0 <= j < |ns| ensures xs[j] == At(ns, j + 1) {
      WithoutAt(nodes, i, j + 1);
    }
  }

  lemma RemoveShape<T>(nodes: seq<ListNode<T>>, nexts: seq<ListNode?<T>>, first: ListNode?<T>, last: ListNode?<T>,
                       i: nat)
    requires Shape(nodes, nexts, first, last) && i < |nodes|
    ensures var changed := if i == 0 then nexts else nexts[i - 1 := nexts[i]];
      Shape(Without(nodes, i), Without(changed, i), if i == 0 then nexts[0] else first,
            if nodes[i] == last then At(nodes, i - 1) else last)
    ensures At(Without(nodes, i), i) == nexts[i] && At(Without(nodes, i), i - 1) == At(nodes, i - 1)
    ensures nodes[i] !in Without(nodes, i)
  {
    assert nexts[i] == At(nodes, i + 1) && nexts[0] == At(nodes, 1);
    assert nodes[i] == last <==> i == |nodes| - 1;
    hide Distinct, Linked, At, Without;
    WithoutDistinct(nodes, i);
    WithoutAt(nodes, i, 0);
    WithoutAt(nodes, i, i);
    WithoutAt(nodes, i, i - 1);
    WithoutAt(nodes, i, |nodes| - 2);
    RemoveLinks(nodes, nexts, i);
  }

  lemma WithDistinct<T>(nodes: seq<ListNode<T>>, i: nat, n: ListNode<T>)
    requires Distinct(nodes) && i <= |nodes| && n !in nodes
    ensures Distinct(With(nodes, i, n))
  {
  }

  lemma WithAt<T>(nodes: seq<ListNode<T>>, i: nat, n: ListNode<T>, j: int)
    requires i <= |nodes|
    ensures At(With(nodes, i, n), j) == if j < i then At(nodes, j) else if j == i then n else At(nodes, j - 1)
  {
  }

  lemma InsertLinks<T>(nodes: seq<ListNode<T>>, nexts: seq<ListNode?<T>>, i: nat, n: ListNode<T>)
    requires Linked(nodes, nexts) && i <= |nodes|
    ensures Linked(With(nodes, i, n), With(if i == 0 then nexts else nexts[i - 1 := n], i, At(nodes, i)))
  {
    hide At;
    var ns, xs := With(nodes, i, n), With(if i == 0 then nexts else nexts[i - 1 := n], i, At(nodes, i));
    WithAt(nodes, i, n, i);
    forall j | 0 <= j < |ns| ensures xs[j] == At(ns, j + 1) {
      WithAt(nodes, i, n, j + 1);
    }
  }

  lemma InsertShape<T>(nodes: seq<ListNode<T>>, nexts: seq<ListNode?<T>>, first: ListNode?<T>, last: ListNode?<T>,
                       i: nat, n: ListNode<T>)
    requires Shape(nodes, nexts, first, last) && i <= |nodes| && n !in nodes
    ensures var changed := if i == 0 then nexts else nexts[i - 1 := n];
      Shape(With(nodes, i, n), With(changed, i, At(nodes, i)), if i == 0 then n else first,
            if i == |nodes| then n else last)
    ensures At(With(nodes, i, n), i + 1) == At(nodes, i) && At(With(nodes, i, n), i) == n
  {
    hide Distinct, Linked, At, With;
    WithDistinct(nodes, i, n);
    WithAt(nodes, i, n, 0);
    WithAt(nodes, i, n, i);
    WithAt(nodes, i, n, i + 1);
    WithAt(nodes, i, n, |nodes|);
    InsertLinks(nodes, nexts, i, n);
  }

  lemma JoinShape<T>(a: seq<ListNode<T>>, xs: seq<ListNode?<T>>, f: ListNode?<T>, l: ListNode?<T>,
                     b: seq<ListNode<T>>, ys: seq<ListNode?<T>>, g: ListNode?<T>, m: ListNode?<T>)
    requires Shape(a, xs, f, l) && Shape(b, ys, g, m) && forall n <- a :: n !in b
    ensures var changed := if a == [] then xs else xs[|a| - 1 := g];
      var first := if a == [] then g else f;
      && (b != [] || a == [] ==> Shape(a + b, changed + ys, first, m))
      && (b == [] && a != [] ==> m == null && !Shape(a + b, changed + ys, first, m))
  {
    var (ns, zs) := (a + b, (if a == [] then xs else xs[|a| - 1 := g]) + ys);
    forall j | 0 <= j < |ns| ensures zs[j] == At(ns, j + 1) {
      if j >= |a| {
        assert zs[j] == ys[j - |a|];
      }
    }
    forall i, j | 0 <= i < j < |ns| ensures ns[i] != ns[j] {
      if i < |a| <= j {
        assert ns[i] in a && ns[j] == b[j - |a|];
      }
    }
  }

  // --------------------------------------------------------------- the list

  ghost function Nexts<T>(nodes: seq<ListNode<T>>): (xs: seq<ListNode?<T>>)
    reads nodes
    ensures |xs| == |nodes|
  {
    seq(|nodes|, i requires 0 <= i < |nodes| reads nodes => nodes[i].next)
  }

  ghost function ItemsOf<T>(nodes: seq<ListNode<T>>): (items: seq<T>)
    reads nodes
    ensures |items| == |nodes|
  {
    seq(|nodes|, i requires 0 <= i < |nodes| reads nodes => nodes[i].item)
  }

  /** One link of a list is changed. */
  method SetNext<T>(ghost nodes: seq<ListNode<T>>, node: ListNode<T>, next: ListNode?<T>, ghost k: nat)
    requires k < |nodes| && nodes[k] == node && Distinct(nodes)
    modifies node`next
    ensures Nexts(nodes) == old(Nexts(nodes))[k := next] && ItemsOf(nodes) == old(ItemsOf(nodes))
  {
    node.next := next;
  }

  /** One link of a list is changed, and none of another list. */
  method SetNextBeside<T>(ghost nodes: seq<ListNode<T>>, ghost others: seq<ListNode<T>>, node: ListNode<T>,
                          next: ListNode?<T>, ghost k: nat)
    requires k < |nodes| && nodes[k] == node && Distinct(nodes) && node !in others
    modifies node`next
    ensures Nexts(nodes) == old(Nexts(nodes))[k := next] && ItemsOf(nodes) == old(ItemsOf(nodes))
    ensures Nexts(others) == old(Nexts(others)) && ItemsOf(others) == old(ItemsOf(others))
  {
    SetNext(nodes, node, next, k);
    forall j | 0 <= j < |others|
      ensures others[j].next == old(others[j].next) && others[j].item == old(others[j].item)
    {
      assert others[j] in others;
    }
  }

  lemma PiecesWithout<T>(nodes: seq<ListNode<T>>, i: nat)
    requires i < |nodes|
    ensures Nexts(Without(nodes, i)) == Without(Nexts(nodes), i) &&
      ItemsOf(Without(nodes, i)) == Without(ItemsOf(nodes), i)
  {
  }

  lemma PiecesWith<T>(nodes: seq<ListNode<T>>, i: nat, n: ListNode<T>)
    requires i <= |nodes|
    ensures Nexts(With(nodes, i, n)) == With(Nexts(nodes), i, n.next)
    ensures ItemsOf(With(nodes, i, n)) == With(ItemsOf(nodes), i, n.item)
  {
  }

  lemma PiecesJoin<T>(a: seq<ListNode<T>>, b: seq<ListNode<T>>)
    ensures Nexts(a + b) == Nexts(a) + Nexts(b) && ItemsOf(a + b) == ItemsOf(a) + ItemsOf(b)
  {
  }

  /** Taking an item out leaves the others in their order. */
  lemma WithoutIs<T>(s: seq<T>, i: nat)
    requires i < |s|
    ensures Without(s, i) == s[..i] + s[i + 1..]
  {
  }

  lemma WithEnd<T>(s: seq<T>, x: T)
    ensures With(s, |s|, x) == s + [x] && With(s, 0, x) == [x] + s
  {
  }

  class MemManagedList<T> {
    var first: ListNode?<T>
    var last: ListNode?<T>

    /** The nodes, in order. */
    ghost var nodes: seq<ListNode<T>>

    ghost predicate Valid()
      reads this, nodes
    {
      Shape(nodes, Nexts(nodes), first, last)
    }

    ghost function Items(): seq<T>
      reads this, nodes
    {
      ItemsOf(nodes)
    }

    /** An iterator at the i-th place; the end is a place too. */
    ghost predicate IsAt(iter: Iterator<T>, i: nat)
      reads this
    {
      i <= |nodes| && iter.node == At(nodes, i) && iter.prev == At(nodes, i - 1)
    }

    constructor ()
      ensures Valid() && Items() == [] && nodes == []
    {
      first, last, nodes := null, null, [];
    }

    /** A node goes between two others, or to an end. */
    method Link(node: ListNode<T>, prev: ListNode?<T>, ghost i: nat)
      requires Valid() && i <= |nodes| && prev == At(nodes, i - 1) && node !in nodes && node.next == At(nodes, i)
      modifies this, nodes`next
      ensures Valid() && nodes == With(old(nodes), i, node) && Items() == With(old(Items()), i, node.item)
    {
      assert Distinct(nodes) && (prev == null <==> i == 0) && (node.next == null <==> i == |nodes|);
      assert i > 0 ==> nodes[i - 1] == prev;
      hide Shape, At, With, Nexts, ItemsOf, Distinct;
      InsertShape(nodes, Nexts(nodes), first, last, i, node);
      PiecesWith(nodes, i, node);
      if prev == null {
        first := node;
      } else {
        SetNext(nodes, prev, node, i - 1);
        PiecesWith(nodes, i, node);
      }
      if node.next == null {
        last := node;
      }
      nodes := With(nodes, i, node);
    }

    /** insert_before: the iterator stays at its node. */
    method InsertBefore(iter: Iterator<T>, item: T, ghost i: nat) returns (next: Iterator<T>)
      requires Valid() && IsAt(iter, i)
      modifies this, nodes`next
      ensures Valid() && Items() == With(old(Items()), i, item) && IsAt(next, i + 1)
      ensures Items() == old(Items())[..i] + [item] + old(Items())[i..]
      ensures fresh(set n | n in nodes && n !in old(nodes))
    {
      hide Shape;
      var node := new ListNode(iter.node, item);
      Link(node, iter.prev, i);
      next := Iterator(iter.node, node);
    }

    method PushBack(item: T)
      requires Valid()
      modifies this, nodes`next
      ensures Valid() && Items() == old(Items()) + [item] && fresh(set n | n in nodes && n !in old(nodes))
    {
      EndsAt();
      hide Shape;
      var node := new ListNode(null, item);
      WithEnd(Items(), item);
      Link(node, last, |nodes|);
    }

    method PushFront(item: T)
      requires Valid()
      modifies this, nodes`next
      ensures Valid() && Items() == [item] + old(Items()) && fresh(set n | n in nodes && n !in old(nodes))
    {
      EndsAt();
      hide Shape;
      var node := new ListNode(first, item);
      WithEnd(Items(), item);
      Link(node, null, 0);
    }

    lemma EndsAt()
      requires Valid()
      ensures first == At(nodes, 0) && last == At(nodes, |nodes| - 1)
    {
    }

    method PopFront() returns (result: T)
      requires Valid() && first != null
      modifies this
      ensures Valid() && old(Items()) == [result] + Items() && nodes == old(nodes)[1..]
    {
      FirstIs();
      hide Shape, Nexts, ItemsOf;
      result := first.item;
      first := first.next;
      if first == null {
        last := null;
      }
      nodes := nodes[1..];
    }

    /** The list without its first node. */
    lemma FirstIs()
      requires Valid() && first != null
      ensures nodes != [] && first == nodes[0] && Items() == [first.item] + ItemsOf(nodes[1..])
      ensures Shape(nodes[1..], Nexts(nodes[1..]), first.next, if first.next == null then null else last)
    {
      var links := Nexts(nodes);
      RemoveShape(nodes, links, first, last, 0);
      FirstPieces();
      SecondIs(links);
      hide Shape, Nexts, ItemsOf, Distinct;
    }

    lemma FirstPieces()
      requires nodes != []
      ensures Without(nodes, 0) == nodes[1..] && Nexts(nodes[1..]) == Without(Nexts(nodes), 0)
      ensures Items() == [nodes[0].item] + ItemsOf(nodes[1..])
    {
    }

    /** Nothing follows the first node exactly when it is the last. */
    lemma SecondIs(links: seq<ListNode?<T>>)
      requires Shape(nodes, links, first, last) && first != null && links == Nexts(nodes)
      ensures nodes != [] && first == nodes[0] && links[0] == first.next && (first.next == null <==> first == last)
    {
      assert |nodes| > 1 ==> nodes[0] != nodes[|nodes| - 1];
    }

    method Begin() returns (iter: Iterator<T>)
      requires Valid()
      ensures IsAt(iter, 0)
    {
      iter := Iterator(first, null);
    }

    /** An iterator moves on. */
    method Advance(iter: Iterator<T>, ghost i: nat) returns (next: Iterator<T>)
      requires Valid() && IsAt(iter, i) && iter.node != null
      ensures IsAt(next, i + 1)
    {
      assert Nexts(nodes)[i] == At(nodes, i + 1);
      next := Iterator(iter.node.next, iter.node);
    }

    /** remove: the iterator is at the next place then. */
    method Remove(iter: Iterator<T>, ghost i: nat) returns (next: Iterator<T>)
      requires Valid() && IsAt(iter, i) && iter.node != null
      modifies this, nodes`next
      ensures Valid() && nodes == Without(old(nodes), i) && IsAt(next, i) && iter.node !in nodes
      ensures Items() == old(Items())[..i] + old(Items())[i + 1..]
    {
      hide Valid, Items, Without;
      HasItem(iter, i);
      WithoutIs(Items(), i);
      next := Unlink(iter, i);
    }

    lemma HasItem(iter: Iterator<T>, i: nat)
      requires Valid() && IsAt(iter, i) && iter.node != null
      ensures i < |nodes| && i < |Items()|
    {
    }

    /** internalRemove. */
    method Unlink(iter: Iterator<T>, ghost i: nat) returns (next: Iterator<T>)
      requires Valid() && IsAt(iter, i) && iter.node != null
      modifies this, nodes`next
      ensures Valid() && nodes == Without(old(nodes), i) && Items() == Without(old(Items()), i) && IsAt(next, i)
      ensures iter.node !in nodes
    {
      assert Distinct(nodes) && Nexts(nodes)[i] == iter.node.next;
      hide Shape, Without, Nexts, ItemsOf, Distinct;
      RemoveShape(nodes, Nexts(nodes), first, last, i);
      PiecesWithout(nodes, i);
      var node, prev := iter.node, iter.prev;
      if node == last {
        last := prev;
      }
      if prev == null {
        first := node.next;
      } else {
        SetNext(nodes, prev, node.next, i - 1);
        PiecesWithout(nodes, i);
      }
      next := Iterator(node.next, prev);
      nodes := Without(nodes, i);
    }

    lemma LastIs()
      requires Valid()
      ensures Distinct(nodes) && (last == null <==> nodes == []) && (nodes != [] ==> nodes[|nodes| - 1] == last)
    {
    }

    lemma NoItems()
      ensures Items() == [] <==> nodes == []
    {
    }

    /** splice of a whole list: it is right exactly when there is something to splice, or nothing to splice it to. */
    method Splice(source: MemManagedList<T>)
      requires Valid() && source.Valid() && source != this && forall n <- nodes :: n !in source.nodes
      modifies this, nodes`next, source
      ensures source.Valid() && source.Items() == [] && Items() == old(Items() + source.Items())
      ensures Valid() <==> old(source.Items()) != [] || old(Items()) == []
    {
      hide Shape, At, Distinct, Nexts, ItemsOf;
      LastIs();
      JoinShape(nodes, Nexts(nodes), first, last, source.nodes, Nexts(source.nodes), source.first, source.last);
      NoItems();
      source.NoItems();
      if last == null {
        first := source.first;
      } else {
        SetNextBeside(nodes, source.nodes, last, source.first, |nodes| - 1);
      }
      last := source.last;
      PiecesJoin(nodes, source.nodes);
      nodes := nodes + source.nodes;
      source.Forget();
    }

    /** clear: no node is left. */
    method Forget()
      modifies this
      ensures Valid() && Items() == [] && nodes == []
    {
      first, last, nodes := null, null, [];
    }

    /** splice of one node of another list. */
    method SpliceOne(source: MemManagedList<T>, iter: Iterator<T>, ghost i: nat) returns (next: Iterator<T>)
      requires Valid() && source.Valid() && source != this && forall n <- nodes :: n !in source.nodes
      requires source.IsAt(iter, i) && iter.node != null
      modifies this, nodes`next, source, source.nodes`next
      ensures Valid() && source.Valid() && source.IsAt(next, i)
      ensures Items() == old(Items() + [source.Items()[i]])
      ensures source.Items() == old(source.Items()[..i] + source.Items()[i + 1..])
    {
      hide Shape;
      var node := iter.node;
      ghost var was, links := Items(), Nexts(nodes);
      ghost var item := source.ItemAt(i);
      next := source.Remove(iter, i);
      forall k | 0 <= k < |nodes| ensures nodes[k].next == old(nodes[k].next) && nodes[k].item == old(nodes[k].item) {
        assert nodes[k] in nodes;
      }
      assert Nexts(nodes) == links && Items() == was;
      links, was := Nexts(source.nodes), source.Items();
      label Removed:
      Append(node);
      forall k | 0 <= k < |source.nodes|
        ensures source.nodes[k].next == old@Removed(source.nodes[k].next) &&
          source.nodes[k].item == old@Removed(source.nodes[k].item)
      {
        assert source.nodes[k] in source.nodes && source.nodes[k] in old(source.nodes);
        if source.nodes[k] in old(nodes) {
          assert false;
        }
      }
      assert Nexts(source.nodes) == links && source.Items() == was;
    }

    lemma ItemAt(i: nat) returns (item: T)
      requires Valid() && i < |nodes|
      ensures item == Items()[i] == nodes[i].item
    {
      item := nodes[i].item;
    }

    /** A node goes to the end. */
    method Append(node: ListNode<T>)
      requires Valid() && node !in nodes
      modifies this, nodes`next, node`next
      ensures Valid() && nodes == old(nodes) + [node] && Items() == old(Items()) + [node.item]
    {
      EndsAt();
      hide Shape;
      node.next := null;
      WithEnd(Items(), node.item);
      WithEnd(nodes, node);
      Link(node, last, |nodes|);
    }

    method Size() returns (result: nat)
      requires Valid()
      ensures result == |Items()|
    {
      result := 0;
      var node := first;
      while node != null
        invariant result <= |nodes| && node == At(nodes, result)
        decreases |nodes| - result
      {
        assert Nexts(nodes)[result] == At(nodes, result + 1);
        node := node.next;
        result := result + 1;
      }
    }
  }

  /** Splicing an empty list to one that is not forgets its end. */
  method SpliceForgets<T>(a: T) returns (list: MemManagedList<T>)
    ensures list.Items() == [a] && !list.Valid()
  {
    list := new MemManagedList();
    list.PushBack(a);
    var empty := new MemManagedList<T>();
    list.Splice(empty);
  }
}
