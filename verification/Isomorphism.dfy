/** What a finished replication has made: a graph that no walk can tell from the old one. */
module Isomorphism {
  import opened GraphStore
  import opened Replication

  ghost predicate Finished(g: Graph, r: Run) {
    WellFormed(g) && Sound(g, r) && r.wait == {} && r.open == {} && r.busy == {} && OwnWords(r.of.Keys)
  }

  /** The new graph as a store of its own. */
  ghost function Result(r: Run): Graph {
    Graph(r.to, r.val, map d <- r.to :: if r.to[d].Reference? then 1 else 0)
  }

  /** The node that holds the copied value. */
  ghost function Final(r: Run, d: Node): Node
    requires d in r.to
  {
    if r.to[d].Reference? then r.to[d].dest else d
  }

  lemma FinalHome(g: Graph, r: Run, d: Node)
    requires Finished(g, r) && d in r.of
    ensures d in r.to && Home(r, Final(r, d)) && r.of[Final(r, d)] == r.of[d] && Marked(g, r, r.of[d])
    ensures Copied(g, r, r.to[Final(r, d)], g.cells[r.of[d]], Final(r, d))
    ensures r.to[d].Reference? ==> Final(r, d).stable && r.to[Final(r, d)].Data?
  {
    hide WellFormed, BlockCopied, KindOk, Unique, SourceOk, SlotOk;
    assert ToOk(g, r, d);
    assert ToOk(g, r, Final(r, d));
  }

  lemma KindOfNode(g: Graph, r: Run, d: Node, d0: Node)
    requires Finished(g, r) && NodeCopied(g, r, d, d0) && !g.cells[d0].Outer?
    ensures d in r.to && !r.to[d].Outer?
  {
    hide Sound, BlockCopied;
    FinalHome(g, r, d);
  }

  lemma PointerResult(g: Graph, r: Run, p: Pointer, p0: Pointer)
    requires Finished(g, r) && PointerCopied(g, r, p, p0)
    ensures PointerOk(Result(r), p) && p.slot in r.val
    ensures var v := r.val[p.slot];
      if v == null then Target(g, p0.slot, p0.way) == null || p.way.Weak?
      else Home(r, v) && v in r.of && r.of[v] == Target(g, p0.slot, p0.way)
  {
    hide WellFormed, Unique, SourceOk, ToOk, BlockCopied, PointerOk, Target;
    assert SlotOk(g, r, p.slot);
    var v := r.val[p.slot];
    if v != null {
      FinalHome(g, r, v);
    }
    hide Sound, SlotOk;
    assert Result(r).vals == r.val && Result(r).cells == r.to;
    PointerHere(Result(r), p);
  }

  lemma PointerHere(g: Graph, p: Pointer)
    requires p.slot in g.vals && TargetOk(g, p.way, g.vals[p.slot])
    ensures PointerOk(g, p)
  {
  }

  lemma BlockResult(g: Graph, r: Run, b: Block, b0: Block)
    requires Finished(g, r) && BlockCopied(g, r, b, b0) && BlockOk(g, b0)
    ensures BlockOk(Result(r), b)
  {
    hide Sound, NodeCopied, PointerCopied, PointerOk, WellFormed;
    forall n | n in b.nodes ensures n in r.to && !r.to[n].Outer? {
      var i :| 0 <= i < |b.nodes| && b.nodes[i] == n;
      assert b0.nodes[i] in g.cells;
      KindOfNode(g, r, b.nodes[i], b0.nodes[i]);
    }
    forall p | p in b.pointers ensures PointerOk(Result(r), p) {
      var i :| 0 <= i < |b.pointers| && b.pointers[i] == p;
      PointerResult(g, r, b.pointers[i], b0.pointers[i]);
    }
  }

  /** The new graph is a well-formed store: nothing in it leads back to the old one. */
  lemma ResultWellFormed(g: Graph, r: Run)
    requires Finished(g, r)
    ensures WellFormed(Result(r))
  {
    hide Sound, BlockOk, BlockCopied;
    forall n | n in r.to ensures ContentOk(Result(r), n) {
      InDomain(g, r, n);
      FinalHome(g, r, n);
      if !r.to[n].Reference? {
        var s := r.of[n];
        assert s in g.cells && ContentOk(g, s);
        BlockResult(g, r, r.to[n].block, g.cells[s].block);
      }
    }
    SameNodes(g, r);
  }

  lemma SameNodes(g: Graph, r: Run)
    requires Finished(g, r)
    ensures r.to.Keys == r.of.Keys
  {
    hide WellFormed;
  }

  lemma InDomain(g: Graph, r: Run, n: Node)
    requires Finished(g, r) && n in r.to
    ensures n in r.of && WellFormed(g) && r.of[n] in g.cells && g.cells[r.of[n]].IsValue()
  {
    assert ToOk(g, r, n);
  }

  lemma DerefResult(g: Graph, r: Run, d: Node)
    requires Finished(g, r) && d in r.to && WellFormed(Result(r))
    ensures Deref(Result(r), d) == Final(r, d)
  {
    InDomain(g, r, d);
    FinalHome(g, r, d);
  }

  /** A new value and the old one it copies. */
  ghost predicate CopyOf(g: Graph, r: Run, a': Node, a: Node)
    requires WellFormed(g)
  {
    Home(r, a') && r.of[a'] == a && a in g.cells && Copied(g, r, r.to[a'], g.cells[a], a')
  }

  lemma HomeIsCopy(g: Graph, r: Run, d: Node)
    requires Finished(g, r) && Home(r, d)
    ensures CopyOf(g, r, d, r.of[d])
  {
    hide Copied;
    FinalHome(g, r, d);
  }

  lemma InTo(g: Graph, r: Run, d: Node)
    requires Home(r, d)
    ensures d in r.to && d in r.of
  {
  }

  /** One step in the new graph and the same one in the old. */
  lemma ArriveAlike(g: Graph, r: Run, b: Block, b0: Block, s: Step)
    requires Finished(g, r) && WellFormed(Result(r)) && BlockCopied(g, r, b, b0)
    requires BlockOk(g, b0) && BlockOk(Result(r), b)
    ensures var n, n0 := Arrive(Result(r), b, s), Arrive(g, b0, s);
      (n == null <==> n0 == null) && (n != null ==> CopyOf(g, r, n, n0))
  {
    hide Sound, CopyOf, Copied, PointerOk;
    match s
    case Child(i) =>
      if i < |b.nodes| {
        assert NodeCopied(g, r, b.nodes[i], b0.nodes[i]);
        assert b.nodes[i] in r.to;
        DerefResult(g, r, b.nodes[i]);
        FinalHome(g, r, b.nodes[i]);
        HomeIsCopy(g, r, Final(r, b.nodes[i]));
      }
    case Follow(i) =>
      if i < |b.pointers| && !b.pointers[i].way.Weak? {
        var p, p0 := b.pointers[i], b0.pointers[i];
        assert PointerCopied(g, r, p, p0);
        PointerResult(g, r, p, p0);
        var v := r.val[p.slot];
        if v != null {
          InTo(g, r, v);
          HomeIsCopy(g, r, v);
          DerefResult(g, r, v);
        }
      }
  }

  lemma CopyBlocks(g: Graph, r: Run, n: Node, n0: Node)
    requires WellFormed(g) && WellFormed(Result(r)) && CopyOf(g, r, n, n0)
    ensures n in r.to && r.to[n].IsValue() && g.cells[n0].IsValue()
    ensures BlockCopied(g, r, r.to[n].block, g.cells[n0].block)
    ensures BlockOk(g, g.cells[n0].block) && BlockOk(Result(r), r.to[n].block)
  {
    hide BlockCopied, BlockOk;
    assert ContentOk(g, n0) && ContentOk(Result(r), n);
  }

  /** Walking the same path from copied roots: to a copy of the value the old path leads to. */
  lemma {:induction false} WalkAlike(g: Graph, r: Run, b: Block, b0: Block, path: seq<Step>)
    requires Finished(g, r) && WellFormed(Result(r)) && BlockCopied(g, r, b, b0) && path != []
    requires BlockOk(g, b0) && BlockOk(Result(r), b)
    ensures var n, n0 := Walk(Result(r), b, path), Walk(g, b0, path);
      (n == null <==> n0 == null) && (n != null ==> CopyOf(g, r, n, n0))
    decreases |path|
  {
    hide Sound, BlockCopied, BlockOk, Arrive;
    ArriveAlike(g, r, b, b0, path[0]);
    var n, n0 := Arrive(Result(r), b, path[0]), Arrive(g, b0, path[0]);
    if n != null && |path| > 1 {
      CopyBlocks(g, r, n, n0);
      WalkAlike(g, r, Result(r).cells[n].block, g.cells[n0].block, path[1..]);
    }
  }

  lemma SameValuesResult(g: Graph, r: Run, b: Block, b0: Block)
    requires Finished(g, r) && WellFormed(Result(r)) && BlockCopied(g, r, b, b0)
    requires BlockOk(g, b0) && BlockOk(Result(r), b)
    ensures SameValues(g, b0, Result(r), b)
  {
    hide Sound, BlockOk, WellFormed, PointerCopied;
    forall path | path != []
      ensures var n, n' := Walk(g, b0, path), Walk(Result(r), b, path);
        (n == null <==> n' == null) && (n != null ==> SameShape(g.cells[n], Result(r).cells[n']))
    {
      WalkAlike(g, r, b, b0, path);
      var n, n' := Walk(g, b0, path), Walk(Result(r), b, path);
      if n != null {
        CopyShape(g, r, n', n);
      }
    }
  }

  lemma CopyShape(g: Graph, r: Run, n: Node, n0: Node)
    requires WellFormed(g) && CopyOf(g, r, n, n0)
    ensures r.to[n].IsValue() && g.cells[n0].IsValue() && SameShape(g.cells[n0], r.to[n])
  {
    hide WellFormed, PointerOk, Target;
    var b, b0 := r.to[n].block, g.cells[n0].block;
    assert BlockCopied(g, r, b, b0);
    forall i | 0 <= i < |b.nodes| ensures b0.nodes[i].stable == b.nodes[i].stable {
      assert NodeCopied(g, r, b.nodes[i], b0.nodes[i]);
    }
    forall i | 0 <= i < |b.pointers| ensures b0.pointers[i].way == b.pointers[i].way {
      assert PointerCopied(g, r, b.pointers[i], b0.pointers[i]);
    }
  }

  lemma SameSharingResult(g: Graph, r: Run, b: Block, b0: Block)
    requires Finished(g, r) && WellFormed(Result(r)) && BlockCopied(g, r, b, b0)
    requires BlockOk(g, b0) && BlockOk(Result(r), b)
    ensures SameSharing(g, b0, Result(r), b)
  {
    hide BlockOk, WellFormed, BlockCopied, Copied, SourceOk, ToOk, SlotOk;
    forall p, q | p != [] && q != [] && Walk(g, b0, p) != null && Walk(g, b0, q) != null
      ensures Walk(Result(r), b, p) == Walk(Result(r), b, q) ==> Walk(g, b0, p) == Walk(g, b0, q)
      ensures Walk(g, b0, p) == Walk(g, b0, q) && !g.cells[Walk(g, b0, p)].IsCopyable() ==>
        Walk(Result(r), b, p) == Walk(Result(r), b, q)
    {
      WalkAlike(g, r, b, b0, p);
      WalkAlike(g, r, b, b0, q);
    }
  }

  /** The values that got copied are those that strong paths from the roots lead to. */
  lemma MarkedIsReachable(g: Graph, r: Run, b: Block, b0: Block, s: Node)
    requires Finished(g, r) && WellFormed(Result(r)) && BlockCopied(g, r, b, b0)
    requires BlockOk(g, b0) && BlockOk(Result(r), b) && Within(g, r, b0)
    ensures Marked(g, r, s) <==> Reachable(g, b0, s)
  {
    hide BlockOk, WellFormed, BlockCopied, Copied, ToOk, SlotOk, Unique, Reachable;
    if Marked(g, r, s) {
      assert SourceOk(g, r, s);
    }
    if Reachable(g, b0, s) {
      var path := ReachablePath(g, b0, s);
      WalkAlike(g, r, b, b0, path);
      FinalHome(g, r, Walk(Result(r), b, path));
    }
  }

  lemma ReachablePath(g: Graph, b: Block, t: Node) returns (path: seq<Step>)
    requires WellFormed(g) && BlockOk(g, b) && Reachable(g, b, t)
    ensures path != [] && Walk(g, b, path) == t
  {
    path :| path != [] && Walk(g, b, path) == t;
  }

  lemma SameWeakResult(g: Graph, r: Run, b: Block, b0: Block, p: Pointer, p0: Pointer)
    requires Finished(g, r) && WellFormed(Result(r)) && BlockCopied(g, r, b, b0)
    requires BlockOk(g, b0) && BlockOk(Result(r), b) && Within(g, r, b0)
    requires PointerCopied(g, r, p, p0) && p.way.Weak?
    ensures PointerOk(Result(r), p) && SameWeak(g, b0, Result(r), b, p0, p)
  {
    hide BlockOk, WellFormed, BlockCopied, Copied, SourceOk, Reachable, Sound, ToOk, CopyOf, SameShape;
    PointerResult(g, r, p, p0);
    var v := r.val[p.slot];
    var t := Target(g, p0.slot, p0.way);
    if v != null {
      InTo(g, r, v);
      HomeIsCopy(g, r, v);
      CopyShape(g, r, v, t);
      DerefResult(g, r, v);
      FinalHome(g, r, v);
      MarkedIsReachable(g, r, b, b0, t);
      forall q | q != [] && Walk(g, b0, q) == t && !g.cells[t].IsCopyable() ensures Walk(Result(r), b, q) == v {
        WalkAlike(g, r, b, b0, q);
        OneCopy(g, r, v, Walk(Result(r), b, q), t);
      }
    } else if t != null {
      ClearedUnmarked(g, r, p, p0);
      MarkedIsReachable(g, r, b, b0, t);
    }
  }

  lemma OneCopy(g: Graph, r: Run, d: Node, e: Node, t: Node)
    requires Finished(g, r) && CopyOf(g, r, d, t) && CopyOf(g, r, e, t) && !g.cells[t].IsCopyable()
    ensures d == e
  {
    hide WellFormed, Copied, SourceOk, ToOk, SlotOk;
  }

  lemma SameWeaksResult(g: Graph, r: Run, b: Block, b0: Block, x: Block, x0: Block)
    requires Finished(g, r) && WellFormed(Result(r)) && BlockCopied(g, r, b, b0)
    requires BlockOk(g, b0) && BlockOk(Result(r), b) && Within(g, r, b0)
    requires BlockCopied(g, r, x, x0) && BlockOk(g, x0) && BlockOk(Result(r), x)
    ensures SameWeaks(g, b0, Result(r), b, x0, x)
  {
    hide Sound, WellFormed, Within, SameWeak, PointerCopied, PointerOk, NodeCopied;
    forall i | 0 <= i < |x0.pointers| && i < |x.pointers| && x0.pointers[i].way.Weak? && x.pointers[i].way.Weak?
      ensures PointerOk(g, x0.pointers[i]) && PointerOk(Result(r), x.pointers[i])
      ensures SameWeak(g, b0, Result(r), b, x0.pointers[i], x.pointers[i])
    {
      assert PointerCopied(g, r, x.pointers[i], x0.pointers[i]);
      SameWeakResult(g, r, b, b0, x.pointers[i], x0.pointers[i]);
    }
  }

  lemma WeakExactResult(g: Graph, r: Run, b: Block, b0: Block)
    requires Finished(g, r) && WellFormed(Result(r)) && BlockCopied(g, r, b, b0)
    requires BlockOk(g, b0) && BlockOk(Result(r), b) && Within(g, r, b0)
    ensures WeakExact(g, b0, Result(r), b)
  {
    hide Sound, Within, SameWeaks, BlockCopied, BlockOk, CopyOf;
    SameWeaksResult(g, r, b, b0, b, b0);
    forall path | path != [] && Walk(g, b0, path) != null && Walk(Result(r), b, path) != null
      ensures var n, n' := Walk(g, b0, path), Walk(Result(r), b, path);
        ContentOk(g, n) && ContentOk(Result(r), n') &&
        SameWeaks(g, b0, Result(r), b, g.cells[n].block, Result(r).cells[n'].block)
    {
      WalkAlike(g, r, b, b0, path);
      var n, n' := Walk(g, b0, path), Walk(Result(r), b, path);
      CopyBlocks(g, r, n', n);
      SameWeaksResult(g, r, b, b0, r.to[n'].block, g.cells[n].block);
    }
  }

  lemma ClearedUnmarked(g: Graph, r: Run, p: Pointer, p0: Pointer)
    requires Finished(g, r) && PointerCopied(g, r, p, p0) && p.way.Weak?
    ensures p.slot in r.val
    ensures var t := Target(g, p0.slot, p0.way); r.val[p.slot] == null && t != null ==> !Marked(g, r, t)
  {
    assert SlotOk(g, r, p.slot);
  }

  /**
   * Nothing else is there: every new node stems from a value that strong paths from the roots lead to, a new value
   * has the shape of the one it stems from, a reference leads to a value of the same origin, and a value that is
   * not copyable has been copied once.
   */
  ghost predicate OnlyReached(g: Graph, b0: Block, g': Graph, origin: map<Node, Node>)
    requires WellFormed(g) && BlockOk(g, b0)
  {
    && origin.Keys == g'.cells.Keys
    && (forall n <- g'.cells :: Reachable(g, b0, origin[n]) && origin[n] in g.cells && g.cells[origin[n]].IsValue())
    && (forall n <- g'.cells :: g'.cells[n].IsValue() ==> SameShape(g.cells[origin[n]], g'.cells[n]))
    && (forall n <- g'.cells :: g'.cells[n].Reference? ==>
          g'.cells[n].dest in origin && g'.cells[g'.cells[n].dest].IsValue() && origin[g'.cells[n].dest] == origin[n])
    && (forall n, m | n in g'.cells && m in g'.cells && g'.cells[n].IsValue() && g'.cells[m].IsValue() &&
        origin[n] == origin[m] ::
          n == m || g.cells[origin[n]].IsCopyable())
  }

  lemma OnlyReachedResult(g: Graph, r: Run, b0: Block)
    requires Finished(g, r) && BlockOk(g, b0) && Within(g, r, b0)
    ensures OnlyReached(g, b0, Result(r), r.of)
  {
    hide BlockOk, BlockCopied, SlotOk, SourceOk, SameShape, KindOk, Reachable;
    forall n <- r.to
      ensures n in r.of && Reachable(g, b0, r.of[n]) && r.of[n] in g.cells && g.cells[r.of[n]].IsValue()
      ensures r.to[n].IsValue() ==> SameShape(g.cells[r.of[n]], r.to[n])
      ensures r.to[n].Reference? ==> r.to[n].dest in r.of && Home(r, r.to[n].dest) && r.of[r.to[n].dest] == r.of[n]
    {
      StemsFrom(g, r, n);
    }
    hide ToOk, WellFormed, Copied;
  }

  lemma StemsFrom(g: Graph, r: Run, n: Node)
    requires Finished(g, r) && n in r.to
    ensures n in r.of && r.of[n] in g.cells && g.cells[r.of[n]].IsValue()
    ensures r.to[n].IsValue() ==> SameShape(g.cells[r.of[n]], r.to[n])
    ensures r.to[n].Reference? ==> r.to[n].dest in r.of && Home(r, r.to[n].dest) && r.of[r.to[n].dest] == r.of[n]
  {
    InDomain(g, r, n);
    FinalHome(g, r, n);
    if r.to[n].IsValue() {
      HomeIsCopy(g, r, n);
      CopyShape(g, r, n, r.of[n]);
    }
  }

  /** The new roots see what the old ones did, and only what strong paths reached is there. */
  ghost predicate Replica(g: Graph, b0: Block, g': Graph, b: Block, origin: map<Node, Node>) {
    && WellFormed(g) && BlockOk(g, b0) && WellFormed(g') && BlockOk(g', b)
    && SameValues(g, b0, g', b) && SameSharing(g, b0, g', b) && WeakExact(g, b0, g', b)
    && OnlyReached(g, b0, g', origin)
  }

  lemma ReplicaResult(g: Graph, r: Run, b: Block, b0: Block)
    requires Finished(g, r) && BlockCopied(g, r, b, b0) && BlockOk(g, b0) && Within(g, r, b0)
    ensures Replica(g, b0, Result(r), b, r.of)
  {
    hide Sound, Within, BlockCopied, SameValues, SameSharing, WeakExact, OnlyReached;
    ResultWellFormed(g, r);
    BlockResult(g, r, b, b0);
    SameValuesResult(g, r, b, b0);
    SameSharingResult(g, r, b, b0);
    WeakExactResult(g, r, b, b0);
    OnlyReachedResult(g, r, b0);
  }
}
