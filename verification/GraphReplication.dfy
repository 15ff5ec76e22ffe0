/** GraphReplicator and GarbageCollector: the copy loop, on the heap. */
module GraphReplication {
  import opened GraphStore
  import opened Replication
  import opened Worklists
  import opened Isomorphism

  class GraphReplicator {
    // todos
    var stableNodes: Node?
    var unstableNodes: Node?
    var spaces: seq<Slot>
    var threads: seq<Slot>
    var stableRefs: seq<Slot>
    var weakStableRefs: seq<Slot>

    /** The source graph and the roots it is copied from. */
    ghost const g: Graph
    ghost const roots: Block
    ghost var run: Run
    ghost var todo: Todo
    /** The nodes and pointers the replicator may write, the old pointers, and the words of the old nodes. */
    ghost var nodes: set<Node>
    ghost var slots: set<Slot>
    ghost const fixed: set<Slot>
    ghost const words: set<Slot>

    ghost predicate Shows()
      reads `run, `nodes, `slots, nodes, slots, fixed, words
    {
      ShowsNodes() && ShowsSlots() && ShowsOld() && ShowsWords()
    }

    ghost predicate ShowsNodes()
      reads `run, `nodes, `slots, nodes
    {
      && (forall n <- run.from :: n in nodes && n.content == run.from[n])
      && (forall n <- run.to :: n in nodes && n.word in slots && n.content == run.to[n])
    }

    ghost predicate ShowsSlots()
      reads `run, `slots, slots
    {
      forall a <- run.val :: a in slots && a.target == run.val[a]
    }

    /** The old pointers are as they were. */
    ghost predicate ShowsOld()
      reads `slots, fixed
    {
      (forall a <- g.vals :: a in fixed && (!a.own ==> a.target == g.vals[a])) && fixed !! slots
    }

    /** So are those in the words of nodes, but not of nodes that are marked. */
    ghost predicate ShowsWords()
      reads `run, `slots, words
    {
      (forall n <- g.cells :: n.word in words && (Unmarked(n) ==> WordKept(n))) && words !! slots
    }

    ghost predicate WordKept(n: Node)
      reads n.word
    {
      n.word in g.vals ==> n.word.target == g.vals[n.word]
    }

    ghost predicate Unmarked(n: Node)
      requires n in g.cells
      reads `run
    {
      n in run.from && run.from[n] == g.cells[n]
    }

    ghost predicate ListsAre(q: Todo)
      reads `stableNodes, `unstableNodes, `spaces, `threads, `stableRefs, `weakStableRefs
    {
      && stableNodes == First(q.stable) && unstableNodes == First(q.unstable)
      && spaces == q.spaces && threads == q.threads && stableRefs == q.refs && weakStableRefs == q.weaks
    }

    ghost predicate Valid()
      reads this, nodes, slots, fixed, words
    {
      Shows() && ListsAre(todo) && Good(g, roots, run, todo)
    }

    lemma Open()
      requires Valid()
      ensures Shows() && ListsAre(todo) && Good(g, roots, run, todo)
    {
    }

    lemma Close()
      requires Shows() && ListsAre(todo) && Good(g, roots, run, todo)
      ensures Valid()
    {
    }

    constructor (ghost g: Graph, ghost roots: Block)
      requires WellFormed(g) && BlockOk(g, roots) && Depicts(g)
      ensures this.g == g && this.roots == roots && nodes == g.cells.Keys && slots == {} && words == WordsOf(g)
      ensures Valid() && Idle() && WeakOpen(run) && Left(g, run) == Values(g)
    {
      hide WellFormed, BlockOk, Good;
      stableNodes, unstableNodes := null, null;
      spaces, threads, stableRefs, weakStableRefs := [], [], [], [];
      this.g, this.roots, nodes, fixed, words := g, roots, g.cells.Keys, g.vals.Keys, WordsOf(g);
      slots := {};
      run, todo := Initial(g), NOTHING;
      new;
      GoodInitial(g, roots);
    }

    /** A node of the new graph takes a content. */
    method Write(n: Node, c: Content, ghost r: Run, ghost q: Todo)
      requires Shows() && n in run.to && r.to == run.to[n := c] && r.from == run.from && r.val == run.val
      requires run.to.Keys !! run.from.Keys
      modifies `run, `todo, n
      ensures nodes == old(nodes) && slots == old(slots)
      ensures Shows() && run == r && todo == q
    {
      n.content := c;
      run, todo := r, q;
    }

    /** A space or thread of the old graph takes its replicate. */
    method WriteSource(n: Node, c: Content, ghost r: Run)
      requires Shows() && n in run.from && r.from == run.from[n := c] && r.to == run.to && r.val == run.val
      requires run.to.Keys !! run.from.Keys && n in g.cells && c != g.cells[n]
      modifies `run, n
      ensures nodes == old(nodes) && slots == old(slots)
      ensures Shows() && run == r
    {
      n.content := c;
      run := r;
    }

    /** reinit: a node of the old graph takes a mark, and its word the place of the copy. */
    method Reinit(n: Node, c: Content, dest: Node, ghost r: Run)
      requires Shows() && n in run.from && r.from == run.from[n := c] && r.to == run.to && r.val == run.val
      requires run.to.Keys !! run.from.Keys && n in g.cells && c != g.cells[n] && OwnWords(g.cells.Keys)
      modifies `run, n, n.word
      ensures nodes == old(nodes) && slots == old(slots)
      ensures Shows() && run == r
    {
      n.content := c;
      n.word.target := dest;
      run := r;
    }

    /** A pointer takes a target. */
    method Point(a: Slot, t: Node?, ghost r: Run, ghost q: Todo)
      requires Shows() && a in slots && r.val == run.val[a := t] && r.from == run.from && r.to == run.to
      modifies `run, `todo, a
      ensures nodes == old(nodes) && slots == old(slots)
      ensures Shows() && run == r && todo == q
    {
      a.target := t;
      run, todo := r, q;
    }

    /** The replicator's memory only grows, by fresh memory. */
    twostate predicate Widened(ns: set<Node>, ss: set<Slot>)
      reads `nodes, `slots
    {
      && (forall n <- ns :: n in nodes) && (forall n <- nodes :: n in ns || fresh(n))
      && (forall a <- ss :: a in slots) && (forall a <- slots :: a in ss || fresh(a))
    }

    twostate lemma NotWidened()
      requires nodes == old(nodes) && slots == old(slots)
      ensures Widened(old(nodes), old(slots))
    {
    }

    twostate lemma WidenedBy(new n: Node)
      requires fresh(n) && fresh(n.word) && nodes == old(nodes) + {n} && slots == old(slots) + {n.word}
      ensures Widened(old(nodes), old(slots))
    {
    }

    /** Memory for a node. */
    method Allocate(stable: bool, ghost s: Node) returns (n: Node)
      requires Shows()
      modifies `run, `nodes, `slots
      ensures Shows() && fresh(n) && fresh(n.word) && n.word.own && n.stable == stable
      ensures n !in old(nodes) && n.word !in old(slots) && Widened(old(nodes), old(slots))
      ensures nodes == old(nodes) + {n} && slots == old(slots) + {n.word}
      ensures run == AddNode(old(run), n, s, Blank)
    {
      n := new Node(stable, Blank);
      run := AddNode(run, n, s, Blank);
      nodes, slots := nodes + {n}, slots + {n.word};
    }

    /** new (vm) StableNode, or an UnstableNode of a new block. */
    method NewNode(stable: bool, ghost s: Node) returns (n: Node)
      requires Valid() && s in g.cells && g.cells[s].IsValue() && WellFormed(g) && BlockOk(g, roots)
      requires Reachable(g, roots, s)
      modifies `run, `todo, `nodes, `slots
      ensures Valid() && fresh(n) && fresh(n.word) && n.stable == stable && Widened(old(nodes), old(slots))
      ensures nodes == old(nodes) + {n} && slots == old(slots) + {n.word}
      ensures n !in old(run.of) && n !in g.cells && run == AddNode(old(run), n, s, Blank)
      ensures todo == old(todo).(limbo := old(todo).limbo + {n})
    {
      hide WellFormed, Reachable, Good, Shows, BlockOk, Widened;
      ghost var r, q := run, todo;
      AllAllocated();
      n := Allocate(stable, s);
      GoodAddNode(g, roots, r, q, n, s, Blank);
      todo := q.(limbo := q.limbo + {n});
    }

    lemma AllAllocated()
      requires Valid()
      ensures forall n | n !in nodes :: n !in run.of && n !in g.cells
      ensures forall w | w !in slots :: w !in run.aim && forall m <- run.of :: m.word != w
    {
      Parts(g, roots, run, todo);
    }

    /** copyStableNode. */
    method CopyStableNode(to: Node, from: Node)
      requires Valid() && to in todo.limbo && to.stable && to in run.of
      requires WellFormed(g) && from in g.cells && !g.cells[from].Outer? && Deref(g, from) == run.of[to]
      modifies `stableNodes, `run, `todo, to
      ensures nodes == old(nodes) && slots == old(slots)
      ensures Valid() && run == Overlay(old(run), to, Pending(old(stableNodes), from))
      ensures todo == old(todo).(stable := [to] + old(todo).stable, limbo := old(todo).limbo - {to})
    {
      hide WellFormed, Deref, Good, Shows;
      Queueable(to);
      GoodEnqueue(g, roots, run, todo, to, from);
      ghost var q := todo.(stable := [to] + todo.stable, limbo := todo.limbo - {to});
      Write(to, Pending(stableNodes, from), Overlay(run, to, Pending(stableNodes, from)), q);
      stableNodes := to;
    }

    /** copyUnstableNode. */
    method CopyUnstableNode(to: Node, from: Node)
      requires Valid() && to in todo.limbo && !to.stable && to in run.of
      requires WellFormed(g) && from in g.cells && !g.cells[from].Outer? && Deref(g, from) == run.of[to]
      modifies `unstableNodes, `run, `todo, to
      ensures nodes == old(nodes) && slots == old(slots)
      ensures Valid() && run == Overlay(old(run), to, Pending(old(unstableNodes), from))
      ensures todo == old(todo).(unstable := [to] + old(todo).unstable, limbo := old(todo).limbo - {to})
    {
      hide WellFormed, Deref, Good, Shows;
      Queueable(to);
      GoodEnqueue(g, roots, run, todo, to, from);
      ghost var q := todo.(unstable := [to] + todo.unstable, limbo := todo.limbo - {to});
      Write(to, Pending(unstableNodes, from), Overlay(run, to, Pending(unstableNodes, from)), q);
      unstableNodes := to;
    }

    lemma Queueable(to: Node)
      requires Valid() && to in todo.limbo
      ensures to in run.to && to in run.wait && run.to.Keys !! run.from.Keys
    {
      Parts(g, roots, run, todo);
    }

    /** copySpace, copyThread, copyStableRef and copyWeakStableRef. */
    method CopyPointer(way: Way, to: Slot, from: Node?)
      requires Valid() && to in slots && to !in run.aim && forall n <- run.wait :: n.word != to
      requires WellFormed(g) && BlockOk(g, roots) && TargetOk(g, way, from)
      requires way.Weak? || from == null || Reachable(g, roots, Deref(g, from))
      modifies `spaces, `threads, `stableRefs, `weakStableRefs, `run, `todo, to
      ensures Valid() && run == AddPointer(old(run), to, from, AimOf(g, way, from))
      ensures todo == old(todo).WithQueue(way, [to] + old(todo).Queue(way))
    {
      hide WellFormed, Deref, Good, Shows, BlockOk, Reachable, ListsAre;
      ghost var q := todo.WithQueue(way, [to] + todo.Queue(way));
      GoodAddPointer(g, roots, run, todo, to, from, AimOf(g, way, from));
      Point(to, from, AddPointer(run, to, from, AimOf(g, way, from)), q);
      PushFront(way, to, old(todo), todo);
    }

    /** todos.spaces.push_front and its likes. */
    method PushFront(way: Way, a: Slot, ghost q: Todo, ghost q': Todo)
      requires ListsAre(q) && SameLists(q', q.WithQueue(way, [a] + q.Queue(way)))
      modifies `spaces, `threads, `stableRefs, `weakStableRefs
      ensures ListsAre(q')
    {
      match way {
        case SpaceWay => spaces := [a] + spaces;
        case ThreadWay => threads := [a] + threads;
        case Strong => stableRefs := [a] + stableRefs;
        case Weak => weakStableRefs := [a] + weakStableRefs;
      }
    }

    /** A node of a new block, and its registration. */
    method CopyChild(from: Node) returns (to: Node)
      requires Valid() && WellFormed(g) && BlockOk(g, roots) && from in g.cells && !g.cells[from].Outer?
      requires Reachable(g, roots, Deref(g, from))
      modifies `stableNodes, `unstableNodes, `run, `todo, `nodes, `slots
      ensures Valid() && Widened(old(nodes), old(slots)) && OnlyAdds(g, old(run), run)
      ensures todo.limbo == old(todo).limbo && todo.held == old(todo).held
      ensures NodeCopied(g, run, to, from)
    {
      hide WellFormed, Deref, Good, Shows, ListsAre, BlockOk, Reachable, OnlyAdds, NodeCopied, PointerCopied, PointerOk,
           Target;
      ghost var r, q := run, todo;
      Parts(g, roots, r, q);
      hide Widened;
      to := NewNode(from.stable, Deref(g, from));
      if from.stable {
        ChildAdded(r, q, to, from, Pending(stableNodes, from));
        CopyStableNode(to, from);
      } else {
        ChildAdded(r, q, to, from, Pending(unstableNodes, from));
        CopyUnstableNode(to, from);
      }
    }

    lemma ChildAdded(r: Run, q: Todo, d: Node, f: Node, c: Content)
      requires Good(g, roots, r, q) && d !in r.of && d !in g.cells && WellFormed(g) && f in g.cells &&
        d.stable == f.stable
      ensures var r' := Overlay(AddNode(r, d, Deref(g, f), Blank), d, c);
        OnlyAdds(g, r, r') && NodeCopied(g, r', d, f)
      ensures q.limbo + {d} - {d} == q.limbo
    {
      hide *;
      Parts(g, roots, r, q);
      AddNodeAdds(g, r, d, Deref(g, f), c);
      OverlayNew(g, r, d, f, c);
      LimboBack(q.limbo, d);
    }

    /** Memory for a pointer. */
    method NewSlot() returns (a: Slot)
      requires Valid()
      modifies `slots
      ensures Valid() && fresh(a) && !a.own && slots == old(slots) + {a} && Widened(old(nodes), old(slots))
      ensures a !in run.aim && forall n <- run.of :: n.word != a
    {
      hide Good;
      AllAllocated();
      a := new Slot(null, false);
      slots := slots + {a};
    }

    /** A pointer of a new block, and its registration. */
    method CopyField(from: Pointer) returns (to: Pointer)
      requires Valid() && WellFormed(g) && BlockOk(g, roots) && PointerOk(g, from) && !from.slot.own
      requires from.way.Weak? || Target(g, from.slot, from.way) == null ||
        Reachable(g, roots, Target(g, from.slot, from.way))
      modifies `spaces, `threads, `stableRefs, `weakStableRefs, `run, `todo, `slots
      ensures Valid() && Widened(old(nodes), old(slots)) && OnlyAdds(g, old(run), run)
      ensures todo.limbo == old(todo).limbo && todo.held == old(todo).held
      ensures PointerCopied(g, run, to, from) && !to.slot.own
    {
      hide WellFormed, Deref, Good, Shows, ListsAre, BlockOk, Reachable, OnlyAdds, NodeCopied, PointerCopied, PointerOk,
           Target, Widened;
      OldTarget(from);
      var slot := NewSlot();
      to := Pointer(slot, from.way);
      FieldAdded(slot, from);
      CopyPointer(from.way, slot, from.slot.target);
    }

    lemma OldTarget(p: Pointer)
      requires Valid() && PointerOk(g, p) && !p.slot.own
      ensures p.slot in g.vals && p.slot.target == g.vals[p.slot] && TargetOk(g, p.way, p.slot.target)
    {
    }

    lemma FieldAdded(a: Slot, p: Pointer)
      requires Valid() && WellFormed(g) && PointerOk(g, p) && a !in run.aim && forall n <- run.of :: n.word != a
      ensures TargetOk(g, p.way, g.vals[p.slot])
      ensures var r' := AddPointer(run, a, g.vals[p.slot], AimOf(g, p.way, g.vals[p.slot]));
        OnlyAdds(g, run, r') && PointerCopied(g, r', Pointer(a, p.way), p)
      ensures forall n <- run.wait :: n.word != a
      ensures Target(g, p.slot, p.way) == AimOf(g, p.way, g.vals[p.slot]).node
    {
      hide WellFormed, Deref, Good, Shows;
      Parts(g, roots, run, todo);
      AddPointerAdds(g, run, a, g.vals[p.slot], AimOf(g, p.way, g.vals[p.slot]));
    }

    /** The copying constructors: a new block whose nodes and pointers are all still to be done. */
    method CopyBlock(from: Block) returns (to: Block)
      requires Valid() && WellFormed(g) && BlockOk(g, roots) && BlockOk(g, from) && StepsReachable(g, roots, from)
      requires Plain(from)
      modifies this
      ensures Valid() && Widened(old(nodes), old(slots)) && OnlyAdds(g, old(run), run)
      ensures todo.limbo == old(todo).limbo && todo.held == old(todo).held
      ensures BlockCopied(g, run, to, from) && Plain(to)
    {
      hide WellFormed, BlockOk, Valid, OnlyAdds, NodeCopied, PointerCopied, PointerOk, Reachable, StepsReachable;
      var ns, ps := [], [];
      NothingAdded(g, run);
      while |ns| < |from.nodes|
        invariant |ns| <= |from.nodes|
        invariant Valid() && Widened(old(nodes), old(slots)) && OnlyAdds(g, old(run), run)
        invariant todo.limbo == old(todo).limbo && todo.held == old(todo).held
        invariant forall j | 0 <= j < |ns| :: NodeCopied(g, run, ns[j], from.nodes[j])
      {
        ghost var r := run;
        ChildReachable(g, roots, from, |ns|);
        var n := CopyChild(from.nodes[|ns|]);
        OnlyAddsTrans(g, old(run), r, run);
        forall j | 0 <= j < |ns| ensures NodeCopied(g, run, ns[j], from.nodes[j]) {
          NodeKept(g, r, run, ns[j], from.nodes[j]);
        }
        ns := ns + [n];
      }
      while |ps| < |from.pointers|
        invariant |ps| <= |from.pointers|
        invariant Valid() && Widened(old(nodes), old(slots)) && OnlyAdds(g, old(run), run)
        invariant todo.limbo == old(todo).limbo && todo.held == old(todo).held
        invariant forall j | 0 <= j < |ns| :: NodeCopied(g, run, ns[j], from.nodes[j])
        invariant forall j | 0 <= j < |ps| :: PointerCopied(g, run, ps[j], from.pointers[j]) && !ps[j].slot.own
      {
        ghost var r := run;
        FieldReachable(g, roots, from, |ps|);
        var p := CopyField(from.pointers[|ps|]);
        OnlyAddsTrans(g, old(run), r, run);
        forall j | 0 <= j < |ns| ensures NodeCopied(g, run, ns[j], from.nodes[j]) {
          NodeKept(g, r, run, ns[j], from.nodes[j]);
        }
        forall j | 0 <= j < |ps| ensures PointerCopied(g, run, ps[j], from.pointers[j]) {
          PointerKept(g, r, run, ps[j], from.pointers[j]);
        }
        ps := ps + [p];
      }
      to := Block(ns, ps);
    }

    /** RichNode, on a node of the old graph. */
    method Dereference(node: Node) returns (n: Node)
      requires Valid() && WellFormed(g) && node in g.cells
      ensures n == Deref(g, node)
    {
      n := node;
      while n.content.Reference?
        invariant n in g.cells && n.content == run.from[n] && Deref(g, n) == Deref(g, node)
        decreases if n in g.rank then g.rank[n] else 0
      {
        OldContent(n);
        n := n.content.dest;
        OldContent(n);
      }
      OldContent(n);
    }

    lemma OldContent(n: Node)
      requires Valid() && n in g.cells
      ensures n in run.from && n.content == run.from[n]
      ensures (g.cells[n].Reference? || n.content.Reference?) ==> n.content == g.cells[n]
    {
      SourceContent(g, run, n);
    }

    /** `to` is in hand, for the copy of the value `from`, which has none yet. */
    ghost predicate Collecting(to: Node, from: Node)
      reads `run, `todo
    {
      WellFormed(g) && BlockOk(g, roots) && to in todo.limbo && Uncopied(g, run, to, from)
    }

    /** make<T>, for a type whose values have a representation of their own, and for spaces and threads. */
    method Make(to: Node, from: Node, kind: Kind, block: Block)
      requires Valid() && Collecting(to, from) && g.cells[from].IsValue() && !kind.inline
      requires kind == g.cells[from].kind && block == g.cells[from].block && (g.cells[from].Outer? ==> to.stable)
      modifies this, to
      ensures Valid() && Widened(old(nodes), old(slots)) && Collected(g, old(run), run, to) && Home(run, to)
      ensures todo.limbo == old(todo).limbo - {to} && todo.held == old(todo).held
    {
      hide WellFormed, BlockOk, Valid, Good, Shows, ListsAre, OnlyAdds, Reachable, StepsReachable, Collected,
           BlockCopied,
           Widened, Home, Collecting, Uncopied;
      ghost var r := run;
      MakeStart(to, from);
      var b := CopyBlock(block);
      ghost var c := MakeStep(r, to, from, b);
      if from.content.Outer? {
        Write(to, Outer(kind, b, null), Fill(run, to, c), todo.(limbo := todo.limbo - {to}));
      } else {
        Write(to, Data(kind, b), Fill(run, to, c), todo.(limbo := todo.limbo - {to}));
      }
      Close();
    }

    lemma MakeStart(to: Node, from: Node)
      requires Valid() && Collecting(to, from) && g.cells[from].IsValue()
      ensures WellFormed(g) && BlockOk(g, roots) && BlockOk(g, g.cells[from].block)
      ensures !g.cells[from].kind.inline ==> Plain(g.cells[from].block)
      ensures StepsReachable(g, roots, g.cells[from].block) && Uncopied(g, run, to, from) && to in todo.limbo
    {
      LimboFacts(to);
      StepsOfValue(g, roots, from);
    }

    lemma MakeStep(r: Run, d: Node, s: Node, b: Block) returns (c: Content)
      requires Valid() && WellFormed(g) && d in todo.limbo && Uncopied(g, r, d, s) && OnlyAdds(g, r, run)
      requires s in g.cells && g.cells[s].IsValue() && !g.cells[s].kind.inline && (g.cells[s].Outer? ==> d.stable)
      requires BlockCopied(g, run, b, g.cells[s].block) && Plain(b)
      ensures Shows() && ListsAre(todo.(limbo := todo.limbo - {d})) && d in run.to && run.to.Keys !! run.from.Keys
      ensures s.content.Outer? <==> c.Outer?
      ensures c == if g.cells[s].Outer? then Outer(g.cells[s].kind, b, null) else Data(g.cells[s].kind, b)
      ensures Good(g, roots, Fill(run, d, c), todo.(limbo := todo.limbo - {d}))
      ensures Collected(g, r, Fill(run, d, c), d) && Home(Fill(run, d, c), d)
    {
      hide WellFormed, Good, BlockCopied, Copied, Shows, Collected;
      c := WithBlock(g.cells[s], b);
      MakeFacts(r, d, s, b);
      GoodFill(g, roots, run, todo, d, c);
      FillCollected(g, run, d, c);
      CollectedTrans(g, r, run, Fill(run, d, c), d);
    }

    lemma MakeFacts(r: Run, d: Node, s: Node, b: Block)
      requires Valid() && WellFormed(g) && d in todo.limbo && Uncopied(g, r, d, s) && OnlyAdds(g, r, run)
      requires s in g.cells && g.cells[s].IsValue() && !g.cells[s].kind.inline && (g.cells[s].Outer? ==> d.stable)
      requires BlockCopied(g, run, b, g.cells[s].block) && Plain(b)
      ensures d in run.to && d in run.of && run.of[d] == s && s in run.busy && run.to.Keys !! run.from.Keys
      ensures Copied(g, run, WithBlock(g.cells[s], b), g.cells[s], d)
      ensures forall e <- run.of :: Home(run, e) ==> run.of[e] != s
      ensures s in run.from && s.content == run.from[s] && (s.content.Outer? <==> g.cells[s].Outer?)
    {
      hide WellFormed, Good, BlockCopied, Copied;
      Parts(g, roots, run, todo);
      CopiedOver(g, run, b, s, d);
      SourceContent(g, run, s);
    }

    /** make<T>, for a type stored as one pointer: &self is the node's own word. */
    method MakeInline(to: Node, from: Node, kind: Kind, block: Block)
      requires Valid() && Collecting(to, from)
      requires g.cells[from] == Data(kind, block) && kind.inline && to.stable && |block.pointers| == 1
      modifies `spaces, `threads, `stableRefs, `weakStableRefs, `run, `todo, to, to.word
      ensures nodes == old(nodes) && slots == old(slots)
      ensures Valid() && Collected(g, old(run), run, to) && Home(run, to)
      ensures todo.limbo == old(todo).limbo - {to} && todo.held == old(todo).held
      ensures to in run.to && run.to[to].Data? && !run.to[to].kind.copyable
      ensures forall n <- old(run).to :: n != to ==> n in run.to && run.to[n] == old(run).to[n]
    {
      hide *;
      Open();
      var way := block.pointers[0].way;
      ghost var r1, q1, r2, q2 := InlineStep(to, from, kind, way);
      ghost var q := todo;
      Point(to.word, from.word.target, r1, q1);
      PushFront(way, to.word, q, q2);
      Write(to, Data(kind, Block([], [Pointer(to.word, way)])), r2, q2);
      Close();
    }

    lemma InlineStep(d: Node, s: Node, k: Kind, way: Way) returns (r1: Run, q1: Todo, r2: Run, q2: Todo)
      requires Valid() && Collecting(d, s) && g.cells[s].Data? && g.cells[s].kind == k && k.inline && d.stable
      requires |g.cells[s].block.pointers| == 1 && way == g.cells[s].block.pointers[0].way
      ensures d.word in slots && d in run.to && run.to.Keys !! run.from.Keys
      ensures r1.val == run.val[d.word := s.word.target] && r1.from == run.from && r1.to == run.to
      ensures !k.copyable
      ensures SameLists(q2, todo.WithQueue(way, [d.word] + todo.Queue(way)))
      ensures q2.limbo == todo.limbo - {d} && q2.held == todo.held
      ensures r2.to == r1.to[d := Data(k, Block([], [Pointer(d.word, way)]))] && r2.from == r1.from && r2.val == r1.val
      ensures Good(g, roots, r2, q2) && Collected(g, run, r2, d) && Home(r2, d)
    {
      hide WellFormed, BlockOk, Good, Shows, OnlyAdds, Reachable, StepsReachable, Copied, Collected, Grows, PointerOk,
           Home, ListsAre;
      InlineFacts(d, s);
      var t := g.vals[s.word];
      var c := Data(k, Block([], [Pointer(d.word, way)]));
      q1 := todo.WithQueue(way, [d.word] + todo.Queue(way));
      r1, r2, q2 := GoodFillInline(g, roots, run, todo, d, k, way, t, c);
      FillInlineCollected(g, run, d, t, AimOf(g, way, t), c);
    }

    lemma InlineFacts(d: Node, s: Node)
      requires Valid() && WellFormed(g) && BlockOk(g, roots) && d in todo.limbo && d in run.of && run.of[d] == s
      requires s in g.cells && g.cells[s].Data? && g.cells[s].kind.inline && d.stable
      requires forall e <- run.of :: Arrived(run, e) ==> run.of[e] != s
      ensures d in run.to && d in run.wait && d.word !in run.aim && d.word in slots && run.to.Keys !! run.from.Keys
      ensures |g.cells[s].block.pointers| == 1 && !g.cells[s].kind.copyable && s.word in g.vals &&
        s.word.target == g.vals[s.word]
      ensures var way, t := g.cells[s].block.pointers[0].way, g.vals[s.word];
        && TargetOk(g, way, t) && (way.Weak? || t == null || Reachable(g, roots, Deref(g, t)))
        && Copied(g, AddPointer(run, d.word, t, AimOf(g, way, t)),
                  Data(g.cells[s].kind, Block([], [Pointer(d.word, way)])), g.cells[s], d)
      ensures forall e <- run.of :: Home(run, e) ==> run.of[e] != s
    {
      hide WellFormed, Good, Deref, Reachable, BlockOk;
      Parts(g, roots, run, todo);
      InLimbo(g, roots, run, todo, d);
      CopiedInline(g, run, s, d);
      StepsOfValue(g, roots, s);
      FieldReachable(g, roots, g.cells[s].block, 0);
    }

    /** The generated gCollect of a type: its copy, behind a reference where an unstable node cannot hold it. */
    method GCollect(from: Node, to: Node)
      requires Valid() && Collecting(to, from)
      requires g.cells[from].Data? && from.content == g.cells[from]
      modifies this, to, to.word
      ensures Valid() && Widened(old(nodes), old(slots)) && Collected(g, old(run), run, to)
      ensures todo.limbo == old(todo).limbo - {to} && todo.held == old(todo).held
      ensures to.stable ==> Home(run, to)
    {
      hide WellFormed, BlockOk, Good, Shows, OnlyAdds, Reachable, Collected, Grows, Home, ListsAre, Widened, KindOk;
      ghost var r := run;
      ValueKind(g, from);
      InLimbo(g, roots, r, todo, to);
      var kind, block := from.content.kind, from.content.block;
      if kind.inline {
        InlineShape(from);
        if to.stable {
          MakeInline(to, from, kind, block);
          NotWidened();
        } else {
          CollectBehind(from, to, kind, block);
        }
      } else {
        Make(to, from, kind, block);
      }
    }

    /** to.make<Reference>. */
    method MakeReference(to: Node, dest: Node)
      requires Valid() && to in todo.limbo
      modifies `run, `todo, to
      ensures nodes == old(nodes) && slots == old(slots)
      ensures Valid() && run == Overlay(old(run), to, Reference(dest)) && todo == old(todo)
    {
      hide Good, Shows, ListsAre;
      Queueable(to);
      GoodOverlay(g, roots, run, todo, to, Reference(dest));
      Write(to, Reference(dest), Overlay(run, to, Reference(dest)), todo);
    }

    /** A reference to a copy is as good as the copy. */
    ghost method Settle(d: Node, h: Node)
      requires Valid() && d in todo.limbo && d in run.of && Home(run, h) && h.stable && run.of[h] == run.of[d]
      requires d in run.to && run.to[d] == Reference(h) && run.to[h].Data? && !run.to[h].kind.copyable
      modifies `run, `todo
      ensures nodes == old(nodes) && slots == old(slots)
      ensures Valid() && run == Link(old(run), d, h) && Grows(g, old(run), run)
      ensures todo == old(todo).(limbo := old(todo).limbo - {d})
    {
      hide Good, Home, Grows;
      GoodLink(g, roots, run, todo, d, h);
      todo := todo.(limbo := todo.limbo - {d});
      run := Link(run, d, h);
    }

    lemma InlineShape(s: Node)
      requires WellFormed(g) && s in g.cells && g.cells[s].Data? && g.cells[s].kind.inline
      ensures |g.cells[s].block.pointers| == 1
    {
      ValueKind(g, s);
    }

    /** The generated gCollect to an unstable node, for the types that need a stable one. */
    method CollectBehind(from: Node, to: Node, kind: Kind, block: Block)
      requires Valid() && Collecting(to, from)
      requires g.cells[from] == Data(kind, block) && kind.inline && |block.pointers| == 1
      modifies this, to
      ensures Valid() && Widened(old(nodes), old(slots)) && Collected(g, old(run), run, to)
      ensures todo.limbo == old(todo).limbo - {to} && todo.held == old(todo).held
    {
      hide *;
      ghost var r, q := run, todo;
      CollectingFacts(to, from);
      var stable := ReferToNew(to, from);
      ghost var r2 := run;
      MakeInline(stable, from, kind, block);
      ghost var r3 := run;
      Referred(g, r2, r3, to, stable);
      Settle(to, stable);
      CollectedBehind(g, r, stable, from, r3, to);
      WidenedBy(stable);
    }

    /** StableNode* stable = new (vm) StableNode; to.make<Reference>(vm, stable). */
    method ReferToNew(to: Node, ghost from: Node) returns (stable: Node)
      requires Valid() && Collecting(to, from)
      modifies `run, `todo, `nodes, `slots, to
      ensures Valid() && stable.stable && fresh(stable) && fresh(stable.word)
      ensures nodes == old(nodes) + {stable} && slots == old(slots) + {stable.word}
      ensures stable !in old(run).of && stable !in g.cells
      ensures run == Overlay(AddNode(old(run), stable, from, Blank), to, Reference(stable))
      ensures stable in todo.limbo && to in todo.limbo && todo.limbo - {stable} - {to} == old(todo).limbo - {to}
      ensures todo.held == old(todo).held
      ensures Collecting(to, from) && Collecting(stable, from)
      ensures to in run.of && stable in run.of && run.of[to] == run.of[stable] && to != stable && to in run.to &&
        run.to[to] == Reference(stable)
    {
      hide WellFormed, BlockOk, Good, Shows, ListsAre, Reachable, Widened, Valid, Unique, Domains;
      ghost var r, q := run, todo;
      LimboFacts(to);
      stable := NewNode(true, from);
      NoneStill(g, r, stable, from, to);
      LimboPlus(q.limbo, to, stable);
      MakeReference(to, stable);
    }

    lemma CollectingFacts(to: Node, from: Node)
      requires Valid() && Collecting(to, from)
      ensures Domains(g, run) && Unique(g, run) && to in run.wait
    {
      LimboFacts(to);
    }

    lemma LimboFacts(d: Node)
      requires Valid() && d in todo.limbo
      ensures Domains(g, run) && Unique(g, run) && d in run.wait && forall n <- todo.limbo :: n in run.of
      ensures d in run.of && run.of[d] in g.cells && g.cells[run.of[d]].IsValue()
      ensures WellFormed(g) && BlockOk(g, roots) && Reachable(g, roots, run.of[d])
    {
      Parts(g, roots, run, todo);
      InLimbo(g, roots, run, todo, d);
    }

    lemma LimboPlus(l: set<Node>, d: Node, h: Node)
      requires h !in l
      ensures l + {h} - {h} - {d} == l - {d}
    {
    }

    /** A word that is no registered pointer. */
    method SetWord(to: Node, t: Node?)
      requires Shows() && to in run.to && to.word !in run.val
      modifies to.word
      ensures Shows()
    {
      to.word.target := t;
    }

    /** Node::set. */
    method Set(to: Node, from: Node, ghost r: Run, ghost q: Todo)
      requires Shows() && to in run.to && from in run.to && to.word !in run.val && run.to.Keys !! run.from.Keys
      requires r.to == run.to[to := run.to[from]] && r.from == run.from && r.val == run.val
      modifies `run, `todo, to, to.word
      ensures Shows() && run == r && todo == q
      ensures nodes == old(nodes) && slots == old(slots)
    {
      SetWord(to, from.word.target);
      Write(to, from.content, r, q);
    }

    /** The node met again, and the copy it was marked with. */
    ghost predicate MetAgain(to: Node, dest: Node)
      reads `run, `todo
    {
      && WellFormed(g) && BlockOk(g, roots) && to in todo.limbo && to in run.of && Arrived(run, dest)
      && run.of[dest] == run.of[to] && run.of[to] in g.cells && !g.cells[run.of[to]].Outer?
    }

    lemma AgainFacts(to: Node, dest: Node)
      requires Valid() && MetAgain(to, dest)
      ensures to in run.to && dest in run.to && dest.content == run.to[dest] && to.word !in run.val
      ensures run.to.Keys !! run.from.Keys && dest in run.of && run.of[dest] == run.of[to] && to in run.of &&
        to in todo.limbo && Arrived(run, dest)
    {
      hide Good;
      Parts(g, roots, run, todo);
      InLimbo(g, roots, run, todo, to);
    }

    /** set, of a copyable content. */
    method Duplicate(to: Node, dest: Node)
      requires Valid() && MetAgain(to, dest) && dest.content.IsCopyable()
      modifies `run, `todo, to, to.word
      ensures Valid() && Collected(g, old(run), run, to) && todo == old(todo).(limbo := old(todo).limbo - {to})
      ensures nodes == old(nodes) && slots == old(slots)
      ensures !old(dest.content).Reference? ==> Home(run, to)
    {
      hide Valid, Good, Shows, WellFormed, BlockOk, Collected;
      AgainFacts(to, dest);
      Open();
      GoodDuplicate(g, roots, run, todo, to, dest);
      Set(to, dest, Fill(run, to, run.to[dest]), todo.(limbo := todo.limbo - {to}));
      Close();
    }

    /** GRedToStable's gCollect: StableNode::init and UnstableNode::copy, from a stable copy. */
    method AgainFromStable(to: Node, dest: Node)
      requires Valid() && MetAgain(to, dest) && dest.stable
      modifies `run, `todo, to, to.word
      ensures Valid() && Collected(g, old(run), run, to) && todo == old(todo).(limbo := old(todo).limbo - {to})
      ensures nodes == old(nodes) && slots == old(slots)
    {
      hide Valid, Good, Shows, WellFormed, BlockOk, Collected;
      if dest.content.IsCopyable() {
        Duplicate(to, dest);
      } else {
        AgainFacts(to, dest);
        Open();
        GoodRefer(g, roots, run, todo, to, dest);
        Write(to, Reference(dest), Link(run, to, dest), todo.(limbo := todo.limbo - {to}));
        Close();
      }
    }

    /** set(dest) and dest.make<Reference>(to), of a content that is not copyable. */
    method MoveTo(to: Node, dest: Node)
      requires Valid() && MetAgain(to, dest) && !dest.stable && to.stable && !dest.content.IsCopyable()
      modifies `run, `todo, to, to.word, dest
      ensures Valid() && Collected(g, old(run), run, to) && todo == old(todo).(limbo := old(todo).limbo - {to})
      ensures Home(run, to) && run.to[to].Data? && !run.to[to].kind.copyable
      ensures nodes == old(nodes) && slots == old(slots)
    {
      hide *;
      AgainFacts(to, dest);
      Open();
      ghost var r, q := run, todo;
      GoodMoved(g, roots, r, q, dest, to);
      MoveInTwo(r, dest, to);
      Set(to, dest, Overlay(r, to, r.to[dest]), q);
      Write(dest, Reference(to), Move(r, dest, to), q.(limbo := q.limbo - {to}));
      Close();
    }

    /** StableNode::init, from an unstable copy: a value that is not copyable moves here. */
    method InitFromUnstable(to: Node, dest: Node)
      requires Valid() && MetAgain(to, dest) && !dest.stable && to.stable
      modifies `run, `todo, to, to.word, dest
      ensures Valid() && Collected(g, old(run), run, to) && todo == old(todo).(limbo := old(todo).limbo - {to})
      ensures nodes == old(nodes) && slots == old(slots)
      ensures !old(dest.content).Reference? ==> Home(run, to)
    {
      hide Valid, MetAgain, Collected;
      if dest.content.IsCopyable() {
        Duplicate(to, dest);
      } else {
        MoveTo(to, dest);
      }
    }

    /** UnstableNode::copy, from an unstable copy: a value that is not copyable moves to a new stable node. */
    method CopyFromUnstable(to: Node, dest: Node)
      requires Valid() && MetAgain(to, dest) && !dest.stable
      modifies `run, `todo, `nodes, `slots, to, to.word, dest
      ensures Valid() && Widened(old(nodes), old(slots))
      ensures Collected(g, old(run), run, to) && todo == old(todo).(limbo := old(todo).limbo - {to})
    {
      hide Valid, Good, Shows, WellFormed, BlockOk, Collected, Widened, MetAgain, Home, Grows, Unique, Domains, Arrived,
           Reachable;
      if dest.content.IsCopyable() {
        Duplicate(to, dest);
        NotWidened();
      } else {
        ghost var r, q := run, todo;
        ghost var s := AgainStart(to, dest);
        var stable := NewNode(true, s);
        StillAgain(r, q, s, stable, to, dest);
        MoveTo(stable, dest);
        ghost var r2 := run;
        LimboPlus(q.limbo, to, stable);
        LimboFacts(to);
        Referred(g, AddNode(r, stable, s, Blank), r2, to, stable);
        MakeReference(to, stable);
        HomeStays(r2, to, stable);
        Settle(to, stable);
        CollectedMoved(g, r, stable, s, r2, to);
        WidenedBy(stable);
      }
    }

    lemma AgainStart(to: Node, dest: Node) returns (s: Node)
      requires Valid() && MetAgain(to, dest)
      ensures to in run.of && s == run.of[to] && s in g.cells && g.cells[s].IsValue() && Reachable(g, roots, s)
      ensures WellFormed(g) && BlockOk(g, roots) && Domains(g, run) && Unique(g, run) && to in todo.limbo
      ensures dest in run.of && run.of[dest] == s && Arrived(run, dest) && !g.cells[s].Outer?
      ensures forall n <- todo.limbo :: n in run.of
    {
      hide Good, Reachable;
      LimboFacts(to);
      s := run.of[to];
    }

    lemma StillAgain(r: Run, q: Todo, s: Node, h: Node, to: Node, dest: Node)
      requires run == AddNode(r, h, s, Blank) && h !in r.of && h in todo.limbo
      requires to in r.of && r.of[to] == s && dest in r.of && r.of[dest] == s && Arrived(r, dest)
      requires WellFormed(g) && BlockOk(g, roots) && s in g.cells && !g.cells[s].Outer?
      ensures MetAgain(h, dest) && to != h && to in run.of && h in run.of && run.of[to] == s && run.of[h] == s
    {
    }

    lemma HomeStays(r: Run, d: Node, h: Node)
      requires Home(r, h) && d != h && run == Overlay(r, d, Reference(h)) && r.to[h].Data? && !r.to[h].kind.copyable
      ensures Home(run, h) && run.to[h].Data? && !run.to[h].kind.copyable && d in run.to && run.to[d] == Reference(h)
    {
    }

    /** A node in hand whose value is to be copied into it, and only what is strongly reached is marked. */
    ghost predicate InHand(to: Node, from: Node)
      reads `run, `todo
    {
      && WellFormed(g) && BlockOk(g, roots) && to in todo.limbo && to in run.of && run.of[to] == from && run.busy == {}
      && from in g.cells && g.cells[from].IsValue() && (Marked(g, run, from) || WeakOpen(run))
    }

    /** processNode's first half: the type of `from` fills `to`. */
    method Collect(to: Node, from: Node)
      requires Valid() && InHand(to, from) && !g.cells[from].Outer?
      modifies this, nodes, slots
      ensures Valid() && Widened(old(nodes), old(slots))
      ensures todo.limbo == old(todo).limbo - {to} && todo.held == old(todo).held
      ensures Collected(g, old(run), run, to) || Collected(g, Begin(old(run), from), run, to)
      ensures Marked(g, old(run), from) ==> SameLists(old(todo), todo)
      ensures !Marked(g, old(run), from) && to.stable ==> Home(run, to)
    {
      hide Valid, Good, Shows, WellFormed, BlockOk, Collected, Widened, Grows, Unique, Reachable, Deref;
      CollectStart(to, from);
      if from.content.RedToStable? {
        AgainFromStable(to, from.content.dest);
        NotWidened();
      } else if from.content.RedToUnstable? {
        if to.stable {
          InitFromUnstable(to, from.content.dest);
          NotWidened();
        } else {
          CopyFromUnstable(to, from.content.dest);
        }
      } else {
        CollectFirst(to, from);
      }
    }

    method CollectFirst(to: Node, from: Node)
      requires Valid() && InHand(to, from) && from.content == g.cells[from] && from.content.Data? &&
        !Marked(g, run, from)
      modifies this, to, to.word
      ensures Valid() && Widened(old(nodes), old(slots)) && Collected(g, Begin(old(run), from), run, to)
      ensures todo.limbo == old(todo).limbo - {to} && todo.held == old(todo).held
      ensures to.stable ==> Home(run, to)
    {
      hide Valid, Good, Shows, WellFormed, BlockOk, Collected, Grows, Unique, Reachable, Deref, Collecting, Marked;
      StartCopy(to, from);
      GCollect(from, to);
    }

    /** What `from` holds when it is met. */
    lemma CollectStart(to: Node, from: Node)
      requires Valid() && InHand(to, from) && !g.cells[from].Outer?
      ensures to in nodes && to.word in slots && from in nodes
      ensures match from.content
        case RedToStable(dest) => MetAgain(to, dest) && dest.stable && dest in nodes && Marked(g, run, from)
        case RedToUnstable(dest) => MetAgain(to, dest) && !dest.stable && dest in nodes && Marked(g, run, from)
        case _ => from.content == g.cells[from] && from.content.Data? && !Marked(g, run, from)
    {
      hide Good;
      Parts(g, roots, run, todo);
      SourceContent(g, run, from);
      InLimbo(g, roots, run, todo, to);
    }

    /** The ghost view of the same memory changes. */
    ghost method Restate(r: Run)
      requires Shows() && r.from == run.from && r.to == run.to && r.val == run.val
      modifies `run
      ensures Shows() && run == r
    {
      run := r;
    }

    /** The copying of `from` begins. */
    ghost method StartCopy(to: Node, from: Node)
      requires Valid() && InHand(to, from) && !Marked(g, run, from)
      modifies `run
      ensures Valid() && Collecting(to, from) && run == Begin(old(run), from)
    {
      hide Good, Valid, Shows, ListsAre, WellFormed, BlockOk;
      Open();
      StartFacts(to, from);
      Restate(Begin(run, from));
      Close();
    }

    lemma StartFacts(to: Node, from: Node)
      requires Valid() && InHand(to, from) && !Marked(g, run, from)
      ensures Good(g, roots, Begin(run, from), todo) && Uncopied(g, Begin(run, from), to, from)
    {
      hide Good, Shows, WellFormed, BlockOk, Marked;
      Parts(g, roots, run, todo);
      UnmarkedHasNone(g, run, from);
      GoodBegin(g, roots, run, todo, from);
    }

    /** processNode: copy, then forward. */
    method ProcessNode(to: Node, from: Node)
      requires Valid() && InHand(to, from) && !g.cells[from].Outer?
      modifies this, nodes, slots, words
      ensures Valid() && Widened(old(nodes), old(slots)) && Processed(g, old(run), run, from, to)
      ensures todo.limbo == old(todo).limbo - {to} && todo.held == old(todo).held
      ensures Marked(g, old(run), from) ==> SameLists(old(todo), todo)
      ensures !Marked(g, old(run), from) && to.stable ==> Home(run, to)
    {
      hide Valid, Good, Shows, WellFormed, BlockOk, Collected, Widened, Grows, Unique, Processed, ListsAre, Reachable,
           WeakOpen, Left, Domains;
      ghost var r := run;
      Opened(to, from);
      Collect(to, from);
      ghost var r1 := run;
      MarkStep(r, to, from);
      if to.stable {
        Reinit(from, RedToStable(to), to, Mark(g, r1, from, to));
      } else {
        Reinit(from, RedToUnstable(to), to, Mark(g, r1, from, to));
      }
      Close();
    }

    lemma Opened(to: Node, from: Node)
      requires Valid() && InHand(to, from)
      ensures Domains(g, run) && from in nodes
    {
      hide Good;
      Parts(g, roots, run, todo);
    }

    lemma MarkStep(r: Run, to: Node, from: Node)
      requires Valid() && WellFormed(g) && Domains(g, r) && to in r.of && r.of[to] == from && r.busy == {}
      requires from in g.cells && g.cells[from].IsValue() && (Marked(g, r, from) || WeakOpen(r))
      requires Collected(g, r, run, to) || Collected(g, Begin(r, from), run, to)
      ensures Shows() && ListsAre(todo) && from in run.from && run.to.Keys !! run.from.Keys && from in nodes
      ensures from.word in words && OwnWords(g.cells.Keys) && Mark(g, run, from, to).from[from] != g.cells[from]
      ensures Good(g, roots, Mark(g, run, from, to), todo) && Processed(g, r, Mark(g, run, from, to), from, to)
    {
      hide Good, Shows, Valid, ListsAre, WellFormed, Processed, Grows, Unique, WeakOpen, BlockOk, Within, Words,
           QueuesOk, Complete;
      Open();
      Parts(g, roots, run, todo);
      InNodes(from);
      MarkDiffers(from, to);
      CollectedMarks(g, r, run, to, from);
      GoodMark(g, roots, run, todo, from, to);
      ProcessedByMark(g, r, run, from, to);
    }

    lemma MarkDiffers(s: Node, d: Node)
      requires Shows() && WellFormed(g) && s in g.cells && g.cells[s].IsValue()
      ensures s.word in words && OwnWords(g.cells.Keys) && MarkOf(g.cells[s], d) != g.cells[s]
    {
      OuterAtRest(g, s);
    }

    lemma InNodes(n: Node)
      requires Shows() && n in run.from
      ensures n in nodes
    {
    }

    /** Nothing is half done. */
    ghost predicate Idle()
      reads `run, `todo
    {
      todo.limbo == {} && todo.held == {} && run.busy == {}
    }

    /** The head of the list threaded through the stable nodes to be filled. */
    method PopStable() returns (to: Node, from: Node)
      requires Valid() && stableNodes != null && Idle()
      modifies `stableNodes, `todo
      ensures Valid() && old(todo).stable != [] && to == old(todo).stable[0]
      ensures todo == old(todo).(stable := old(todo).stable[1..], limbo := {to})
      ensures WellFormed(g) && to in run.of && from in g.cells && !g.cells[from].Outer? && Deref(g, from) == run.of[to]
    {
      hide Good, Shows, WellFormed, Deref;
      GoodDequeue(g, roots, run, todo, true);
      ShowsTo(stableNodes);
      assert todo.limbo + {stableNodes} == {stableNodes};
      to := stableNodes;
      stableNodes := to.content.grNext;
      from := to.content.grFrom;
      todo := todo.(stable := todo.stable[1..], limbo := {to});
    }

    method PopUnstable() returns (to: Node, from: Node)
      requires Valid() && unstableNodes != null && Idle()
      modifies `unstableNodes, `todo
      ensures Valid() && old(todo).unstable != [] && to == old(todo).unstable[0]
      ensures todo == old(todo).(unstable := old(todo).unstable[1..], limbo := {to})
      ensures WellFormed(g) && to in run.of && from in g.cells && !g.cells[from].Outer? && Deref(g, from) == run.of[to]
    {
      hide Good, Shows, WellFormed, Deref;
      GoodDequeue(g, roots, run, todo, false);
      ShowsTo(unstableNodes);
      assert todo.limbo + {unstableNodes} == {unstableNodes};
      to := unstableNodes;
      unstableNodes := to.content.grNext;
      from := to.content.grFrom;
      todo := todo.(unstable := todo.unstable[1..], limbo := {to});
    }

    lemma ShowsTo(n: Node)
      requires Shows()
      ensures n in run.to ==> n.content == run.to[n]
    {
    }

    /** Some value got copied, or nothing was put on a list. */
    ghost predicate Advanced(r: Run, q: Todo)
      reads `run, `todo
    {
      Left(g, run) < Left(g, r) || (Left(g, run) == Left(g, r) && SameLists(q, todo))
    }

    /** processNodeInternal. */
    method ProcessNodeInternal(stable: bool)
      requires Valid() && Idle() && WeakOpen(run) && (if stable then stableNodes else unstableNodes) != null
      modifies this, nodes, slots, words
      ensures Valid() && Idle() && WeakOpen(run) && Widened(old(nodes), old(slots)) && Grows(g, old(run), run)
      ensures old(todo).Chain(stable) != []
      ensures Advanced(old(run), old(todo).WithChain(stable, old(todo).Chain(stable)[1..]))
    {
      hide Valid, Good, Shows, WellFormed, BlockOk, Grows, Unique, Processed, Reachable, Deref, Marked, WeakOpen,
           ListsAre, Left, Domains, Home, Arrived;
      var to, f;
      if stable {
        to, f := PopStable();
      } else {
        to, f := PopUnstable();
      }
      ghost var r, q := run, todo;
      var from := Dereference(f);
      LimboFacts(to);
      ProcessNode(to, from);
      ProcessedFacts(r, q, from, to);
    }

    lemma ProcessedFacts(r: Run, q: Todo, s: Node, d: Node)
      requires Processed(g, r, run, s, d) && (Marked(g, r, s) ==> SameLists(q, todo)) && WeakOpen(r) && r.busy == {}
      requires s in g.cells && g.cells[s].IsValue()
      ensures Advanced(r, q) && WeakOpen(run) && Grows(g, r, run) && run.busy == {}
    {
      hide Grows, WeakOpen;
      if Marked(g, r, s) {
        assert s !in Left(g, r);
        assert Left(g, run) == Left(g, r);
      } else {
        assert s in Left(g, r) && s !in Left(g, run);
      }
    }

    /** pop_front, on a list of pointers. */
    method PopFront(way: Way) returns (a: Slot)
      requires Valid() && todo.Queue(way) != [] && Idle()
      modifies `spaces, `threads, `stableRefs, `weakStableRefs, `todo
      ensures Valid() && a == old(todo).Queue(way)[0] && a in run.aim && run.aim[a].way == way && a in run.open
      ensures todo == old(todo).WithQueue(way, old(todo).Queue(way)[1..]).(held := {a})
    {
      hide Good, Shows;
      GoodTake(g, roots, run, todo, way);
      match way {
        case SpaceWay => a, spaces := spaces[0], spaces[1..];
        case ThreadWay => a, threads := threads[0], threads[1..];
        case Strong => a, stableRefs := stableRefs[0], stableRefs[1..];
        case Weak => a, weakStableRefs := weakStableRefs[0], weakStableRefs[1..];
      }
      assert todo.held + {a} == {a};
      todo := todo.WithQueue(way, todo.Queue(way)[1..]).(held := {a});
    }

    /** What a pointer in hand holds: the old target. */
    lemma HeldFacts(a: Slot)
      requires Valid() && a in todo.held
      ensures a in run.open && a in run.aim && a in run.val && a in slots && a.target == run.val[a] && WellFormed(g) &&
        BlockOk(g, roots)
      ensures TargetOk(g, run.aim[a].way, a.target)
      ensures run.aim[a].node == if a.target == null then null else Deref(g, a.target)
      ensures run.aim[a].node != null && !run.aim[a].way.Weak? ==> Reachable(g, roots, run.aim[a].node)
    {
      hide WellFormed, Deref, Reachable, BlockOk, QueuesOk;
      Parts(g, roots, run, todo);
      assert SlotOk(g, run, a);
    }

    /** A pointer in hand is redirected. */
    method Redirect(a: Slot, v: Node?)
      requires Valid() && a in todo.held && a in run.aim
      requires v == null ==> run.aim[a].node == null || (run.aim[a].way.Weak? && !Marked(g, run, run.aim[a].node))
      requires v != null ==> Home(run, v) && v.stable && run.of[v] == run.aim[a].node
      modifies `run, `todo, a
      ensures Valid() && run == Resolve(old(run), a, v) && Grows(g, old(run), run) &&
        todo == old(todo).(held := old(todo).held - {a})
      ensures nodes == old(nodes) && slots == old(slots)
    {
      hide Good, Shows, Home, WellFormed, BlockOk, Reachable, Deref;
      HeldFacts(a);
      GoodResolve(g, roots, run, todo, a, v);
      Point(a, v, Resolve(run, a, v), todo.(held := todo.held - {a}));
    }

    /** RichNode(dest).getStableRef(vm), on a node of the new graph. */
    method GetStableRef(dest: Node) returns (v: Node)
      requires Valid() && Arrived(run, dest) && run.of[dest] in g.cells && !g.cells[run.of[dest]].Outer?
      modifies `run, `todo, `nodes, `slots, dest
      ensures Valid() && Widened(old(nodes), old(slots)) && todo == old(todo) && SharedOnly(g, old(run), run)
      ensures Home(run, v) && v.stable && dest in old(run).of && v in run.of && run.of[v] == old(run).of[dest]
    {
      hide Valid, Good, Shows, Home, SharedOnly, Widened;
      HomeOf(dest);
      if dest.content.Reference? {
        v := dest.content.dest;
        NotWidened();
        SharedSelf(g, run);
      } else if dest.stable {
        v := dest;
        NotWidened();
        SharedSelf(g, run);
      } else {
        v := EnsureStable(dest);
      }
    }

    /** ensureStable, on an unstable copy. */
    method EnsureStable(dest: Node) returns (v: Node)
      requires Valid() && Arrived(run, dest) && !dest.stable && !dest.content.Reference?
      requires run.of[dest] in g.cells && !g.cells[run.of[dest]].Outer?
      modifies `run, `todo, `nodes, `slots, dest
      ensures Valid() && Widened(old(nodes), old(slots)) && todo == old(todo) && SharedOnly(g, old(run), run)
      ensures Home(run, v) && v.stable && dest in old(run).of && v in run.of && run.of[v] == old(run).of[dest]
    {
      hide *;
      ghost var r, q := run, todo;
      SharedStart(dest);
      ghost var s := run.of[dest];
      v := NewNode(true, s);
      NewMeets(r, q, s, v, dest);
      InitFromUnstable(v, dest);
      LimboBack(q.limbo, v);
      SharedNew(r, v, s);
      WidenedBy(v);
    }

    lemma LimboBack(l: set<Node>, h: Node)
      requires h !in l
      ensures l + {h} - {h} == l
    {
    }

    lemma HomeOf(dest: Node)
      requires Valid() && Arrived(run, dest)
      ensures dest.content == run.to[dest] && dest in run.of && dest in nodes
      ensures dest.content.Reference? ==>
        && Home(run, dest.content.dest) && dest.content.dest.stable
        && dest.content.dest in run.of && run.of[dest.content.dest] == run.of[dest]
      ensures !dest.content.Reference? ==> Home(run, dest)
    {
      hide Good, WellFormed, BlockOk, Reachable, Within;
      Parts(g, roots, run, todo);
      ArrivedContent(g, run, dest);
    }

    lemma SharedStart(dest: Node)
      requires Valid() && Arrived(run, dest)
      ensures Domains(g, run) && Unique(g, run) && (forall n <- todo.limbo :: n in run.of)
      ensures dest in run.of && WellFormed(g) && BlockOk(g, roots) && Reachable(g, roots, run.of[dest])
      ensures run.of[dest] in g.cells && g.cells[run.of[dest]].IsValue()
    {
      hide Good, WellFormed, BlockOk, Reachable, Within, Copied;
      Parts(g, roots, run, todo);
      WithinOf(dest);
      ArrivedContent(g, run, dest);
    }

    lemma WithinOf(dest: Node)
      requires WellFormed(g) && BlockOk(g, roots) && Within(g, run, roots) && dest in run.of
      ensures Reachable(g, roots, run.of[dest])
    {
    }

    lemma NewMeets(r: Run, q: Todo, s: Node, h: Node, dest: Node)
      requires run == AddNode(r, h, s, Blank) && h !in r.of && todo == q.(limbo := q.limbo + {h})
      requires dest in r.of && r.of[dest] == s && Arrived(r, dest) && (forall n <- q.limbo :: n in r.of)
      requires WellFormed(g) && BlockOk(g, roots) && s in g.cells && !g.cells[s].Outer?
      ensures MetAgain(h, dest) && h !in q.limbo && h in run.of && run.of[h] == s
    {
    }

    lemma SharedNew(r: Run, h: Node, s: Node)
      requires Collected(g, AddNode(r, h, s, Blank), run, h) && h !in r.of && Domains(g, r) && Unique(g, r) &&
        h !in g.cells
      ensures SharedOnly(g, r, run) && h in run.of && run.of[h] == s
    {
      hide Grows, Marked, Home, Unique, OnlyAdds;
      AddNodeAdds(g, r, h, s, Blank);
      CollectedTrans(g, r, AddNode(r, h, s, Blank), run, h);
      Referred(g, AddNode(r, h, s, Blank), run, h, h);
    }

    /** A pointer to a node is in hand. */
    ghost predicate RefInHand(ref: Slot, weak: bool)
      reads `run, `todo
    {
      && todo.limbo == {} && todo.held == {ref} && run.busy == {} && (weak || WeakOpen(run))
      && ref in run.aim && run.aim[ref].way == if weak then Weak else Strong
    }

    /** The pointer in hand is dealt with; only a strong one may have caused a copy. */
    ghost predicate RefStep(r: Run, q: Todo, weak: bool)
      reads `run, `todo
    {
      && todo.limbo == {} && todo.held == {} && run.busy == {} && Grows(g, r, run) && (weak || WeakOpen(run))
      && (Left(g, run) < Left(g, r) || (Left(g, run) == Left(g, r) && SameLists(q, todo))) &&
         (weak ==> SameLists(q, todo))
    }

    /** processStableRefInternal. */
    method ProcessStableRefInternal(ref: Slot, weak: bool)
      requires Valid() && RefInHand(ref, weak)
      modifies this, nodes, slots, words
      ensures Valid() && Widened(old(nodes), old(slots)) && RefStep(old(run), old(todo), weak)
    {
      hide Valid, WellFormed, BlockOk, Deref, Home, Marked, Arrived, RefStep, RefInHand, Reachable;
      RefFacts(ref, weak);
      if ref.target == null {
        RedirectToNull(ref, weak);
        return;
      }
      var from := Dereference(ref.target);
      RefSource(from);
      if from.content.RedToStable? {
        RedirectToCopy(ref, from.content.dest, weak);
      } else if from.content.RedToUnstable? {
        RedirectToCopy(ref, from.content.dest, weak);
      } else if weak {
        RedirectToNull(ref, weak);
      } else {
        RedirectToNew(ref, from);
      }
    }

    /** ref = nullptr. */
    method RedirectToNull(ref: Slot, weak: bool)
      requires Valid() && RefInHand(ref, weak) && ref in slots
      requires run.aim[ref].node == null || (weak && !Marked(g, run, run.aim[ref].node))
      modifies `run, `todo, ref
      ensures Valid() && nodes == old(nodes) && slots == old(slots) && RefStep(old(run), old(todo), weak)
    {
      hide Valid, RefStep, Marked, WeakOpen, Grows;
      Redirect(ref, null);
      SharedSelf(g, old(run));
      Redirected(old(run), old(run), old(todo), ref, null, weak);
    }

    /** ref = RichNode(*dest).getStableRef(vm). */
    method RedirectToCopy(ref: Slot, dest: Node, weak: bool)
      requires Valid() && RefInHand(ref, weak) && ref in slots && Arrived(run, dest) && dest in run.of && dest in nodes
      requires run.of[dest] == run.aim[ref].node && run.of[dest] in g.cells && !g.cells[run.of[dest]].Outer?
      modifies this, nodes, slots
      ensures Valid() && Widened(old(nodes), old(slots)) && RefStep(old(run), old(todo), weak)
    {
      hide Valid, RefStep, Home, WeakOpen, Grows, Arrived, SharedOnly;
      var v := GetStableRef(dest);
      ghost var r1 := run;
      AimStays(old(run), ref);
      Redirect(ref, v);
      Redirected(old(run), r1, old(todo), ref, v, weak);
    }

    lemma AimStays(r: Run, ref: Slot)
      requires SharedOnly(g, r, run) && ref in r.aim
      ensures ref in run.aim && run.aim[ref] == r.aim[ref]
    {
    }

    /** ref = new (vm) StableNode, filled from `from`. */
    method RedirectToNew(ref: Slot, from: Node)
      requires Valid() && RefInHand(ref, false) && ref in slots && !Marked(g, run, from)
      requires WellFormed(g) && BlockOk(g, roots) && from in g.cells && g.cells[from].Data? && run.aim[ref].node == from
      requires Reachable(g, roots, from)
      modifies this, nodes, slots, words
      ensures Valid() && Widened(old(nodes), old(slots)) && RefStep(old(run), old(todo), false)
    {
      hide Valid, Home, WeakOpen, Grows, Arrived, Reachable, WellFormed, BlockOk, Marked, Processed, Left, Domains,
           Unique, AddNode, Resolve, RefStep, RefInHand, SameLists;
      ghost var r, q := run, todo;
      OuterStart();
      HandFacts(ref, from);
      var node := CopyNew(from);
      ghost var r2 := run;
      ProcessedNew(r, node, from, ref);
      Redirect(ref, node);
      NewDone(r, q, node, from, r2, ref);
    }

    /** A new stable node, filled from a value that has no copy yet. */
    method CopyNew(from: Node) returns (node: Node)
      requires Valid() && !Marked(g, run, from) && run.busy == {} && WeakOpen(run)
      requires WellFormed(g) && BlockOk(g, roots) && from in g.cells && g.cells[from].Data?
      requires Reachable(g, roots, from)
      modifies this, nodes, slots, words
      ensures Valid() && Widened(old(nodes), old(slots)) && node.stable && node !in old(run.of) && node !in g.cells
      ensures Processed(g, AddNode(old(run), node, from, Blank), run, from, node) && Home(run, node)
      ensures todo.limbo == old(todo).limbo + {node} - {node} && todo.held == old(todo).held
    {
      hide Valid, Home, WeakOpen, Grows, Arrived, Reachable, WellFormed, BlockOk, Marked, Processed, Left, Domains,
           Unique, AddNode, InHand, SameLists;
      ghost var r, q := run, todo;
      node := NewNode(true, from);
      NewInHand(r, q, node, from);
      ProcessNode(node, from);
    }

    lemma Redirected(r: Run, r1: Run, q: Todo, a: Slot, v: Node?, weak: bool)
      requires SharedOnly(g, r, r1) && run == Resolve(r1, a, v) && Grows(g, r1, run) && a in r1.aim
      requires q.limbo == {} && q.held == {a} && todo == q.(held := q.held - {a}) && r.busy == {}
      requires (weak || WeakOpen(r)) && r1.aim[a].way == if weak then Weak else Strong
      ensures RefStep(r, q, weak)
    {
      hide Grows, WeakOpen, SharedOnly, Left;
      ResolvedShared(g, r, r1, a, v);
    }

    lemma NewInHand(r: Run, q: Todo, h: Node, s: Node)
      requires run == AddNode(r, h, s, Blank) && todo == q.(limbo := q.limbo + {h}) && h !in r.of
      requires r.busy == {} && WeakOpen(r) && WellFormed(g) && BlockOk(g, roots)
      requires s in g.cells && g.cells[s].IsValue() && !Marked(g, r, s)
      ensures InHand(h, s) && !Marked(g, run, s)
    {
    }

    lemma HandFacts(ref: Slot, from: Node)
      requires (RefInHand(ref, false) || OuterInHand(ref)) && from in g.cells
      requires g.cells[from].Data? || g.cells[from].Outer?
      ensures g.cells[from].IsValue() && todo.limbo == {} && todo.held == {ref} && run.busy == {} && WeakOpen(run)
      ensures ref in run.aim && !run.aim[ref].way.Weak?
    {
      hide WeakOpen;
    }

    lemma NewDone(r: Run, q: Todo, h: Node, s: Node, r2: Run, a: Slot)
      requires Domains(g, r) && Unique(g, r) && h !in r.of && h !in g.cells && r.busy == {} && WeakOpen(r)
      requires Processed(g, AddNode(r, h, s, Blank), r2, s, h) && run == Resolve(r2, a, h) && Grows(g, r2, run)
      requires s in g.cells && g.cells[s].IsValue() && !Marked(g, r, s)
      requires a in r2.aim && !r2.aim[a].way.Weak? && todo.limbo == {} && todo.held == {}
      ensures RefStep(r, q, false)
    {
      hide Domains, Unique, WeakOpen, Processed, AddNode, Resolve, Grows, Marked, Left;
      ResolvedNew(g, r, h, s, r2, a);
    }

    lemma ProcessedNew(r: Run, h: Node, s: Node, a: Slot)
      requires Processed(g, AddNode(r, h, s, Blank), run, s, h) && a in r.aim
      ensures h in run.of && run.of[h] == s && a in run.aim && run.aim[a] == r.aim[a]
    {
      hide Left, Marked, Home, WeakOpen;
    }

    lemma RefFacts(ref: Slot, weak: bool)
      requires Valid() && RefInHand(ref, weak)
      ensures WellFormed(g) && BlockOk(g, roots) && ref in slots && ref in run.aim
      ensures ref.target == null ==> run.aim[ref].node == null
      ensures ref.target != null ==>
        && ref.target in g.cells && run.aim[ref].node == Deref(g, ref.target)
        && g.cells[run.aim[ref].node].Data? && (weak || Reachable(g, roots, run.aim[ref].node))
    {
      hide WellFormed, BlockOk, Deref, Reachable, Good, Shows, ListsAre;
      HeldFacts(ref);
    }

    lemma RefSource(s: Node)
      requires Valid() && s in g.cells && g.cells[s].Data?
      ensures Marked(g, run, s) <==> s.content.RedToStable? || s.content.RedToUnstable?
      ensures s.content.RedToStable? || s.content.RedToUnstable? ==>
        Arrived(run, s.content.dest) && s.content.dest in run.of && run.of[s.content.dest] == s &&
          s.content.dest in nodes
    {
      hide Valid, Good, Sound, Shows, ListsAre;
      Open();
      GoodIsSound(g, roots, run, todo);
      SourceContent(g, run, s);
      SourceShown(s);
    }

    lemma SourceShown(n: Node)
      requires Shows()
      ensures n in run.from ==> n.content == run.from[n] && n in nodes
      ensures forall d <- run.to :: d in nodes
    {
    }

    /** A pointer to a space or a thread is in hand. */
    ghost predicate OuterInHand(ref: Slot)
      reads `run, `todo
    {
      && todo.limbo == {} && todo.held == {ref} && run.busy == {} && WeakOpen(run)
      && ref in run.aim && (run.aim[ref].way.SpaceWay? || run.aim[ref].way.ThreadWay?)
    }

    /** processSpaceInternal and processThreadInternal. */
    method ProcessOuterInternal(ref: Slot)
      requires Valid() && OuterInHand(ref)
      modifies this, nodes, slots
      ensures Valid() && Widened(old(nodes), old(slots)) && RefStep(old(run), old(todo), false)
    {
      hide Valid, WellFormed, BlockOk, Deref, Home, Marked, Arrived, RefStep, OuterInHand, Reachable;
      OuterFacts(ref);
      var from: Node := ref.target;
      if from.content.replicate != null {
        RedirectToReplicate(ref, from.content.replicate);
      } else {
        RedirectToNewOuter(ref, from);
      }
    }

    lemma OuterFacts(ref: Slot)
      requires Valid() && OuterInHand(ref)
      ensures WellFormed(g) && BlockOk(g, roots) && ref in slots && ref in run.aim
      ensures ref.target != null && ref.target in g.cells && g.cells[ref.target].Outer? &&
        run.aim[ref].node == ref.target
      ensures Reachable(g, roots, ref.target) && ref.target.content.Outer?
      ensures ref.target.content.replicate == null ==>
        !Marked(g, run, ref.target) && ref.target.content == g.cells[ref.target]
      ensures var c := ref.target.content.replicate;
        c != null ==> c in run.of && run.of[c] == ref.target && Home(run, c) && c.stable
    {
      hide WellFormed, BlockOk, Reachable, Good, Shows, ListsAre, Sound, BlockCopied, KindOk;
      HeldFacts(ref);
      var s := ref.target;
      Open();
      GoodIsSound(g, roots, run, todo);
      SourceContent(g, run, s);
      SourceShown(s);
      OuterAtRest(g, s);
      if s.content.replicate != null {
        ArrivedContent(g, run, s.content.replicate);
        if run.to[s.content.replicate].Reference? {
          ArrivedContent(g, run, run.to[s.content.replicate].dest);
          assert false;
        }
      }
    }

    /** to = from->_replicate. */
    method RedirectToReplicate(ref: Slot, copy: Node)
      requires Valid() && OuterInHand(ref) && ref in slots && copy in run.of && Home(run, copy) && copy.stable
      requires run.of[copy] == run.aim[ref].node
      modifies `run, `todo, ref
      ensures Valid() && Widened(old(nodes), old(slots)) && RefStep(old(run), old(todo), false)
    {
      hide Valid, RefStep, Marked, WeakOpen, Grows, Home;
      Redirect(ref, copy);
      SharedSelf(g, old(run));
      RedirectedOuter(old(run), old(run), old(todo), ref, copy);
      NotWidened();
    }

    lemma RedirectedOuter(r: Run, r1: Run, q: Todo, a: Slot, v: Node?)
      requires SharedOnly(g, r, r1) && run == Resolve(r1, a, v) && Grows(g, r1, run) && a in r1.aim
      requires q.limbo == {} && q.held == {a} && todo == q.(held := q.held - {a}) && r.busy == {}
      requires WeakOpen(r) && !r1.aim[a].way.Weak?
      ensures RefStep(r, q, false)
    {
      hide Grows, WeakOpen, SharedOnly, Left;
      ResolvedShared(g, r, r1, a, v);
    }

    /** to = _replicate = gCollect(gc). */
    method RedirectToNewOuter(ref: Slot, from: Node)
      requires Valid() && OuterInHand(ref) && ref in slots && !Marked(g, run, from)
      requires WellFormed(g) && BlockOk(g, roots) && from in g.cells && g.cells[from].Outer? &&
        run.aim[ref].node == from
      requires from.content == g.cells[from] && Reachable(g, roots, from)
      modifies this, nodes, slots
      ensures Valid() && Widened(old(nodes), old(slots)) && RefStep(old(run), old(todo), false)
    {
      hide Valid, Home, WeakOpen, Grows, Arrived, Reachable, WellFormed, BlockOk, Marked, Processed, Left, Domains,
           Unique, Good, Shows, Collected, ListsAre, AddNode, Resolve, RefStep, RefInHand, OuterInHand, InHand,
           SameLists;
      ghost var r, q := run, todo;
      OuterStart();
      HandFacts(ref, from);
      var copy := NewNode(true, from);
      NewInHand(r, q, copy, from);
      GCollectOuter(copy, from);
      ghost var r2 := run;
      ProcessedNew(r, copy, from, ref);
      Redirect(ref, copy);
      NewDone(r, q, copy, from, r2, ref);
    }

    lemma OuterStart()
      requires Valid()
      ensures Domains(g, run) && Unique(g, run)
    {
      hide Good;
      Parts(g, roots, run, todo);
    }

    /** gCollectOuter, of a space or thread that has no replicate. */
    method GCollectOuter(copy: Node, from: Node)
      requires Valid() && InHand(copy, from) && !Marked(g, run, from) && copy.stable
      requires g.cells[from].Outer? && from.content == g.cells[from]
      modifies this, nodes, slots
      ensures Valid() && Widened(old(nodes), old(slots)) && Processed(g, old(run), run, from, copy) && Home(run, copy)
      ensures todo.limbo == old(todo).limbo - {copy} && todo.held == old(todo).held
    {
      hide Valid, Good, Shows, WellFormed, BlockOk, Collected, Grows, Unique, Processed, ListsAre, Reachable, Marked,
           WeakOpen, Left, Domains;
      ghost var r := run;
      Opened(copy, from);
      InNew(copy);
      var kind, block := from.content.kind, from.content.block;
      ValueKind(g, from);
      StartCopy(copy, from);
      Make(copy, from, kind, block);
      ghost var r1 := run;
      MarkStep(r, copy, from);
      WriteSource(from, Outer(kind, block, copy), Mark(g, r1, from, copy));
      Close();
    }

    lemma InNew(n: Node)
      requires Valid() && n in todo.limbo
      ensures n in nodes
    {
      hide Good;
      Parts(g, roots, run, todo);
    }

    /** One pass through the loop of runCopyLoop. */
    method CopyOne()
      requires Valid() && Idle() && WeakOpen(run)
      requires spaces != [] || threads != [] || stableNodes != null || unstableNodes != null || stableRefs != []
      modifies this, nodes, slots, words
      ensures Valid() && Idle() && WeakOpen(run) && Widened(old(nodes), old(slots)) && Grows(g, old(run), run)
      ensures Left(g, run) < Left(g, old(run)) || (Left(g, run) == Left(g, old(run)) && Size(todo) < Size(old(todo)))
    {
      hide Valid, Good, Shows, WeakOpen, Grows, Left, WellFormed, BlockOk;
      Open();
      if spaces != [] {
        var ref := PopFront(SpaceWay);
        ProcessOuterInternal(ref);
      } else if threads != [] {
        var ref := PopFront(ThreadWay);
        ProcessOuterInternal(ref);
      } else if stableNodes != null {
        ProcessNodeInternal(true);
      } else if unstableNodes != null {
        ProcessNodeInternal(false);
      } else {
        var ref := PopFront(Strong);
        ProcessStableRefInternal(ref, false);
      }
    }

    /** runCopyLoop. */
    method RunCopyLoop()
      requires Valid() && Idle() && WeakOpen(run)
      modifies this, nodes, slots, words
      ensures Valid() && AllDone(todo) && run.busy == {} && Widened(old(nodes), old(slots)) && Grows(g, old(run), run)
    {
      hide Valid, Good, Shows, WeakOpen, Grows, Left, WellFormed, BlockOk;
      NothingAdded(g, run);
      while spaces != [] || threads != [] || stableNodes != null || unstableNodes != null || stableRefs != []
        invariant Valid() && Idle() && WeakOpen(run) && Widened(old(nodes), old(slots)) && Grows(g, old(run), run)
        decreases Left(g, run), Size(todo)
      {
        ghost var r := run;
        CopyOne();
        GrowsTrans(g, old(run), r, run);
      }
      Open();
      while weakStableRefs != []
        invariant Valid() && Idle() && Widened(old(nodes), old(slots)) && Grows(g, old(run), run)
        invariant ListsAre(todo) && Size(todo) == 0
        decreases |weakStableRefs|
      {
        ghost var r := run;
        var ref := PopFront(Weak);
        ProcessStableRefInternal(ref, true);
        Open();
        GrowsTrans(g, old(run), r, run);
      }
    }

    /** doGC: the roots are copied, and then all that they lead to. */
    method DoGC(from: Block) returns (to: Block)
      requires Valid() && Idle() && WeakOpen(run) && from == roots && Plain(from)
      modifies this, nodes, slots, words
      ensures Replica(g, from, Result(run), to, run.of) && Plain(to)
      ensures Depicts(Result(run)) && run.to.Keys !! g.cells.Keys
    {
      hide Valid, Good, Shows, WeakOpen, Grows, WellFormed, BlockOk, BlockCopied, OnlyAdds, Replica;
      RootsOk();
      ghost var r := run;
      StepsOfRoots(g, roots);
      to := CopyBlock(from);
      ghost var r1 := run;
      OnlyAddsMarks(g, r, r1);
      RunCopyLoop();
      AtLast(r1, to);
    }

    lemma RootsOk()
      requires Valid()
      ensures WellFormed(g) && BlockOk(g, roots)
    {
      hide Good;
      GoodIsSound(g, roots, run, todo);
    }

    lemma AtLast(r1: Run, b: Block)
      requires Valid() && AllDone(todo) && run.busy == {} && Grows(g, r1, run)
      requires WellFormed(g) && BlockOk(g, roots) && BlockCopied(g, r1, b, roots)
      ensures Replica(g, roots, Result(run), b, run.of) && Depicts(Result(run)) && run.to.Keys !! g.cells.Keys
    {
      hide Good, WellFormed, BlockOk, BlockCopied, Grows, Replica, Within, Sound;
      Parts(g, roots, run, todo);
      AllIsDone(g, roots, run, todo);
      KeepBlock(g, r1, run, b, roots);
      ReplicaResult(g, run, b, roots);
    }
  }

  /** The memory holds the graph. */
  ghost predicate Depicts(g: Graph)
    reads g.cells.Keys, g.vals.Keys
  {
    (forall n <- g.cells :: n.content == g.cells[n]) && (forall a <- g.vals :: a.target == g.vals[a])
  }

  ghost function WordsOf(g: Graph): set<Slot> {
    set n <- g.cells :: n.word
  }

  ghost function Values(g: Graph): set<Node> {
    set n <- g.cells | g.cells[n].IsValue()
  }

  /** GarbageCollector(vm, mm).doGC(): whatever the graph, its roots get a replica of all they see. */
  method CollectGarbage(from: Block, ghost g: Graph) returns (to: Block, ghost g': Graph, ghost origin: map<Node, Node>)
    requires WellFormed(g) && BlockOk(g, from) && Plain(from) && Depicts(g)
    modifies g.cells.Keys, WordsOf(g)
    ensures Replica(g, from, g', to, origin) && Plain(to) && Depicts(g') && g'.cells.Keys !! g.cells.Keys
  {
    hide WellFormed, BlockOk, Replica;
    var gc := new GraphReplicator(g, from);
    to := gc.DoGC(from);
    g', origin := Result(gc.run), gc.run.of;
  }
}
