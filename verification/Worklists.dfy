/** The replicator's work lists: what they hold at every step, and that they hold all there is to do. */
module Worklists {
  import opened GraphStore
  import opened Replication

  /**
   * The lists as sequences. The nodes of `limbo` and the pointers of `held` are taken off a list, or
   * not yet put on one, but not done.
   */
  datatype Todo = Todo(stable: seq<Node>, unstable: seq<Node>,
                       spaces: seq<Slot>, threads: seq<Slot>, refs: seq<Slot>, weaks: seq<Slot>,
                       limbo: set<Node>, held: set<Slot>)
  {
    function Chain(stable: bool): seq<Node> {
      if stable then this.stable else unstable
    }

    function WithChain(stable: bool, list: seq<Node>): (q: Todo)
      ensures q.Chain(stable) == list && q.Chain(!stable) == Chain(!stable)
      ensures q == this.(stable := q.stable, unstable := q.unstable)
    {
      if stable then this.(stable := list) else this.(unstable := list)
    }

    function Queue(way: Way): seq<Slot> {
      match way
      case SpaceWay => spaces
      case ThreadWay => threads
      case Strong => refs
      case Weak => weaks
    }

    function WithQueue(way: Way, list: seq<Slot>): (q: Todo)
      ensures q.Queue(way) == list && forall w | w != way :: q.Queue(w) == Queue(w)
      ensures q == this.(spaces := q.spaces, threads := q.threads, refs := q.refs, weaks := q.weaks)
    {
      match way
      case SpaceWay => this.(spaces := list)
      case ThreadWay => this.(threads := list)
      case Strong => this.(refs := list)
      case Weak => this.(weaks := list)
    }
  }

  function Size(q: Todo): nat {
    |q.stable| + |q.unstable| + |q.spaces| + |q.threads| + |q.refs|
  }

  ghost predicate AllDone(q: Todo) {
    Size(q) == 0 && q.weaks == [] && q.limbo == {} && q.held == {}
  }

  function First(list: seq<Node>): Node? {
    if list == [] then null else list[0]
  }

  /** A node that carries in its own memory where it is to be copied from. */
  ghost predicate Queued(g: Graph, r: Run, n: Node, stable: bool)
    requires WellFormed(g)
  {
    && n in r.wait && n in r.to && n in r.of && n.stable == stable && r.to[n].Pending?
    && r.to[n].grFrom in g.cells && !g.cells[r.to[n].grFrom].Outer? && Deref(g, r.to[n].grFrom) == r.of[n]
  }

  /** The list threaded through the nodes from `head` on. */
  ghost predicate Chained(g: Graph, r: Run, head: Node?, list: seq<Node>, stable: bool)
    requires WellFormed(g)
    decreases |list|
  {
    if list == [] then head == null
    else
      && head == list[0] && Queued(g, r, list[0], stable) && list[0] !in list[1..]
      && Chained(g, r, r.to[list[0]].grNext, list[1..], stable)
  }

  ghost predicate OnQueue(r: Run, list: seq<Slot>, way: Way) {
    && (forall a <- list :: a in r.open && a in r.aim && r.aim[a].way == way)
    && (forall i, j | 0 <= i < j < |list| :: list[i] != list[j])
  }

  ghost predicate InChain(q: Todo, n: Node) {
    n in q.stable || n in q.unstable
  }

  ghost predicate InQueue(q: Todo, a: Slot) {
    a in q.spaces || a in q.threads || a in q.refs || a in q.weaks
  }

  /** Everything still to do is on a list or in hand. */
  ghost predicate Complete(r: Run, q: Todo) {
    && q.limbo <= r.wait && (forall n <- r.wait :: InChain(q, n) != (n in q.limbo))
    && q.held <= r.open && (forall a <- r.open :: InQueue(q, a) != (a in q.held))
  }

  ghost predicate QueuesOk(g: Graph, r: Run, q: Todo)
    requires WellFormed(g)
  {
    && Chained(g, r, First(q.stable), q.stable, true) && Chained(g, r, First(q.unstable), q.unstable, false)
    && (forall way: Way :: OnQueue(r, q.Queue(way), way))
    && Complete(r, q)
  }

  /** A node's own word is a registered pointer only once it holds an inline value. */
  ghost predicate Words(r: Run) {
    (forall n <- r.wait :: n.word !in r.aim) && OwnWords(r.of.Keys)
  }

  ghost predicate Good(g: Graph, b0: Block, r: Run, q: Todo) {
    Sound(g, r) && BlockOk(g, b0) && Within(g, r, b0) && Words(r) && QueuesOk(g, r, q)
  }

  lemma GoodIsSound(g: Graph, b0: Block, r: Run, q: Todo)
    requires Good(g, b0, r, q)
    ensures Sound(g, r) && WellFormed(g) && BlockOk(g, b0)
  {
    hide WellFormed, BlockOk, Within, Words, QueuesOk;
  }

  lemma {:induction false} ChainKept(g: Graph, r: Run, r': Run, head: Node?, list: seq<Node>, stable: bool)
    requires WellFormed(g) && Chained(g, r, head, list, stable)
    requires forall n <- list :: n in r'.wait && n in r'.to && n in r'.of
    requires forall n <- list :: n in r.to && n in r.of && r'.to[n] == r.to[n] && r'.of[n] == r.of[n]
    ensures Chained(g, r', head, list, stable)
    decreases |list|
  {
    hide WellFormed, Deref;
    if list != [] {
      ChainKept(g, r, r', r.to[list[0]].grNext, list[1..], stable);
    }
  }

  lemma {:induction false} ChainWaits(g: Graph, r: Run, head: Node?, list: seq<Node>, stable: bool)
    requires WellFormed(g) && Chained(g, r, head, list, stable)
    ensures forall n <- list :: n in r.wait && n in r.to && n in r.of && n.stable == stable
    decreases |list|
  {
    hide WellFormed, Deref;
    if list != [] {
      ChainWaits(g, r, r.to[list[0]].grNext, list[1..], stable);
    }
  }

  ghost predicate SameLists(q: Todo, q': Todo) {
    q'.stable == q.stable && q'.unstable == q.unstable && q'.spaces == q.spaces && q'.threads == q.threads
    && q'.refs == q.refs && q'.weaks == q.weaks
  }

  /** A step away from the lists. */
  lemma QueuesKept(g: Graph, r: Run, r': Run, q: Todo, q': Todo)
    requires WellFormed(g) && QueuesOk(g, r, q) && SameLists(q, q') && Complete(r', q')
    requires forall n <- r.wait :: InChain(q, n) ==> n in r'.wait && n in r.to && n in r'.to && r'.to[n] == r.to[n]
    requires forall n <- r.wait :: InChain(q, n) ==> n in r.of && n in r'.of && r'.of[n] == r.of[n]
    requires forall a <- r.open :: InQueue(q, a) ==> a in r'.open && a in r.aim && a in r'.aim && r'.aim[a] == r.aim[a]
    ensures QueuesOk(g, r', q')
  {
    hide WellFormed, Queued, Complete;
    ChainWaits(g, r, First(q.stable), q.stable, true);
    ChainWaits(g, r, First(q.unstable), q.unstable, false);
    ChainKept(g, r, r', First(q.stable), q.stable, true);
    ChainKept(g, r, r', First(q.unstable), q.unstable, false);
    forall way: Way ensures OnQueue(r', q'.Queue(way), way) {
      assert OnQueue(r, q.Queue(way), way);
      assert q'.Queue(way) == q.Queue(way);
      forall a | a in q'.Queue(way) ensures a in r'.open && a in r'.aim && r'.aim[a].way == way {
        assert a in r.open && InQueue(q, a);
      }
    }
  }

  // ---------------------------------------------------------------------- the steps

  lemma Parts(g: Graph, b0: Block, r: Run, q: Todo)
    requires Good(g, b0, r, q)
    ensures WellFormed(g) && Sound(g, r) && Domains(g, r) && BlockOk(g, b0) && Within(g, r, b0) && Words(r)
    ensures QueuesOk(g, r, q) && Complete(r, q)
    ensures Unique(g, r) && (forall n <- q.limbo :: n in r.wait)
    ensures forall n <- r.wait :: n in r.of && n in r.to
    ensures forall a <- r.open :: a in r.aim
    ensures forall n | InChain(q, n) :: n in r.wait && n !in q.limbo
    ensures forall a | InQueue(q, a) :: a in r.open && a !in q.held
  {
    hide WellFormed, Deref, BlockOk, Within, Queued, Unique, SourceOk, ToOk, SlotOk;
    ChainWaits(g, r, First(q.stable), q.stable, true);
    ChainWaits(g, r, First(q.unstable), q.unstable, false);
    forall a | InQueue(q, a) ensures a in r.open {
      assert OnQueue(r, q.Queue(SpaceWay), SpaceWay) && OnQueue(r, q.Queue(ThreadWay), ThreadWay);
      assert OnQueue(r, q.Queue(Strong), Strong) && OnQueue(r, q.Queue(Weak), Weak);
    }
  }

  /** A step that only fills, marks or redirects what is in hand. */
  lemma GoodKept(g: Graph, b0: Block, r: Run, r': Run, q: Todo, q': Todo)
    requires Good(g, b0, r, q) && Sound(g, r') && SameLists(q, q') && Complete(r', q')
    requires r'.of == r.of && r'.aim == r.aim && r'.wait <= r.wait
    requires forall n <- r.wait :: n !in q.limbo ==> n in r'.wait && n in r.to && n in r'.to && r'.to[n] == r.to[n]
    requires forall a <- r.open :: a !in q.held ==> a in r'.open
    ensures Good(g, b0, r', q')
  {
    hide Good, Sound, WellFormed, QueuesOk, Within, Words, BlockOk, Complete, InChain, InQueue, Domains, Unique;
    Parts(g, b0, r, q);
    SameReach(g, b0, r, r');
    QueuesKept(g, r, r', q, q');
    MakeGood(g, b0, r', q');
  }

  lemma SameReach(g: Graph, b0: Block, r: Run, r': Run)
    requires WellFormed(g) && BlockOk(g, b0) && Within(g, r, b0) && Words(r)
    requires r'.of == r.of && r'.aim == r.aim && r'.wait <= r.wait
    ensures Within(g, r', b0) && Words(r')
  {
    hide WellFormed, BlockOk, Reachable;
  }

  lemma GoodAddNode(g: Graph, b0: Block, r: Run, q: Todo, d: Node, s: Node, c: Content)
    requires Good(g, b0, r, q) && d !in r.of && d !in g.cells && s in g.cells && g.cells[s].IsValue()
    requires WellFormed(g) && BlockOk(g, b0) && Reachable(g, b0, s)
    requires d.word.own && d.word !in r.aim && forall n <- r.of :: n.word != d.word
    ensures Good(g, b0, AddNode(r, d, s, c), q.(limbo := q.limbo + {d}))
  {
    hide Good, Sound, WellFormed, QueuesOk, BlockOk, Reachable;
    var r', q' := AddNode(r, d, s, c), q.(limbo := q.limbo + {d});
    Parts(g, b0, r, q);
    AddNodeSound(g, r, d, s, c);
    AddNodeRest(g, b0, r, q, d, s, c);
    hide Domains, Complete, Within, Words, Grows;
    QueuesKept(g, r, r', q, q');
    MakeGood(g, b0, r', q');
  }

  lemma MakeGood(g: Graph, b0: Block, r: Run, q: Todo)
    requires WellFormed(g) && Sound(g, r) && BlockOk(g, b0) && Within(g, r, b0) && Words(r) && QueuesOk(g, r, q)
    ensures Good(g, b0, r, q)
  {
    hide Sound, BlockOk, Within, Words, QueuesOk, WellFormed;
  }

  lemma AddNodeRest(g: Graph, b0: Block, r: Run, q: Todo, d: Node, s: Node, c: Content)
    requires WellFormed(g) && BlockOk(g, b0) && Within(g, r, b0) && Words(r) && Complete(r, q)
    requires d !in r.of && r.wait <= r.of.Keys && Reachable(g, b0, s) && !InChain(q, d)
    requires d.word.own && d.word !in r.aim && forall n <- r.of :: n.word != d.word
    ensures var r' := AddNode(r, d, s, c);
      Within(g, r', b0) && Words(r') && Complete(r', q.(limbo := q.limbo + {d}))
  {
    hide WellFormed, BlockOk, Reachable;
  }

  lemma InLimbo(g: Graph, b0: Block, r: Run, q: Todo, d: Node)
    requires Good(g, b0, r, q) && d in q.limbo
    ensures WellFormed(g) && d in r.wait && d in r.of && d in r.to && !InChain(q, d)
    ensures d.word !in r.aim && r.of[d] in g.cells && g.cells[r.of[d]].IsValue()
    ensures BlockOk(g, b0) && Reachable(g, b0, r.of[d])
  {
    hide WellFormed, Reachable, Copied, QueuesOk, BlockOk;
    Parts(g, b0, r, q);
    assert ToOk(g, r, d);
  }

  lemma GoodOverlay(g: Graph, b0: Block, r: Run, q: Todo, d: Node, c: Content)
    requires Good(g, b0, r, q) && d in q.limbo
    ensures Good(g, b0, Overlay(r, d, c), q)
  {
    hide Good, Sound, WellFormed, QueuesOk, InChain, InQueue, Within, Words, BlockOk, Domains, Grows;
    Parts(g, b0, r, q);
    OverlaySound(g, r, d, c);
    GoodKept(g, b0, r, Overlay(r, d, c), q, q);
  }

  /** copyStableNode, copyUnstableNode. */
  lemma GoodEnqueue(g: Graph, b0: Block, r: Run, q: Todo, d: Node, f: Node)
    requires Good(g, b0, r, q) && d in q.limbo && d in r.of && WellFormed(g)
    requires f in g.cells && !g.cells[f].Outer? && Deref(g, f) == r.of[d]
    ensures var c := q.Chain(d.stable);
      Good(g, b0, Overlay(r, d, Pending(First(c), f)), q.WithChain(d.stable, [d] + c).(limbo := q.limbo - {d}))
  {
    hide Good, Sound, Reachable, WellFormed, BlockOk, Within, Words, Domains, InQueue, Deref;
    var c := q.Chain(d.stable);
    var r' := Overlay(r, d, Pending(First(c), f));
    var q' := q.WithChain(d.stable, [d] + c).(limbo := q.limbo - {d});
    GoodOverlay(g, b0, r, q, d, Pending(First(c), f));
    InLimbo(g, b0, r, q, d);
    Parts(g, b0, r', q);
    assert ([d] + c)[1..] == c;
    assert Chained(g, r', First([d] + c), [d] + c, d.stable);
    hide Chained, Queued;
    CompleteEnqueue(r', q, d);
    Rechain(g, r', q, d.stable, [d] + c, q.limbo - {d});
    MakeGood(g, b0, r', q');
  }

  lemma CompleteEnqueue(r: Run, q: Todo, d: Node)
    requires Complete(r, q) && d in q.limbo
    ensures Complete(r, q.WithChain(d.stable, [d] + q.Chain(d.stable)).(limbo := q.limbo - {d}))
  {
  }

  lemma Rechain(g: Graph, r: Run, q: Todo, stable: bool, list: seq<Node>, limbo: set<Node>)
    requires WellFormed(g) && QueuesOk(g, r, q) && Chained(g, r, First(list), list, stable)
    requires Complete(r, q.WithChain(stable, list).(limbo := limbo))
    ensures QueuesOk(g, r, q.WithChain(stable, list).(limbo := limbo))
  {
    hide WellFormed, Chained, Complete, OnQueue;
    var q' := q.WithChain(stable, list).(limbo := limbo);
    forall way: Way ensures OnQueue(r, q'.Queue(way), way) {
      assert OnQueue(r, q.Queue(way), way);
    }
  }

  /** Taking the head of a list of nodes. */
  lemma GoodDequeue(g: Graph, b0: Block, r: Run, q: Todo, stable: bool)
    requires Good(g, b0, r, q) && q.Chain(stable) != []
    ensures var c := q.Chain(stable);
      && Good(g, b0, r, q.WithChain(stable, c[1..]).(limbo := q.limbo + {c[0]}))
      && WellFormed(g) && Queued(g, r, c[0], stable) && r.to[c[0]].grNext == First(c[1..])
  {
    hide Good, Sound, Reachable, WellFormed, BlockOk, Within, Words, Domains, Deref;
    var c := q.Chain(stable);
    var q' := q.WithChain(stable, c[1..]).(limbo := q.limbo + {c[0]});
    Parts(g, b0, r, q);
    assert Chained(g, r, First(c), c, stable);
    assert Chained(g, r, r.to[c[0]].grNext, c[1..], stable);
    OneKind(g, r, q, c[0]);
    CompleteDequeue(r, q, stable);
    HeadOfChain(g, r, r.to[c[0]].grNext, c[1..], stable);
    hide Complete, Queued, Chained;
    Rechain(g, r, q, stable, c[1..], q.limbo + {c[0]});
    MakeGood(g, b0, r, q');
  }

  lemma HeadOfChain(g: Graph, r: Run, head: Node?, list: seq<Node>, stable: bool)
    requires WellFormed(g) && Chained(g, r, head, list, stable)
    ensures head == First(list)
  {
    hide WellFormed, Queued;
  }

  lemma CompleteDequeue(r: Run, q: Todo, stable: bool)
    requires Complete(r, q) && q.Chain(stable) != [] && q.Chain(stable)[0] !in q.Chain(stable)[1..]
    requires q.Chain(stable)[0] !in q.Chain(!stable) && q.Chain(stable)[0] in r.wait
    ensures var c := q.Chain(stable); Complete(r, q.WithChain(stable, c[1..]).(limbo := q.limbo + {c[0]}))
  {
    var c := q.Chain(stable);
    assert c == [c[0]] + c[1..];
  }

  /** A node is on one list only. */
  lemma OneKind(g: Graph, r: Run, q: Todo, n: Node)
    requires WellFormed(g) && QueuesOk(g, r, q)
    ensures n in q.stable ==> n !in q.unstable
    ensures n in q.unstable ==> n !in q.stable
  {
    hide WellFormed, Deref, Queued;
    ChainWaits(g, r, First(q.stable), q.stable, true);
    ChainWaits(g, r, First(q.unstable), q.unstable, false);
  }

  /** copySpace, copyThread, copyStableRef, copyWeakStableRef. */
  lemma GoodAddPointer(g: Graph, b0: Block, r: Run, q: Todo, a: Slot, t: Node?, aim: Aim)
    requires Good(g, b0, r, q) && a !in r.aim && TargetOk(g, aim.way, t) && WellFormed(g) && BlockOk(g, b0)
    requires aim.node == if t == null then null else Deref(g, t)
    requires aim.way.Weak? || aim.node == null || Reachable(g, b0, aim.node)
    requires forall n <- r.wait :: n.word != a
    ensures Good(g, b0, AddPointer(r, a, t, aim), q.WithQueue(aim.way, [a] + q.Queue(aim.way)))
  {
    hide Good, Sound, Reachable, WellFormed, BlockOk, Domains, Deref, QueuesOk, Grows;
    var r', q' := AddPointer(r, a, t, aim), q.WithQueue(aim.way, [a] + q.Queue(aim.way));
    Parts(g, b0, r, q);
    AddPointerSound(g, r, a, t, aim);
    assert Within(g, r', b0) && Words(r');
    hide Within, Words;
    CompletePush(r, q, a, t, aim);
    QueuesPush(g, r, q, a, t, aim);
    hide Complete;
    MakeGood(g, b0, r', q');
  }

  lemma CompletePush(r: Run, q: Todo, a: Slot, t: Node?, aim: Aim)
    requires Complete(r, q) && a !in r.open && !InQueue(q, a)
    ensures Complete(AddPointer(r, a, t, aim), q.WithQueue(aim.way, [a] + q.Queue(aim.way)))
  {
    var q' := q.WithQueue(aim.way, [a] + q.Queue(aim.way));
    forall x ensures InQueue(q', x) <==> InQueue(q, x) || x == a {
      QueuesOf(q, x);
      QueuesOf(q', x);
      assert x in q'.Queue(aim.way) <==> x == a || x in q.Queue(aim.way);
    }
    forall n ensures InChain(q', n) <==> InChain(q, n) {
    }
  }

  lemma QueuesOf(q: Todo, a: Slot)
    ensures InQueue(q, a) <==> exists way: Way :: a in q.Queue(way)
  {
    assert a in q.Queue(SpaceWay) <==> a in q.spaces;
    assert a in q.Queue(ThreadWay) <==> a in q.threads;
    assert a in q.Queue(Strong) <==> a in q.refs;
    assert a in q.Queue(Weak) <==> a in q.weaks;
  }

  lemma QueuesPush(g: Graph, r: Run, q: Todo, a: Slot, t: Node?, aim: Aim)
    requires WellFormed(g) && QueuesOk(g, r, q) && a !in r.aim
    requires Complete(AddPointer(r, a, t, aim), q.WithQueue(aim.way, [a] + q.Queue(aim.way)))
    ensures QueuesOk(g, AddPointer(r, a, t, aim), q.WithQueue(aim.way, [a] + q.Queue(aim.way)))
  {
    hide WellFormed, Deref, Complete;
    var r', q' := AddPointer(r, a, t, aim), q.WithQueue(aim.way, [a] + q.Queue(aim.way));
    ChainWaits(g, r, First(q.stable), q.stable, true);
    ChainWaits(g, r, First(q.unstable), q.unstable, false);
    ChainKept(g, r, r', First(q.stable), q.stable, true);
    ChainKept(g, r, r', First(q.unstable), q.unstable, false);
    forall way: Way ensures OnQueue(r', q'.Queue(way), way) {
      assert OnQueue(r, q.Queue(way), way);
    }
  }

  /** Taking the first pointer of a list. */
  lemma GoodTake(g: Graph, b0: Block, r: Run, q: Todo, way: Way)
    requires Good(g, b0, r, q) && q.Queue(way) != []
    ensures var c := q.Queue(way);
      && Good(g, b0, r, q.WithQueue(way, c[1..]).(held := q.held + {c[0]}))
      && c[0] in r.open && c[0] in r.aim && r.aim[c[0]].way == way
  {
    hide Good, Sound, Reachable, WellFormed, BlockOk, Domains, Deref, Within, Words, Chained;
    var c := q.Queue(way);
    var q' := q.WithQueue(way, c[1..]).(held := q.held + {c[0]});
    Parts(g, b0, r, q);
    assert OnQueue(r, c, way);
    TakeRest(g, r, q, way);
    MakeGood(g, b0, r, q');
  }

  lemma TakeRest(g: Graph, r: Run, q: Todo, way: Way)
    requires WellFormed(g) && QueuesOk(g, r, q) && q.Queue(way) != []
    ensures var c := q.Queue(way); QueuesOk(g, r, q.WithQueue(way, c[1..]).(held := q.held + {c[0]}))
  {
    hide WellFormed, Chained;
    var c := q.Queue(way);
    var q' := q.WithQueue(way, c[1..]).(held := q.held + {c[0]});
    forall w: Way ensures OnQueue(r, q'.Queue(w), w) {
      assert OnQueue(r, q.Queue(w), w);
    }
    assert c == [c[0]] + c[1..];
    assert OnQueue(r, c, way);
    forall w: Way ensures c[0] !in q'.Queue(w) {
      assert OnQueue(r, q.Queue(w), w);
    }
    forall x | x in r.open ensures InQueue(q', x) <==> InQueue(q, x) && x != c[0] {
      QueuesOf(q, x);
      QueuesOf(q', x);
      if x != c[0] && InQueue(q, x) {
        var w: Way :| x in q.Queue(w);
        assert x in q'.Queue(w);
      }
    }
  }

  // Steps on what is in hand.

  lemma CompleteOut(r: Run, r': Run, q: Todo, d: Node)
    requires Complete(r, q) && d in q.limbo && r'.wait == r.wait - {d} && r'.open == r.open
    ensures Complete(r', q.(limbo := q.limbo - {d}))
  {
  }

  lemma GoodFill(g: Graph, b0: Block, r: Run, q: Todo, d: Node, c: Content)
    requires Good(g, b0, r, q) && d in q.limbo && d in r.of && r.of[d] in g.cells && WellFormed(g)
    requires Copied(g, r, c, g.cells[r.of[d]], d)
    requires Marked(g, r, r.of[d]) || r.of[d] in r.busy
    requires g.cells[r.of[d]].IsCopyable() || forall e <- r.of :: Home(r, e) ==> r.of[e] != r.of[d]
    ensures Good(g, b0, Fill(r, d, c), q.(limbo := q.limbo - {d})) && Grows(g, r, Fill(r, d, c))
  {
    hide Good, Sound, WellFormed, QueuesOk, InQueue, Within, Words, BlockOk, Domains, Grows, Copied, Home, Marked;
    Parts(g, b0, r, q);
    FillSound(g, r, d, c);
    CompleteOut(r, Fill(r, d, c), q, d);
    GoodKept(g, b0, r, Fill(r, d, c), q, q.(limbo := q.limbo - {d}));
  }

  lemma GoodLink(g: Graph, b0: Block, r: Run, q: Todo, d: Node, h: Node)
    requires Good(g, b0, r, q) && d in q.limbo && d in r.of && Home(r, h) && h.stable && r.of[h] == r.of[d]
    requires r.to[h].Data? && !r.to[h].kind.copyable
    ensures Good(g, b0, Link(r, d, h), q.(limbo := q.limbo - {d})) && Grows(g, r, Link(r, d, h))
  {
    hide Good, Sound, WellFormed, QueuesOk, InQueue, Within, Words, BlockOk, Domains, Grows;
    Parts(g, b0, r, q);
    LinkSound(g, r, d, h);
    CompleteOut(r, Link(r, d, h), q, d);
    GoodKept(g, b0, r, Link(r, d, h), q, q.(limbo := q.limbo - {d}));
  }

  lemma GoodMove(g: Graph, b0: Block, r: Run, q: Todo, d: Node, h: Node)
    requires Good(g, b0, r, q) && h in q.limbo && Home(r, d) && !d.stable && !r.to[d].IsCopyable()
    requires h.stable && h in r.of && r.of[h] == r.of[d]
    ensures Good(g, b0, Move(r, d, h), q.(limbo := q.limbo - {h}))
  {
    hide Good, Sound, WellFormed, QueuesOk, InQueue, Within, Words, BlockOk, Domains, Grows;
    Parts(g, b0, r, q);
    MoveSound(g, r, d, h);
    CompleteOut(r, Move(r, d, h), q, h);
    GoodKept(g, b0, r, Move(r, d, h), q, q.(limbo := q.limbo - {h}));
  }

  lemma GoodMark(g: Graph, b0: Block, r: Run, q: Todo, s: Node, d: Node)
    requires Good(g, b0, r, q) && s in g.cells && g.cells[s].IsValue() && Arrived(r, d) && r.of[d] == s
    requires Marked(g, r, s) || WeakOpen(r)
    ensures Good(g, b0, Mark(g, r, s, d), q) && Grows(g, r, Mark(g, r, s, d))
  {
    hide Good, Sound, WellFormed, QueuesOk, InQueue, Within, Words, BlockOk, Domains, Grows;
    Parts(g, b0, r, q);
    MarkSound(g, r, s, d);
    GoodKept(g, b0, r, Mark(g, r, s, d), q, q);
  }

  lemma GoodBegin(g: Graph, b0: Block, r: Run, q: Todo, s: Node)
    requires Good(g, b0, r, q)
    ensures Good(g, b0, Begin(r, s), q)
  {
    hide Good, Sound, WellFormed, QueuesOk, InQueue, Within, Words, BlockOk, Domains, Grows;
    Parts(g, b0, r, q);
    BeginSound(g, r, s);
    GoodKept(g, b0, r, Begin(r, s), q, q);
  }

  lemma GoodResolve(g: Graph, b0: Block, r: Run, q: Todo, a: Slot, v: Node?)
    requires Good(g, b0, r, q) && a in q.held && a in r.aim
    requires v == null ==> r.aim[a].node == null || (r.aim[a].way.Weak? && !Marked(g, r, r.aim[a].node))
    requires v != null ==> Home(r, v) && v.stable && r.of[v] == r.aim[a].node
    ensures Good(g, b0, Resolve(r, a, v), q.(held := q.held - {a})) && Grows(g, r, Resolve(r, a, v))
  {
    hide Good, Sound, WellFormed, QueuesOk, InChain, Within, Words, BlockOk, Domains, Grows;
    Parts(g, b0, r, q);
    ResolveSound(g, r, a, v);
    CompleteResolve(r, q, a, v);
    GoodKept(g, b0, r, Resolve(r, a, v), q, q.(held := q.held - {a}));
  }

  lemma CompleteResolve(r: Run, q: Todo, a: Slot, v: Node?)
    requires Complete(r, q) && a in q.held
    ensures Complete(Resolve(r, a, v), q.(held := q.held - {a}))
  {
  }

  /** An inline value: the node's own word becomes the pointer, and goes on its list. */
  lemma GoodFillInline(g: Graph, b0: Block, r: Run, q: Todo, d: Node, k: Kind, way: Way, t: Node?, c: Content)
    returns (r1: Run, r2: Run, q2: Todo)
    requires Good(g, b0, r, q) && d in q.limbo && d in r.of && r.of[d] in g.cells && WellFormed(g) && BlockOk(g, b0)
    requires r.of[d] in r.busy && forall e <- r.of :: Home(r, e) ==> r.of[e] != r.of[d]
    requires TargetOk(g, way, t) && c == Data(k, Block([], [Pointer(d.word, way)])) && !k.copyable
    requires d.word !in r.aim ==>
      Copied(g, AddPointer(r, d.word, t, Aim(way, if t == null then null else Deref(g, t))), c, g.cells[r.of[d]], d)
    requires way.Weak? || t == null || Reachable(g, b0, Deref(g, t))
    requires !g.cells[r.of[d]].IsCopyable()
    ensures d.word !in r.aim
    ensures r1 == AddPointer(r, d.word, t, Aim(way, if t == null then null else Deref(g, t)))
    ensures r2 == Fill(r1, d, c) && q2 == q.WithQueue(way, [d.word] + q.Queue(way)).(limbo := q.limbo - {d})
    ensures Good(g, b0, r2, q2)
  {
    hide Good, Sound, Reachable, WellFormed, BlockOk, Domains, Deref, QueuesOk, Copied, InQueue;
    Parts(g, b0, r, q);
    InLimbo(g, b0, r, q, d);
    var aim := Aim(way, if t == null then null else Deref(g, t));
    r1 := AddPointer(r, d.word, t, aim);
    var q1 := q.WithQueue(way, [d.word] + q.Queue(way));
    r2, q2 := Fill(r1, d, c), q1.(limbo := q.limbo - {d});
    AddPointerSound(g, r, d.word, t, aim);
    CompletePush(r, q, d.word, t, aim);
    QueuesPush(g, r, q, d.word, t, aim);
    FillSound(g, r1, d, c);
    CompleteOut(r1, r2, q1, d);
    assert Within(g, r2, b0) && Words(r2);
    hide Within, Words, Grows, Home, Complete;
    ListsUntouched(g, r1, r2, q1, q2, d);
    MakeGood(g, b0, r2, q2);
  }

  lemma ListsUntouched(g: Graph, r: Run, r': Run, q: Todo, q': Todo, d: Node)
    requires WellFormed(g) && QueuesOk(g, r, q) && SameLists(q, q') && Complete(r', q') && d in q.limbo
    requires r'.of == r.of && r'.aim == r.aim && r'.open == r.open && r'.wait == r.wait - {d}
    requires forall n | n != d && n in r.to :: n in r'.to && r'.to[n] == r.to[n]
    ensures QueuesOk(g, r', q')
  {
    hide WellFormed, Deref;
    ChainWaits(g, r, First(q.stable), q.stable, true);
    ChainWaits(g, r, First(q.unstable), q.unstable, false);
    forall a | a in r.open && InQueue(q, a) ensures a in r.aim {
      assert OnQueue(r, q.Queue(SpaceWay), SpaceWay) && OnQueue(r, q.Queue(ThreadWay), ThreadWay);
      assert OnQueue(r, q.Queue(Strong), Strong) && OnQueue(r, q.Queue(Weak), Weak);
    }
    QueuesKept(g, r, r', q, q');
  }

  // Values met again: the copy is shared, duplicated if copyable, or moved to a stable node.

  /** set(dest), of a copyable content. */
  lemma GoodDuplicate(g: Graph, b0: Block, r: Run, q: Todo, d: Node, e: Node)
    requires Good(g, b0, r, q) && d in q.limbo && d in r.of && Arrived(r, e) && r.of[e] == r.of[d] &&
      r.to[e].IsCopyable()
    ensures var r' := Fill(r, d, r.to[e]);
      Good(g, b0, r', q.(limbo := q.limbo - {d})) && Collected(g, r, r', d) && (!r.to[e].Reference? ==> Home(r', d))
  {
    hide Good, Sound, BlockOk, Within, Words, QueuesOk, Copied, Grows;
    Parts(g, b0, r, q);
    ArrivedContent(g, r, e);
    if r.to[e].Reference? {
      GoodLink(g, b0, r, q, d, r.to[e].dest);
    } else {
      CopyableAnywhere(g, r, r.to[e], g.cells[r.of[e]], e, d);
      MarkedOrBusy(g, r, e);
      GoodFill(g, b0, r, q, d, r.to[e]);
    }
  }

  lemma MarkedOrBusy(g: Graph, r: Run, e: Node)
    requires Sound(g, r) && Arrived(r, e)
    ensures Marked(g, r, r.of[e]) || r.of[e] in r.busy
  {
    hide WellFormed, SourceOk, SlotOk, Unique, Copied;
    assert ToOk(g, r, e);
  }

  /** make<Reference>(dest), to a stable copy. */
  lemma GoodRefer(g: Graph, b0: Block, r: Run, q: Todo, d: Node, e: Node)
    requires Good(g, b0, r, q) && d in q.limbo && d in r.of && Arrived(r, e) && r.of[e] == r.of[d]
    requires !r.to[e].IsCopyable() && e.stable && !g.cells[r.of[e]].Outer? && r.of[e] in g.cells
    ensures Good(g, b0, Link(r, d, e), q.(limbo := q.limbo - {d})) && Collected(g, r, Link(r, d, e), d)
  {
    hide Good, Sound, BlockOk, Within, Words, QueuesOk, Grows, BlockCopied, KindOk;
    Parts(g, b0, r, q);
    ArrivedContent(g, r, e);
    GoodLink(g, b0, r, q, d, e);
  }

  /** set(dest) and dest.make<Reference>(this), from an unstable copy. */
  lemma GoodMoved(g: Graph, b0: Block, r: Run, q: Todo, e: Node, h: Node)
    requires Good(g, b0, r, q) && h in q.limbo && h in r.of && Arrived(r, e) && r.of[e] == r.of[h]
    requires !r.to[e].IsCopyable() && !e.stable && h.stable
    ensures Good(g, b0, Move(r, e, h), q.(limbo := q.limbo - {h})) && Collected(g, r, Move(r, e, h), h)
    ensures Home(Move(r, e, h), h) && Move(r, e, h).to[h].Data? && !Move(r, e, h).to[h].kind.copyable
  {
    hide Good, Sound, BlockOk, Within, Words, QueuesOk, Grows, BlockCopied, KindOk;
    Parts(g, b0, r, q);
    ArrivedContent(g, r, e);
    GoodMove(g, b0, r, q, e, h);
    MoveSound(g, r, e, h);
  }

  /** Before anything is copied. */
  ghost function Initial(g: Graph): Run {
    Run(g.cells, map[], map[], map[], map[], {}, {}, {})
  }

  const NOTHING: Todo := Todo([], [], [], [], [], [], {}, {})

  lemma GoodInitial(g: Graph, b0: Block)
    requires WellFormed(g) && BlockOk(g, b0)
    ensures Good(g, b0, Initial(g), NOTHING) && WeakOpen(Initial(g))
  {
    hide WellFormed, BlockOk;
    forall way: Way ensures OnQueue(Initial(g), NOTHING.Queue(way), way) {
    }
  }

  /** Empty lists mean that everything is done. */
  lemma AllIsDone(g: Graph, b0: Block, r: Run, q: Todo)
    requires Good(g, b0, r, q) && AllDone(q)
    ensures r.wait == {} && r.open == {}
  {
    hide WellFormed, BlockOk, Sound;
    Parts(g, b0, r, q);
    assert forall n <- r.wait :: InChain(q, n) != (n in q.limbo);
    assert forall a <- r.open :: InQueue(q, a) != (a in q.held);
  }
}
