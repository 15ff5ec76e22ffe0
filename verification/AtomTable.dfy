/** AtomTable: the PATRICIA trie that interns atoms. */
module AtomTable {
  import opened AtomBits
  import opened Wrappers

  /** AtomImpl; `zero` and `one` are side[0] and side[1]. */
  class AtomImpl {
    const data: Octets
    const critBit: nat
    var zero: AtomImpl?
    var one: AtomImpl?

    constructor (data: Octets, critBit: nat, d: bool, other: AtomImpl?)
      ensures this.data == data && this.critBit == critBit
      ensures zero == if d then other else this
      ensures one == if d then this else other
    {
      this.data, this.critBit := data, critBit;
      new;
      if d {
        one, zero := this, other;
      } else {
        zero, one := this, other;
      }
    }
  }

  /** The ghost view: a node met going down, an uplink to a node, or a null side. */
  datatype Trie = Null | Up(node: AtomImpl) | Down(node: AtomImpl, zero: Trie, one: Trie)
  {
    function Node(): AtomImpl? {
      if Null? then null else node
    }

    function Side(b: bool): Trie
      requires Down?
    {
      if b then one else zero
    }

    /** The nodes met going down. */
    ghost function Nodes(): set<AtomImpl> {
      if Down? then {node} + zero.Nodes() + one.Nodes() else {}
    }

    /** The uplinks: the atoms a walk can end at. */
    ghost function Atoms(): set<AtomImpl> {
      match this
      case Null => {}
      case Up(n) => {n}
      case Down(_, z, o) => z.Atoms() + o.Atoms()
    }

    ghost predicate Distinct() {
      Down? ==>
        && node !in zero.Nodes() && node !in one.Nodes() && zero.Nodes() !! one.Nodes()
        && zero.Distinct() && one.Distinct()
    }
  }

  function Fork(b: bool, n: AtomImpl, near: Trie, far: Trie): (t: Trie)
    ensures t.Down? && t.node == n && t.Side(b) == near && t.Side(!b) == far
  {
    if b then Down(n, far, near) else Down(n, near, far)
  }

  datatype Context = Top | Hole(side: bool, node: AtomImpl, sibling: Trie, up: Context)
  {
    function Fill(t: Trie): Trie
      requires Hole?
    {
      Fork(side, node, t, sibling)
    }

    function Plug(t: Trie): Trie
      decreases this
    {
      if Top? then t else up.Plug(Fill(t))
    }

    ghost function Nodes(): set<AtomImpl> {
      if Top? then {} else {node} + sibling.Nodes() + up.Nodes()
    }

    ghost function Atoms(): set<AtomImpl> {
      if Top? then {} else sibling.Atoms() + up.Atoms()
    }

    ghost predicate Distinct() {
      Hole? ==>
        && node !in sibling.Nodes() && node !in up.Nodes() && sibling.Nodes() !! up.Nodes()
        && sibling.Distinct() && up.Distinct()
    }

    /** nextToCheck: the first bit not yet compared on the way to the hole. */
    function Next(): nat {
      if Top? then 0 else node.critBit + 1
    }
  }

  // ------------------------------------------------------------------ the strings

  /** No octet is 0xFF, as in every UTF-8 string (section 1 of RFC 3629). */
  predicate NoFF(s: Octets) {
    forall i :: 0 <= i < |s| ==> s[i] != 0xFF
  }

  lemma SameOctet(s: Octets, t: Octets, i: nat)
    requires Agree(s, t, 8 * i, 8 * i + 8)
    ensures CharAt(s, i) == CharAt(t, i)
  {
    forall k: nat | k < 8 ensures Bit(CharAt(s, i), k) == Bit(CharAt(t, i), k) {
      assert (8 * i + k) / 8 == i && (8 * i + k) % 8 == k;
      CharBits(s, 8 * i + k);
      CharBits(t, 8 * i + k);
      assert BitAt(s, 8 * i + k) == BitAt(t, 8 * i + k);
    }
    SameBits(CharAt(s, i), CharAt(t, i));
  }

  /** Strings whose padded bits agree one octet past the end of one of them are equal. */
  lemma SameString(s: Octets, t: Octets)
    requires NoFF(s) && NoFF(t) && Agree(s, t, 0, 8 * |s| + 8)
    ensures s == t
  {
    if |t| > |s| {
      SameOctet(s, t, |s|);
      assert false;
    } else if |t| < |s| {
      SameOctet(s, t, |t|);
      assert false;
    }
    forall i | 0 <= i < |s| ensures s[i] == t[i] {
      SameOctet(s, t, i);
    }
  }

  // ------------------------------------------------------- the PATRICIA invariant

  /** The atoms below `n` agree with it below its critical bit. */
  ghost predicate AgreeWith(n: AtomImpl, atoms: set<AtomImpl>, to: nat) {
    forall a <- atoms :: Agree(n.data, a.data, 0, to)
  }

  ghost predicate HaveBit(atoms: set<AtomImpl>, pos: nat, b: bool) {
    forall a <- atoms :: BitAt(a.data, pos) == b
  }

  /** The atoms below a node: itself among them, alike below its critical bit, and split by that bit. */
  ghost predicate Parts(n: AtomImpl, zeros: set<AtomImpl>, ones: set<AtomImpl>) {
    && n in zeros + ones && AgreeWith(n, zeros + ones, n.critBit)
    && HaveBit(zeros, n.critBit, false) && HaveBit(ones, n.critBit, true)
  }

  /** A trie whose critical bits are at least `lo`. */
  ghost predicate Patricia(t: Trie, lo: nat) {
    match t
    case Null => false
    case Up(n) => n.critBit < lo
    case Down(n, z, o) =>
      && lo <= n.critBit && Parts(n, z.Atoms(), o.Atoms())
      && Patricia(o, n.critBit + 1)
      && if z == Null then o == Up(n) && n.critBit == 8 * |n.data| + 8 else Patricia(z, n.critBit + 1)
  }

  ghost predicate Strings(t: Trie) {
    forall a <- t.Atoms() :: NoFF(a.data)
  }

  /** A key that agrees with every atom of a subtree up to its place in the trie. */
  ghost predicate OnPath(ctx: Context, key: Octets) {
    ctx.Hole? ==>
      && Agree(key, ctx.node.data, 0, ctx.node.critBit) && BitAt(key, ctx.node.critBit) == ctx.side
      && OnPath(ctx.up, key)
  }

  ghost predicate AgreeAll(key: Octets, atoms: set<AtomImpl>, to: nat) {
    forall a <- atoms :: Agree(key, a.data, 0, to)
  }

  lemma {:induction false} SomeAtom(t: Trie, lo: nat) returns (a: AtomImpl)
    requires Patricia(t, lo)
    ensures a in t.Atoms()
  {
    a := t.node;
  }

  /** Atoms are canonical: equal strings are the same atom. */
  lemma {:induction false} UniqueAtoms(t: Trie, lo: nat, a: AtomImpl, b: AtomImpl)
    requires Patricia(t, lo) && a in t.Atoms() && b in t.Atoms() && a.data == b.data
    ensures a == b
    decreases t
  {
    if t.Down? {
      var p := t.node.critBit;
      if a in t.one.Atoms() && b in t.one.Atoms() {
        UniqueAtoms(t.one, p + 1, a, b);
      } else if a in t.zero.Atoms() && b in t.zero.Atoms() {
        UniqueAtoms(t.zero, p + 1, a, b);
      }
    }
  }

  lemma AgreeTrans(x: Octets, y: Octets, z: Octets, to: nat)
    requires Agree(y, x, 0, to) && Agree(y, z, 0, to)
    ensures Agree(x, z, 0, to)
  {
    forall p: nat | p < to ensures BitAt(x, p) == BitAt(z, p) {
      assert BitAt(y, p) == BitAt(x, p);
    }
  }

  /** A critical bit lies within the padded octet after any atom below it. */
  lemma CritBitBound(t: Trie, lo: nat, a: AtomImpl)
    requires Patricia(t, lo) && Strings(t) && t.Down? && a in t.Atoms()
    ensures t.node.critBit <= 8 * |a.data| + 8
  {
    var p := t.node.critBit;
    if t.zero != Null && a in t.one.Atoms() {
      var b := SomeAtom(t.zero, p + 1);
      AgreeTrans(a.data, t.node.data, b.data, p);
      if p >= 8 * |a.data| + 8 {
        SameString(a.data, b.data);
        assert false;
      }
    }
  }

  /** Going down one node: the side the key's bit selects exists, and the key agrees with all of it. */
  lemma Descend(t: Trie, lo: nat, key: Octets)
    requires Patricia(t, lo) && Strings(t) && t.Down? && NoFF(key)
    requires AgreeAll(key, t.Atoms(), lo) && Agree(key, t.node.data, lo, t.node.critBit)
    ensures Agree(key, t.node.data, 0, t.node.critBit)
    ensures var c := t.Side(BitAt(key, t.node.critBit));
      && Patricia(c, t.node.critBit + 1) && Strings(c)
      && AgreeAll(key, c.Atoms(), t.node.critBit + 1)
      && forall a <- c.Atoms() :: t.node.critBit <= 8 * |a.data| + 8
  {
    var n := t.node;
    var p := n.critBit;
    var c := t.Side(BitAt(key, p));
    assert Agree(key, n.data, 0, lo);
    if t.zero == Null {
      SameString(n.data, key);
    }
    forall a | a in c.Atoms() ensures Agree(key, a.data, 0, p + 1) {
      assert a in t.Atoms();
      assert BitAt(a.data, p) == BitAt(key, p);
      assert Agree(n.data, a.data, 0, p);
    }
    forall a | a in c.Atoms() ensures p <= 8 * |a.data| + 8 {
      CritBitBound(t, lo, a);
    }
  }

  /** A new node that splits off `key`, whose bits first leave the atoms of `t` at `f`. */
  lemma SplitOff(t: Trie, lo: nat, n: AtomImpl)
    requires Patricia(t, lo) && lo <= n.critBit
    requires t.Down? ==> n.critBit < t.node.critBit
    requires AgreeAll(n.data, t.Atoms(), lo)
    requires Agree(n.data, t.node.data, lo, n.critBit) && BitAt(n.data, n.critBit) != BitAt(t.node.data, n.critBit)
    ensures var s := Fork(BitAt(n.data, n.critBit), n, Up(n), t);
      Patricia(s, lo) && s.Atoms() == t.Atoms() + {n} && n !in t.Atoms()
    ensures forall a <- t.Atoms() :: a.data != n.data
  {
    var f := n.critBit;
    assert t.node in t.Atoms();
    forall a | a in t.Atoms() ensures Agree(n.data, a.data, 0, f) && BitAt(a.data, f) != BitAt(n.data, f) {
      if t.Down? {
        assert Agree(t.node.data, a.data, 0, t.node.critBit);
        assert BitAt(t.node.data, f) == BitAt(a.data, f);
        forall p: nat | p < f ensures BitAt(n.data, p) == BitAt(a.data, p) {
          assert BitAt(t.node.data, p) == BitAt(a.data, p);
        }
      }
    }
  }

  /** The subtree in a hole of a table is itself a trie. */
  lemma {:induction false} SubtreePatricia(ctx: Context, t: Trie)
    requires Patricia(ctx.Plug(t), 0) && t != Null
    ensures Patricia(t, ctx.Next())
    decreases ctx
  {
    if ctx.Hole? {
      SubtreePatricia(ctx.up, ctx.Fill(t));
    }
  }

  lemma {:induction false} PlugAtoms(ctx: Context, t: Trie)
    ensures ctx.Plug(t).Atoms() == ctx.Atoms() + t.Atoms()
    decreases ctx
  {
    if ctx.Hole? {
      PlugAtoms(ctx.up, ctx.Fill(t));
    }
  }

  /** A string whose bits lead to a subtree is nowhere else in the trie. */
  lemma {:induction false} OnlyBelow(ctx: Context, t: Trie, key: Octets)
    requires Patricia(ctx.Plug(t), 0) && OnPath(ctx, key) && t != Null
    ensures forall a <- ctx.Plug(t).Atoms() :: a.data == key ==> a in t.Atoms()
    decreases ctx
  {
    if ctx.Hole? {
      OnlyBelow(ctx.up, ctx.Fill(t), key);
      SubtreePatricia(ctx.up, ctx.Fill(t));
    }
  }

  lemma PartsGrow(n: AtomImpl, zeros: set<AtomImpl>, ones: set<AtomImpl>, a: AtomImpl)
    requires Parts(n, zeros, ones) && Agree(n.data, a.data, 0, n.critBit)
    ensures if BitAt(a.data, n.critBit) then Parts(n, zeros, ones + {a}) else Parts(n, zeros + {a}, ones)
  {
    hide BitAt, Agree;
  }

  /** One node up: its invariant survives a new atom below it that has its bits. */
  lemma GrowFill(ctx: Context, t: Trie, s: Trie, n: AtomImpl)
    requires ctx.Hole? && Patricia(ctx.Fill(t), ctx.up.Next()) && Patricia(s, ctx.Next()) && t != Null
    requires s.Atoms() == t.Atoms() + {n} && NoFF(n.data) && NoFF(ctx.node.data)
    requires Agree(ctx.node.data, n.data, 0, ctx.node.critBit) && BitAt(n.data, ctx.node.critBit) == ctx.side
    requires ctx.node.data != n.data
    ensures Patricia(ctx.Fill(s), ctx.up.Next()) && ctx.Fill(s).Atoms() == ctx.Fill(t).Atoms() + {n}
  {
    hide Agree, BitAt, NoFF, Parts;
    var old_t := ctx.Fill(t);
    PartsGrow(ctx.node, old_t.zero.Atoms(), old_t.one.Atoms(), n);
    if ctx.sibling == Null {
      PaddedPast(ctx.node, n.data);
      assert false;
    }
  }

  lemma PaddedPast(q: AtomImpl, key: Octets)
    requires q.critBit == 8 * |q.data| + 8 && NoFF(q.data) && NoFF(key) && Agree(q.data, key, 0, q.critBit)
    ensures q.data == key
  {
    SameString(q.data, key);
  }

  /** Growing a subtree by an atom whose bits lead to it keeps the whole trie's invariant. */
  lemma {:induction false} GrowSubtree(ctx: Context, t: Trie, s: Trie, n: AtomImpl)
    requires Patricia(ctx.Plug(t), 0) && Patricia(s, ctx.Next()) && t != Null
    requires s.Atoms() == t.Atoms() + {n} && OnPath(ctx, n.data)
    requires NoFF(n.data) && Strings(ctx.Plug(t))
    requires forall a <- ctx.Plug(t).Atoms() :: a.data != n.data
    ensures Patricia(ctx.Plug(s), 0)
    decreases ctx
  {
    hide Patricia, NoFF;
    if ctx.Hole? {
      var old_t, new_t := ctx.Fill(t), ctx.Fill(s);
      SubtreePatricia(ctx.up, old_t);
      PlugAtoms(ctx.up, old_t);
      InTrie(old_t, ctx.up.Next());
      GrowFill(ctx, t, s, n);
      GrowSubtree(ctx.up, old_t, new_t, n);
    }
  }

  lemma InTrie(t: Trie, lo: nat)
    requires Patricia(t, lo)
    ensures t.node in t.Atoms()
  {
  }

  // ------------------------------------------------------------ 0xFF and the padding

  /** A string without the octets 0xFF at its end. */
  function WithoutTrailingFF(s: Octets): (r: Octets)
    ensures forall i: nat :: CharAt(r, i) == CharAt(s, i)
    ensures r != [] ==> r[|r| - 1] != 0xFF
  {
    if s != [] && s[|s| - 1] == 0xFF then WithoutTrailingFF(s[..|s| - 1]) else s
  }

  lemma NotLonger(u: Octets, v: Octets)
    requires u != [] ==> u[|u| - 1] != 0xFF
    requires forall i: nat :: CharAt(u, i) == CharAt(v, i)
    ensures |u| <= |v|
  {
    if u != [] {
      var last: nat := |u| - 1;
      assert CharAt(u, last) == u[last];
    }
  }

  /** Strings the padding cannot tell apart: exactly those that differ in trailing octets 0xFF. */
  lemma PaddingConfuses(s: Octets, t: Octets)
    ensures (forall p: nat :: BitAt(s, p) == BitAt(t, p)) <==> WithoutTrailingFF(s) == WithoutTrailingFF(t)
  {
    var u, v := WithoutTrailingFF(s), WithoutTrailingFF(t);
    if forall p: nat :: BitAt(s, p) == BitAt(t, p) {
      forall i: nat ensures CharAt(u, i) == CharAt(v, i) {
        SameOctet(s, t, i);
      }
      NotLonger(u, v);
      NotLonger(v, u);
      forall i | 0 <= i < |u| ensures u[i] == v[i] {
        assert CharAt(u, i) == CharAt(v, i);
      }
    } else if u == v {
      forall p: nat ensures BitAt(s, p) == BitAt(t, p) {
        CharBits(s, p);
        CharBits(t, p);
        assert CharAt(u, p / 8) == CharAt(v, p / 8);
      }
    }
  }

  /**
   * The strings that the walk cannot tell from `s` by the bits below the critical bit of a table's
   * first atom `s`: `s` itself, those that go on with an octet 0xFF, and those that are `s` cut
   * before octets 0xFF.
   */
  lemma UndecidedByFirst(s: Octets, t: Octets)
    ensures Agree(s, t, 0, 8 * |s| + 8) <==>
      s == t || s + [0xFF] <= t || (t < s && forall i :: |t| <= i < |s| ==> s[i] == 0xFF)
  {
    if Agree(s, t, 0, 8 * |s| + 8) {
      forall i: nat | i <= |s| ensures CharAt(s, i) == CharAt(t, i) {
        SameOctet(s, t, i);
      }
      forall i | 0 <= i < |s| && i < |t| ensures s[i] == t[i] {
        assert CharAt(s, i) == CharAt(t, i);
      }
      forall i | |t| <= i < |s| ensures s[i] == 0xFF {
        assert CharAt(s, i) == CharAt(t, i);
      }
      if |t| > |s| {
        assert CharAt(s, |s|) == CharAt(t, |s|);
      }
    }
    if s == t || s + [0xFF] <= t || (t < s && forall i :: |t| <= i < |s| ==> s[i] == 0xFF) {
      forall p: nat | p < 8 * |s| + 8 ensures BitAt(s, p) == BitAt(t, p) {
        CharBits(s, p);
        CharBits(t, p);
        if s + [0xFF] <= t {
          assert t[p / 8] == (s + [0xFF])[p / 8];
        }
      }
    }
  }

  // ------------------------------------------------------------------- the heap

  datatype Sides = Sides(zero: AtomImpl?, one: AtomImpl?)
  {
    function With(b: bool, n: AtomImpl?): Sides {
      if b then Sides(zero, n) else Sides(n, one)
    }
  }

  /** The side pointers a trie stands for. */
  ghost function Links(t: Trie): (m: map<AtomImpl, Sides>)
    ensures m.Keys == t.Nodes()
  {
    if t.Down? then Links(t.zero) + Links(t.one) + map[t.node := Sides(t.zero.Node(), t.one.Node())] else map[]
  }

  ghost function ContextLinks(ctx: Context, hole: AtomImpl?): (m: map<AtomImpl, Sides>)
    ensures m.Keys == ctx.Nodes()
    decreases ctx
  {
    if ctx.Top? then map[]
    else
      var s := ctx.sibling.Node();
      ContextLinks(ctx.up, ctx.node) + Links(ctx.sibling) + map[ctx.node := Sides(s, s).With(ctx.side, hole)]
  }

  ghost predicate Shows(m: map<AtomImpl, Sides>)
    reads m.Keys
  {
    forall n <- m.Keys :: Sides(n.zero, n.one) == m[n]
  }

  ghost predicate Apart(ctx: Context, t: Trie) {
    ctx.Distinct() && t.Distinct() && ctx.Nodes() !! t.Nodes()
  }

  lemma {:induction false} PlugDistinct(ctx: Context, t: Trie)
    ensures ctx.Plug(t).Nodes() == ctx.Nodes() + t.Nodes()
    ensures ctx.Plug(t).Distinct() <==> Apart(ctx, t)
    decreases ctx
  {
    if ctx.Hole? {
      PlugDistinct(ctx.up, ctx.Fill(t));
    }
  }

  lemma {:induction false} PlugNode(ctx: Context, t: Trie, t': Trie)
    ensures ctx.Hole? ==> ctx.Plug(t).Node() == ctx.Plug(t').Node() && ctx.Plug(t) != Null
    ensures ctx.Top? ==> ctx.Plug(t) == t
    decreases ctx
  {
    if ctx.Hole? {
      PlugNode(ctx.up, ctx.Fill(t), ctx.Fill(t'));
    }
  }

  lemma {:induction false} PlugLinks(ctx: Context, t: Trie)
    requires Apart(ctx, t)
    ensures Links(ctx.Plug(t)) == ContextLinks(ctx, t.Node()) + Links(t)
    decreases ctx
  {
    if ctx.Hole? {
      PlugLinks(ctx.up, ctx.Fill(t));
      Regroup(ContextLinks(ctx.up, ctx.node), Links(ctx.sibling), Links(t),
              map[ctx.node := ContextLinks(ctx, t.Node())[ctx.node]]);
    } else {
      PlusEmpty(Links(t));
    }
  }

  /** What a walk reads at the node it stands on. */
  lemma LinksAt(ctx: Context, t: Trie)
    requires t.Down? && ctx.Plug(t).Distinct()
    ensures t.node in Links(ctx.Plug(t)).Keys
    ensures Links(ctx.Plug(t))[t.node] == Sides(t.zero.Node(), t.one.Node())
  {
    PlugDistinct(ctx, t);
    PlugLinks(ctx, t);
  }

  lemma Rehole(ctx: Context, h: AtomImpl?, h': AtomImpl?)
    requires ctx.Hole?
    ensures ContextLinks(ctx, h') == ContextLinks(ctx, h)[ctx.node := ContextLinks(ctx, h)[ctx.node].With(ctx.side, h')]
  {
  }

  lemma GraftUnion<X, Y>(a: map<X, Y>, b: map<X, Y>, x: X, y: Y, n: X, v: Y)
    requires x in a && x !in b && n !in a && n !in b
    ensures a[x := y] + (b + map[n := v]) == (a + b)[x := y][n := v]
  {
  }

  lemma GraftUnionTop<X, Y>(b: map<X, Y>, n: X, v: Y)
    ensures map[] + (b + map[n := v]) == (map[] + b)[n := v]
  {
  }

  lemma ForkLinks(b: bool, n: AtomImpl, t: Trie)
    ensures Links(Fork(b, n, Up(n), t)) == Links(t) + map[n := Sides(t.Node(), t.Node()).With(b, n)]
  {
    PlusEmpty(Links(t));
  }

  lemma GraftApart(ctx: Context, t: Trie, b: bool, n: AtomImpl)
    requires ctx.Plug(t).Distinct() && n !in ctx.Plug(t).Nodes()
    ensures Apart(ctx, t) && Apart(ctx, Fork(b, n, Up(n), t))
    ensures n !in ctx.Nodes() && n !in t.Nodes() && (ctx.Hole? ==> ctx.node in ctx.Nodes())
    ensures ctx.Plug(Fork(b, n, Up(n), t)).Distinct()
    ensures ctx.Plug(Fork(b, n, Up(n), t)).Nodes() == ctx.Plug(t).Nodes() + {n}
  {
    PlugDistinct(ctx, t);
    PlugDistinct(ctx, Fork(b, n, Up(n), t));
  }

  /** The side pointers after a new node `n` took the place of `t`, with `t` on its far side. */
  lemma Graft(ctx: Context, t: Trie, b: bool, n: AtomImpl) returns (m: map<AtomImpl, Sides>, m': map<AtomImpl, Sides>)
    requires ctx.Plug(t).Distinct() && n !in ctx.Plug(t).Nodes()
    ensures m == Links(ctx.Plug(t)) && m' == Links(ctx.Plug(Fork(b, n, Up(n), t)))
    ensures n !in m && (ctx.Hole? ==> ctx.node in m)
    ensures m' == (if ctx.Hole? then m[ctx.node := m[ctx.node].With(ctx.side, n)] else m)
                  [n := Sides(t.Node(), t.Node()).With(b, n)]
  {
    hide Trie.Distinct, Context.Distinct, Trie.Nodes, Context.Nodes, Links, Apart, Context.Plug, Fork;
    var s := Fork(b, n, Up(n), t);
    GraftApart(ctx, t, b, n);
    PlugLinks(ctx, t);
    PlugLinks(ctx, s);
    ForkLinks(b, n, t);
    m, m' := Links(ctx.Plug(t)), Links(ctx.Plug(s));
    var sides := Sides(t.Node(), t.Node()).With(b, n);
    if ctx.Hole? {
      Rehole(ctx, t.Node(), n);
      GraftUnion(ContextLinks(ctx, t.Node()), Links(t), ctx.node, m[ctx.node].With(ctx.side, n), n, sides);
    } else {
      GraftUnionTop(Links(t), n, sides);
    }
  }

  /** `root` is the topmost node of `t`, and `t` is what its nodes' side pointers hold. */
  ghost predicate Represents(root: AtomImpl?, t: Trie)
    reads t.Nodes()
  {
    root == t.Node() && t.Distinct() && Shows(Links(t))
  }

  lemma ReadSide(root: AtomImpl?, ctx: Context, t: Trie, b: bool)
    requires Represents(root, ctx.Plug(t)) && t.Down?
    ensures (if b then t.node.one else t.node.zero) == t.Side(b).Node()
  {
    LinksAt(ctx, t);
  }

  ghost predicate Canonical(t: Trie) {
    (t != Null ==> Patricia(t, 0)) && Strings(t) && t.Nodes() == t.Atoms()
  }

  /** Interning never makes two atoms with the same string, so atoms count strings. */
  lemma {:induction false} AtomsCountStrings(t: Trie, some: set<AtomImpl>)
    requires Canonical(t) && some <= t.Atoms()
    ensures |some| == |set a <- some :: a.data|
    decreases |some|
  {
    var strings := set a <- some :: a.data;
    if a :| a in some {
      var rest := some - {a};
      AtomsCountStrings(t, rest);
      forall b | b in rest ensures b.data != a.data {
        if b.data == a.data {
          UniqueAtoms(t, 0, a, b);
          assert false;
        }
      }
      assert strings == (set b <- rest :: b.data) + {a.data};
    }
  }

  lemma FirstAtom(a: AtomImpl)
    requires a.critBit == 8 * |a.data| + 8 && NoFF(a.data)
    ensures var t := Down(a, Null, Up(a));
      Canonical(t) && t.Distinct() && t.Nodes() == {a} && Links(t) == map[a := Sides(null, a)]
  {
  }

  /** Where the walk of getInternal stands. */
  ghost predicate Reached(ctx: Context, t: Trie, data: Octets) {
    OnPath(ctx, data) && Patricia(t, ctx.Next()) && Strings(t) && AgreeAll(data, t.Atoms(), ctx.Next())
  }

  /** A mismatch at bit `f` of the node the walk stands on: the string is new, and belongs there. */
  ghost predicate Splits(ctx: Context, t: Trie, data: Octets, f: nat) {
    && Reached(ctx, t, data) && ctx.Next() <= f && Agree(data, t.node.data, ctx.Next(), f)
    && BitAt(data, f) != BitAt(t.node.data, f) && (t.Down? ==> f < t.node.critBit)
  }

  lemma InsertAtom(ctx: Context, t: Trie, n: AtomImpl)
    requires Canonical(ctx.Plug(t)) && Splits(ctx, t, n.data, n.critBit) && NoFF(n.data)
    ensures var r := ctx.Plug(Fork(BitAt(n.data, n.critBit), n, Up(n), t));
      Patricia(r, 0) && Strings(r) && r.Atoms() == ctx.Plug(t).Atoms() + {n}
    ensures forall a <- ctx.Plug(t).Atoms() :: a.data != n.data
  {
    hide BitAt;
    var s := Fork(BitAt(n.data, n.critBit), n, Up(n), t);
    PlugNode(ctx, t, t);
    SplitOff(t, ctx.Next(), n);
    OnlyBelow(ctx, t, n.data);
    PlugAtoms(ctx, t);
    PlugAtoms(ctx, s);
    GrowSubtree(ctx, t, s, n);
  }

  /** An uplink all of whose padded bits agree with the string leads to the string's atom. */
  lemma Arrived(ctx: Context, t: Trie, data: Octets)
    requires t.Up? && Reached(ctx, t, data) && NoFF(data)
    requires ctx.Next() <= 8 * |t.node.data| + 9 && Agree(data, t.node.data, ctx.Next(), 8 * |t.node.data| + 16)
    requires Canonical(ctx.Plug(t))
    ensures t.node in ctx.Plug(t).Nodes() && t.node.data == data
  {
    PlugAtoms(ctx, t);
    assert t.node in t.Atoms();
    SameString(t.node.data, data);
  }

  /** An edge is an uplink exactly when its node's critical bit was already compared. */
  lemma Recognise(ctx: Context, t: Trie, data: Octets)
    requires Reached(ctx, t, data)
    ensures t != Null && (t.Up? <==> t.node.critBit < ctx.Next())
  {
  }

  lemma Start(root: AtomImpl?, t: Trie, data: Octets)
    requires Represents(root, t) && Canonical(t) && root != null
    ensures Reached(Top, t, data) && t.Node() == root && Top.Plug(t) == t
  {
  }

  lemma Descends(t: Trie, lo: nat, b: bool)
    requires Patricia(t, lo) && t.Down?
    ensures t.Side(b) == Null ==> t.zero == Null && !b
  {
  }

  lemma WalkDown(ctx: Context, t: Trie, data: Octets)
    requires Reached(ctx, t, data) && NoFF(data) && t.Down? && Agree(data, t.node.data, ctx.Next(), t.node.critBit)
    ensures var b := BitAt(data, t.node.critBit);
      && Reached(Hole(b, t.node, t.Side(!b), ctx), t.Side(b), data)
      && t.Side(b) != Null && forall x <- t.Side(b).Atoms() :: t.node.critBit <= 8 * |x.data| + 8
  {
    Descends(t, ctx.Next(), BitAt(data, t.node.critBit));
    hide BitAt, NoFF, Patricia, AgreeAll;
    Descend(t, ctx.Next(), data);
  }

  class AtomTable {
    var root: AtomImpl?
    var count: nat

    ghost var trie: Trie
    ghost var atoms: set<AtomImpl>

    ghost predicate Valid()
      reads this, trie.Nodes()
    {
      Represents(root, trie) && Canonical(trie) && atoms == trie.Nodes() && count == |atoms|
    }

    constructor ()
      ensures Valid() && atoms == {}
    {
      root, count := null, 0;
      trie, atoms := Null, {};
    }

    /** The nodes now form `r`. */
    ghost method Adopt(r: Trie)
      requires Represents(root, r) && Canonical(r) && atoms == r.Nodes() && count == |atoms|
      modifies `trie
      ensures Valid() && trie == r
    {
      hide Represents, Canonical;
      trie := r;
    }

    /** `*curP = n`, where curP points at the root or at a side of `owner`. */
    method SetSide(owner: AtomImpl?, side: bool, n: AtomImpl, ghost m: map<AtomImpl, Sides>,
                   ghost m': map<AtomImpl, Sides>)
      requires Shows(m) && n !in m && (owner != null ==> owner in m)
      requires m' == (if owner != null then m[owner := m[owner].With(side, n)] else m)[n := Sides(n.zero, n.one)]
      modifies `root, m.Keys
      ensures Shows(m') && root == if owner == null then n else old(root)
    {
      if owner == null {
        root := n;
      } else if side {
        owner.one := n;
      } else {
        owner.zero := n;
      }
    }

    ghost predicate IsSlot(owner: AtomImpl?, side: bool, ctx: Context) {
      if ctx.Top? then owner == null else owner == ctx.node && side == ctx.side
    }

    /** `*curP = new AtomImpl(...)`. */
    method Splice(owner: AtomImpl?, side: bool, data: Octets, f: nat, b: bool, cur: AtomImpl,
                  ghost ctx: Context, ghost t: Trie)
      returns (n: AtomImpl)
      requires Represents(root, ctx.Plug(t)) && t.Node() == cur && ctx.Plug(t).Nodes() <= atoms &&
        IsSlot(owner, side, ctx)
      modifies `root, ctx.Plug(t).Nodes()
      ensures fresh(n) && n.data == data && n.critBit == f
      ensures Represents(root, ctx.Plug(Fork(b, n, Up(n), t)))
      ensures ctx.Plug(Fork(b, n, Up(n), t)).Nodes() == ctx.Plug(t).Nodes() + {n}
    {
      hide Trie.Distinct, Context.Distinct, Trie.Nodes, Context.Nodes, Links, Apart, Context.Plug, Fork, Shows;
      n := new AtomImpl(data, f, b, cur);
      GraftApart(ctx, t, b, n);
      ghost var m, m' := Graft(ctx, t, b, n);
      PlugNode(ctx, t, Fork(b, n, Up(n), t));
      PlugNode(ctx, Fork(b, n, Up(n), t), t);
      SetSide(owner, side, n, m, m');
    }

    /** getInternal, at a mismatch. */
    method Missing(data: Octets, owner: AtomImpl?, side: bool, cur: AtomImpl, f: nat, ghost ctx: Context, ghost t: Trie)
      returns (a: AtomImpl)
      requires Valid() && NoFF(data) && ctx.Plug(t) == trie && t.Node() == cur && IsSlot(owner, side, ctx)
      requires Splits(ctx, t, data, f)
      modifies this, atoms
      ensures Valid() && fresh(a) && a.data == data && atoms == old(atoms) + {a} && count == old(count) + 1
      ensures forall b <- old(atoms) :: b.data != data
    {
      hide Represents, BitAt, NoFF, Patricia, Splits, IsSlot, Agree;
      a := Splice(owner, side, data, f, BitAt(data, f), cur, ctx, t);
      InsertAtom(ctx, t, a);
      atoms, count := atoms + {a}, count + 1;
      Adopt(ctx.Plug(Fork(BitAt(data, f), a, Up(a), t)));
    }

    /** The loop of getInternal: it ends at the atom of `data`, or where a new one belongs. */
    method Walk(data: Octets)
      returns (found: bool, owner: AtomImpl?, side: bool, cur: AtomImpl, f: nat, ghost ctx: Context, ghost t: Trie)
      requires Valid() && NoFF(data) && root != null
      ensures Valid()
      ensures found ==> cur in atoms && cur.data == data
      ensures !found ==> ctx.Plug(t) == trie && t.Node() == cur && IsSlot(owner, side, ctx) && Splits(ctx, t, data, f)
    {
      hide BitAt, NoFF, Patricia, AgreeAll, OnPath, Strings, Reached, Represents, Canonical, Trie.Nodes, Trie.Distinct;
      Start(root, trie, data);
      owner, side, cur := null, false, root;
      var nextToCheck := 0;
      ctx, t := Top, trie;
      while true
        invariant ctx.Plug(t) == trie && t.Node() == cur && nextToCheck == ctx.Next()
        invariant IsSlot(owner, side, ctx) && Reached(ctx, t, data)
        invariant forall x <- t.Atoms() :: ctx.Next() <= 8 * |x.data| + 9
        decreases t
      {
        Recognise(ctx, t, data);
        var checkEnd := cur.critBit;
        var cand := false;
        if cur.critBit < nextToCheck {
          cand := true;
          checkEnd := 8 * |cur.data| + 16;
        }
        f := FirstMismatch(data, cur.data, nextToCheck, checkEnd);
        if f < checkEnd {
          found := false;
          return;
        }
        if cand {
          Arrived(ctx, t, data);
          found := true;
          return;
        }
        WalkDown(ctx, t, data);
        var b := BitAt(data, cur.critBit);
        ReadSide(root, ctx, t, b);
        nextToCheck := cur.critBit + 1;
        owner, side := cur, b;
        ctx, t := Hole(b, t.node, t.Side(!b), ctx), t.Side(b);
        cur := if b then owner.one else owner.zero;
      }
    }

    /** getInternal, on the empty table. */
    method First(data: Octets) returns (a: AtomImpl)
      requires Valid() && NoFF(data) && root == null
      modifies this
      ensures Valid() && fresh(a) && a.data == data && atoms == {a} && old(atoms) == {}
    {
      count := count + 1;
      a := new AtomImpl(data, 8 * |data| + 8, true, null);
      root := a;
      FirstAtom(a);
      atoms := {a};
      Adopt(Down(a, Null, Up(a)));
    }

    /** getInternal. */
    method GetInternal(data: Octets) returns (a: AtomImpl)
      requires Valid() && NoFF(data)
      modifies this, atoms
      ensures Valid() && a.data == data && atoms == old(atoms) + {a}
      ensures a in old(atoms) <==> exists b <- old(atoms) :: b.data == data
      ensures a in old(atoms) ==> trie == old(trie)
      ensures a !in old(atoms) ==> fresh(a)
    {
      hide Valid;
      if root == null {
        a := First(data);
        return;
      }
      var found, owner, side, cur, f;
      ghost var ctx, t;
      found, owner, side, cur, f, ctx, t := Walk(data);
      if found {
        a := cur;
      } else {
        a := Missing(data, owner, side, cur, f, ctx, t);
      }
    }

    /** Distinct atoms have distinct strings, so the table counts its strings. */
    lemma CountsStrings()
      requires Valid()
      ensures forall a, b | a in atoms && b in atoms :: a.data == b.data ==> a == b
      ensures count == |set a <- atoms :: a.data|
    {
      if trie != Null {
        forall a, b | a in atoms && b in atoms && a.data == b.data ensures a == b {
          UniqueAtoms(trie, 0, a, b);
        }
      }
      AtomsCountStrings(trie, atoms);
    }

    /** Any sequence of calls: equal atoms for equal strings and only for them. */
    method InternAll(strings: seq<Octets>) returns (r: seq<AtomImpl>)
      requires Valid() && forall s <- strings :: NoFF(s)
      modifies this, atoms
      ensures Valid() && old(atoms) <= atoms && |r| == |strings|
      ensures forall i | 0 <= i < |r| :: r[i] in atoms && r[i].data == strings[i]
      ensures forall i, j | 0 <= i < |r| && 0 <= j < |r| :: r[i] == r[j] <==> strings[i] == strings[j]
      ensures forall s :: (exists a <- atoms :: a.data == s) <==> s in strings || exists a <- old(atoms) :: a.data == s
      ensures count == |set a <- atoms :: a.data|
    {
      hide Valid, NoFF;
      r := [];
      var i := 0;
      while i < |strings|
        invariant i <= |strings| && |r| == i && Valid() && old(atoms) <= atoms && fresh(atoms - old(atoms))
        invariant forall j | 0 <= j < i :: r[j] in atoms && r[j].data == strings[j]
        invariant forall a <- atoms :: a in old(atoms) || a in r
      {
        var a := GetInternal(strings[i]);
        r := r + [a];
        i := i + 1;
      }
      CountsStrings();
    }
  }
}
