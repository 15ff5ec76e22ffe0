/** The values a pickle holds, and the bytes they are written as. */
module PickleFormat {

  type Byte = n: int | 0 <= n < 0x100
  type Text = seq<Byte>
  type Uuid = bs: seq<Byte> | |bs| == 16 witness seq(16, _ => 0)
  type ByteCode = n: int | 0 <= n < 0x1_0000

  const SIZES: int := 0x1_0000_0000

  datatype TextKind = IntText | FloatText | AtomText | UniqueText | StringText

  /** The values whose last reference is written first: a label, or an arity. */
  datatype Shape = Tuple | Arity | Record | OpenRecord

  /** A node, with what it refers to: nodes of a store, dataflow variables, or indices of a pickle. */
  datatype Value<R> =
    | Words(kind: TextKind, text: Text)
    | Bool(b: bool)
    | UnitValue
    | Cons(head: R, tail: R)
    | Compound(shape: Shape, elements: seq<R>, last: R)
    | Builtin(moduleName: Text, name: Text)
    | CodeArea(uuid: Uuid, code: seq<ByteCode>, arity: nat, xcount: nat, printName: Text, ks: seq<R>, debugData: R)
    | Wildcard
    | Capture(index: nat)
    | Conjunction(elements: seq<R>)
    | Abstraction(uuid: Uuid, elements: seq<R>, last: R)
    | Chunk(underlying: R)
    | Name(uuid: Uuid)
    | NamedName(uuid: Uuid, printName: Text)
    | Future
    | Resource(sort: int)

  /** The references, in the order serialize copies them. */
  function Children<R>(v: Value<R>): seq<R> {
    match v
    case Cons(h, t) => [h, t]
    case Compound(_, es, l) => es + [l]
    case CodeArea(_, _, _, _, _, ks, d) => ks + [d]
    case Conjunction(es) => es
    case Abstraction(_, es, l) => es + [l]
    case Chunk(u) => [u]
    case _ => []
  }

  function WithChildren<R, S>(v: Value<R>, cs: seq<S>): (w: Value<S>)
    requires |cs| == |Children(v)|
    ensures Children(w) == cs
  {
    match v
    case Words(k, t) => Words(k, t)
    case Bool(b) => Bool(b)
    case UnitValue => UnitValue
    case Cons(_, _) => Cons(cs[0], cs[1])
    case Compound(s, es, _) => Compound(s, cs[..|es|], cs[|es|])
    case Builtin(m, n) => Builtin(m, n)
    case CodeArea(u, code, a, x, p, ks, _) => CodeArea(u, code, a, x, p, cs[..|ks|], cs[|ks|])
    case Wildcard => Wildcard
    case Capture(i) => Capture(i)
    case Conjunction(_) => Conjunction(cs)
    case Abstraction(u, es, _) => Abstraction(u, cs[..|es|], cs[|es|])
    case Chunk(_) => Chunk(cs[0])
    case Name(u) => Name(u)
    case NamedName(u, p) => NamedName(u, p)
    case Future => Future
    case Resource(s) => Resource(s)
  }

  /** A value over the references it has is itself. */
  lemma OwnChildren<R>(v: Value<R>)
    ensures WithChildren(v, Children(v)) == v
  {
  }

  // --------------------------------------------------------------- copies

  ghost predicate To<R, S>(f: map<R, S>, a: R, b: S) {
    a in f && f[a] == b
  }

  ghost predicate AllTo<R, S>(f: map<R, S>, a: seq<R>, b: seq<S>) {
    |b| == |a| && forall i | 0 <= i < |a| :: To(f, a[i], b[i])
  }

  /** `w` has the type and the plain data of `v`, and in each place what `f` makes of the reference there. */
  ghost predicate Copies<R, S>(v: Value<R>, w: Value<S>, f: map<R, S>) {
    match (v, w)
    case (Words(k, t), Words(k', t')) => k' == k && t' == t
    case (Bool(b), Bool(b')) => b' == b
    case (UnitValue, UnitValue) => true
    case (Cons(a, d), Cons(a', d')) => To(f, a, a') && To(f, d, d')
    case (Compound(s, es, l), Compound(s', es', l')) => s' == s && AllTo(f, es, es') && To(f, l, l')
    case (Builtin(m, n), Builtin(m', n')) => m' == m && n' == n
    case (CodeArea(u, c, a, x, p, ks, d), CodeArea(u', c', a', x', p', ks', d')) =>
      u' == u && c' == c && a' == a && x' == x && p' == p && AllTo(f, ks, ks') && To(f, d, d')
    case (Wildcard, Wildcard) => true
    case (Capture(i), Capture(i')) => i' == i
    case (Conjunction(es), Conjunction(es')) => AllTo(f, es, es')
    case (Abstraction(u, es, l), Abstraction(u', es', l')) => u' == u && AllTo(f, es, es') && To(f, l, l')
    case (Chunk(c), Chunk(c')) => To(f, c, c')
    case (Name(u), Name(u')) => u' == u
    case (NamedName(u, p), NamedName(u', p')) => u' == u && p' == p
    case (Future, Future) => true
    case (Resource(s), Resource(s')) => s' == s
    case _ => false
  }

  /** Replacing the references makes such a copy. */
  lemma WithCopies<R, S>(v: Value<R>, cs: seq<S>, f: map<R, S>)
    requires AllTo(f, Children(v), cs)
    ensures Copies(v, WithChildren(v, cs), f)
  {
    match v {
      case Cons(a, d) => assert Children(v)[0] == a && Children(v)[1] == d;
      case Compound(_, es, l) => SpineTo(f, es, l, cs);
      case CodeArea(_, _, _, _, _, ks, d) => SpineTo(f, ks, d, cs);
      case Abstraction(_, es, l) => SpineTo(f, es, l, cs);
      case Chunk(c) => assert Children(v)[0] == c;
      case _ =>
    }
  }

  lemma SpineTo<R, S>(f: map<R, S>, es: seq<R>, l: R, cs: seq<S>)
    requires AllTo(f, es + [l], cs)
    ensures AllTo(f, es, cs[..|es|]) && To(f, l, cs[|es|])
  {
    assert forall i | 0 <= i < |es| :: (es + [l])[i] == es[i];
    assert (es + [l])[|es|] == l;
  }

  lemma ChildrenTwice<R, S, T>(v: Value<R>, cs: seq<S>, ds: seq<T>)
    requires |cs| == |Children(v)| == |ds|
    ensures WithChildren(WithChildren(v, cs), ds) == WithChildren(v, ds)
  {
  }

  // --------------------------------------------------------------- kinds

  /** Types with a feature order. */
  predicate IsFeature<R>(v: Value<R>) {
    (v.Words? && v.kind !in {FloatText, StringText}) || v.Bool? || v.UnitValue? || v.Name? || v.NamedName?
  }

  /** Types with value behaviour, and the names that are features: nothing else is written before the arities. */
  predicate IsEarly<R>(v: Value<R>) {
    IsFeature(v) || v.Builtin? || v.Words? || v.Wildcard? || v.Capture?
  }

  predicate IsArity<R>(v: Value<R>) {
    v.Compound? && v.shape == Arity
  }

  /** Types that have an identifier in a pickle. */
  predicate Stateless<R>(v: Value<R>) {
    !v.Future? && !v.Resource?
  }

  function HasUuid<R>(v: Value<R>): bool {
    v.CodeArea? || v.Abstraction? || v.Name? || v.NamedName?
  }

  /** The identifier of a type; 0 stands for none. */
  function TypeId<R>(v: Value<R>): (id: Byte)
    ensures if Stateless(v) then 1 <= id <= 21 else id == 0
  {
    match v
    case Words(k, _) =>
      (match k case IntText => 1 case FloatText => 2 case AtomText => 5 case UniqueText => 18 case StringText => 21)
    case Bool(_) => 3
    case UnitValue => 4
    case Cons(_, _) => 6
    case Compound(s, _, _) =>
      (match s case Tuple => 7 case Arity => 8 case Record => 9 case OpenRecord => 15)
    case Builtin(_, _) => 10
    case CodeArea(_, _, _, _, _, _, _) => 11
    case Wildcard => 12
    case Capture(_) => 13
    case Conjunction(_) => 14
    case Abstraction(_, _, _) => 16
    case Chunk(_) => 17
    case Name(_) => 19
    case NamedName(_, _) => 20
    case _ => 0
  }

  /** The types by their identifiers, and which of them are features, are written first, and have a UUID. */
  lemma Types<R>(v: Value<R>)
    ensures v.Words? ==> TypeId(v) == match v.kind
      case IntText => 1 case FloatText => 2 case AtomText => 5 case UniqueText => 18 case StringText => 21
    ensures v.Compound? ==> TypeId(v) == match v.shape
      case Tuple => 7 case Arity => 8 case Record => 9 case OpenRecord => 15
    ensures (TypeId(v) == 3 <==> v.Bool?) && (TypeId(v) == 4 <==> v.UnitValue?) && (TypeId(v) == 6 <==> v.Cons?)
    ensures (TypeId(v) == 10 <==> v.Builtin?) && (TypeId(v) == 11 <==> v.CodeArea?)
    ensures (TypeId(v) == 12 <==> v.Wildcard?) && (TypeId(v) == 13 <==> v.Capture?)
    ensures (TypeId(v) == 14 <==> v.Conjunction?) && (TypeId(v) == 16 <==> v.Abstraction?)
    ensures (TypeId(v) == 17 <==> v.Chunk?) && (TypeId(v) == 19 <==> v.Name?) && (TypeId(v) == 20 <==> v.NamedName?)
    ensures TypeId(v) == 0 <==> v.Future? || v.Resource?
    ensures IsFeature(v) <==> TypeId(v) in {1, 3, 4, 5, 18, 19, 20}
    ensures IsEarly(v) <==> TypeId(v) in {1, 2, 3, 4, 5, 10, 12, 13, 18, 19, 20, 21}
    ensures IsArity(v) <==> TypeId(v) == 8
    ensures HasUuid(v) <==> TypeId(v) in {11, 16, 19, 20}
    ensures Stateless(v) <==> TypeId(v) != 0
  {
  }

  /** The kind of a value does not depend on what it refers to. */
  lemma KindKept<R, S>(v: Value<R>, cs: seq<S>)
    requires |cs| == |Children(v)|
    ensures TypeId(WithChildren(v, cs)) == TypeId(v) && HasUuid(WithChildren(v, cs)) == HasUuid(v)
    ensures Identity(WithChildren(v, cs)) == Identity(v)
  {
    match v {
      case Words(_, _) =>
      case Bool(_) =>
      case UnitValue =>
      case Cons(_, _) =>
      case Compound(_, _, _) =>
      case Builtin(_, _) =>
      case CodeArea(_, _, _, _, _, _, _) =>
      case Wildcard =>
      case Capture(_) =>
      case Conjunction(_) =>
      case Abstraction(_, _, _) =>
      case Chunk(_) =>
      case Name(_) =>
      case NamedName(_, _) =>
      case Future =>
      case Resource(_) =>
    }
  }

  // --------------------------------------------------------------- bytes

  function Low(n: nat): Byte {
    n % 0x100
  }

  /** writeSize: four bytes, so sizes are cut at 32 bits. */
  function Size(n: nat): (bs: seq<Byte>)
    ensures |bs| == 4
  {
    [Low(n / 0x100_0000), Low(n / 0x1_0000), Low(n / 0x100), Low(n)]
  }

  function SizeOf(bs: seq<Byte>): nat
    requires |bs| == 4
  {
    bs[0] as nat * 0x100_0000 + bs[1] as nat * 0x1_0000 + bs[2] as nat * 0x100 + bs[3] as nat
  }

  /** A size is read as it was written exactly when it fits in 32 bits. */
  lemma SizeRoundTrip(n: nat)
    ensures SizeOf(Size(n)) == n % SIZES
    ensures SizeOf(Size(n)) == n <==> n < SIZES
  {
    var (a, b, c) := (n / 0x100, n / 0x1_0000, n / 0x100_0000);
    assert n == a * 0x100 + n % 0x100;
    assert a == n / 0x1_0000 * 0x100 + a % 0x100;
    assert b == c * 0x100 + b % 0x100;
    assert c == n / SIZES * 0x100 + c % 0x100;
  }

  function Str(t: Text): seq<Byte> {
    Size(|t|) + t
  }

  function Each(rs: seq<nat>): (bs: seq<Byte>)
    ensures |bs| == 4 * |rs|
  {
    if rs == [] then [] else Size(rs[0]) + Each(rs[1..])
  }

  function Refs(rs: seq<nat>): seq<Byte> {
    Size(|rs|) + Each(rs)
  }

  function LastFirst(rs: seq<nat>, last: nat): seq<Byte> {
    Size(last) + Refs(rs)
  }

  function Codes(code: seq<ByteCode>): (bs: seq<Byte>)
    ensures |bs| == 2 * |code|
  {
    if code == [] then [] else [code[0] / 0x100, code[0] % 0x100] + Codes(code[1..])
  }

  function CodeHead(code: seq<ByteCode>, arity: nat, xcount: nat): seq<Byte> {
    Size(|code|) + Codes(code) + Size(arity) + Size(xcount)
  }

  function CodeTail(printName: Text, debugData: nat, ks: seq<nat>): seq<Byte> {
    Str(printName) + Size(debugData) + Refs(ks)
  }

  function CodeAreaBytes(v: Value<nat>): seq<Byte>
    requires v.CodeArea?
  {
    CodeHead(v.code, v.arity, v.xcount) + CodeTail(v.printName, v.debugData, v.ks)
  }

  /** What follows the type of a value, and the UUID of one that has a UUID. */
  function Body(v: Value<nat>): seq<Byte> {
    match v
    case Words(_, t) => Str(t)
    case Bool(b) => [if b then 1 else 0]
    case UnitValue => []
    case Cons(h, t) => Size(h) + Size(t)
    case Compound(_, es, l) => LastFirst(es, l)
    case Builtin(m, n) => Str(m) + Str(n)
    case CodeArea(_, _, _, _, _, _, _) => CodeAreaBytes(v)
    case Wildcard => []
    case Capture(i) => Size(i)
    case Conjunction(es) => Refs(es)
    case Abstraction(_, es, l) => LastFirst(es, l)
    case Chunk(u) => Size(u)
    case Name(_) => []
    case NamedName(_, p) => Str(p)
    case _ => []
  }

  /** writeUUIDOf, for the types that have a UUID. */
  function Identity<R>(v: Value<R>): seq<Byte> {
    if HasUuid(v) then v.uuid else []
  }

  function Bytes(v: Value<nat>): seq<Byte> {
    [TypeId(v)] + Identity(v) + Body(v)
  }

  /** A written node. */
  datatype Item = Item(index: nat, value: Value<nat>)

  function Items(items: seq<Item>): seq<Byte> {
    if items == [] then [] else Size(items[0].index) + Bytes(items[0].value) + Items(items[1..])
  }

  function Stream(count: nat, top: nat, items: seq<Item>): seq<Byte> {
    Size(count) + Size(top) + Items(items) + Size(0)
  }

  lemma {:induction false} ItemsMore(items: seq<Item>, x: Item)
    ensures Items(items + [x]) == Items(items) + Size(x.index) + Bytes(x.value)
  {
    hide Bytes, Size;
    if items == [] {
      assert items + [x] == [x] && [x][1..] == [];
    } else {
      assert (items + [x])[1..] == items[1..] + [x];
      ItemsMore(items[1..], x);
    }
  }

  lemma ItemsOne(x: Item)
    ensures Items([x]) == Size(x.index) + Bytes(x.value)
  {
    hide Bytes, Size;
    ItemsMore([], x);
    assert [] + [x] == [x];
  }

  lemma {:induction false} ItemsJoin(a: seq<Item>, b: seq<Item>)
    ensures Items(a + b) == Items(a) + Items(b)
  {
    hide Bytes, Size;
    if a == [] {
      assert a + b == b;
    } else {
      assert (a + b)[1..] == a[1..] + b;
      ItemsJoin(a[1..], b);
    }
  }

  /** One reference after another. */
  lemma EachFrom(ks: seq<nat>, i: nat, o: seq<Byte>)
    requires i < |ks|
    ensures o + Size(ks[i]) + Each(ks[i + 1..]) == o + Each(ks[i..])
  {
    assert ks[i..][1..] == ks[i + 1..];
  }

  lemma EachNone(ks: seq<nat>, o: seq<Byte>)
    ensures o + Each(ks[|ks|..]) == o && ks[0..] == ks
  {
  }

  lemma CodesFrom(code: seq<ByteCode>, i: nat, o: seq<Byte>)
    requires i < |code|
    ensures o + [code[i] / 0x100] + [code[i] % 0x100] + Codes(code[i + 1..]) == o + Codes(code[i..])
  {
    assert code[i..][1..] == code[i + 1..];
  }

  lemma {:induction false} CodesAt(code: seq<ByteCode>, i: nat)
    requires i < |code|
    ensures Codes(code)[2 * i] == code[i] / 0x100 && Codes(code)[2 * i + 1] == code[i] % 0x100
  {
    if i > 0 {
      CodesAt(code[1..], i - 1);
    }
  }

  predicate EachFits(rs: seq<nat>) {
    forall i | 0 <= i < |rs| :: rs[i] < SIZES
  }

  /** No size in a value is cut. */
  predicate Fits<R>(v: Value<R>) {
    match v
    case Words(_, t) => |t| < SIZES
    case Compound(_, es, _) => |es| < SIZES
    case Builtin(m, n) => |m| < SIZES && |n| < SIZES
    case CodeArea(_, code, a, x, p, ks, _) => |code| < SIZES && a < SIZES && x < SIZES && |p| < SIZES && |ks| < SIZES
    case Capture(i) => i < SIZES
    case Conjunction(es) => |es| < SIZES
    case Abstraction(_, es, _) => |es| < SIZES
    case NamedName(_, p) => |p| < SIZES
    case _ => true
  }
}
