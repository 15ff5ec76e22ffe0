/** The unpickler: it reads the nodes of a pickle one by one, and binds them to their indices. */
module Unpickling {
  import opened PickleFormat
  import opened Wrappers

  /** What an index is bound to: a new value, or the entity of the VM that has the UUID. */
  datatype Entity = Made(v: Value<nat>) | Known(uuid: Uuid)

  datatype Node = Unbound | Bound(entity: Entity)

  /** The input goes on with some bytes. */
  predicate Has(input: seq<Byte>, at: nat, bs: seq<Byte>) {
    at + |bs| <= |input| && input[at..at + |bs|] == bs
  }

  lemma HasBoth(input: seq<Byte>, at: nat, a: seq<Byte>, b: seq<Byte>)
    ensures Has(input, at, a + b) <==> Has(input, at, a) && Has(input, at + |a|, b)
  {
    if Has(input, at, a + b) {
      assert input[at..at + |a|] == (a + b)[..|a|];
      assert input[at + |a|..at + |a| + |b|] == (a + b)[|a|..];
    }
    if Has(input, at, a) && Has(input, at + |a|, b) {
      assert input[at..at + |a| + |b|] == input[at..at + |a|] + input[at + |a|..at + |a| + |b|];
    }
  }

  /** What reading a value makes of it. */
  function EntityOf(v: Value<nat>, globals: set<Uuid>): Entity {
    if HasUuid(v) && v.uuid in globals then Known(v.uuid) else Made(v)
  }

  function IdsOf(v: Value<nat>): set<Uuid> {
    if HasUuid(v) then {v.uuid} else {}
  }

  /** An entity whose UUID is known is the one the VM has; any other value is made. */
  ghost predicate IsEntity(e: Entity, v: Value<nat>, globals: set<Uuid>) {
    && (HasUuid(v) && v.uuid in globals ==> e == Known(v.uuid))
    && (!HasUuid(v) || v.uuid !in globals ==> e == Made(v))
  }

  lemma EntityIs(v: Value<nat>, globals: set<Uuid>)
    ensures IsEntity(EntityOf(v, globals), v, globals)
    ensures forall u :: u in IdsOf(v) <==> HasUuid(v) && v.uuid == u
  {
  }

  /** The UUIDs known before the i-th item: those known at first, and those of the items before it. */
  ghost predicate KnownBefore(items: seq<Item>, i: nat, globals: set<Uuid>, u: Uuid)
    requires i <= |items|
  {
    u in globals || exists j :: 0 <= j < i && HasUuid(items[j].value) && items[j].value.uuid == u
  }

  /** Every index of a stream is bound to a new value, or to the entity known by its UUID by then. */
  ghost predicate Meant(nodes: seq<Node>, items: seq<Item>, globals: set<Uuid>) {
    && (forall x <- items :: x.index < |nodes|)
    && forall i | 0 <= i < |items| ::
         var v := items[i].value;
         nodes[items[i].index] ==
           if HasUuid(v) && KnownBefore(items, i, globals, v.uuid) then Bound(Known(v.uuid)) else Bound(Made(v))
  }

  lemma {:induction false} IdsBefore(items: seq<Item>, i: nat, globals: set<Uuid>, u: Uuid)
    requires i <= |items|
    ensures u in globals + AllIds(items[..i]) <==> KnownBefore(items, i, globals, u)
  {
    if i > 0 {
      IdsBefore(items, i - 1, globals, u);
      AllIdsMore(items, i - 1);
    }
  }

  lemma BoundIsMeant(nodes: seq<Node>, items: seq<Item>, globals: set<Uuid>)
    requires BoundTo(nodes, items, globals)
    ensures Meant(nodes, items, globals)
  {
    hide KnownBefore, AllIds;
    forall i | 0 <= i < |items|
      ensures var v := items[i].value;
        nodes[items[i].index] ==
          if HasUuid(v) && KnownBefore(items, i, globals, v.uuid) then Bound(Known(v.uuid)) else Bound(Made(v))
    {
      var v := items[i].value;
      if HasUuid(v) { IdsBefore(items, i, globals, v.uuid); }
    }
  }

  /** A value whose sizes and indices are not cut. */
  predicate Readable(v: Value<nat>) {
    Stateless(v) && Fits(v) && EachFits(Children(v))
  }

  /** The parts of a code area that are passed over, from its name on. */
  ghost predicate SkipsTail(input: seq<Byte>, at: nat, v: Value<nat>) {
    && v.CodeArea? && |v.printName| < SIZES && v.debugData < SIZES && |v.ks| < SIZES
    && Has(input, at, Str(v.printName)) && Has(input, at + |Str(v.printName)|, Size(v.debugData))
    && Has(input, at + |Str(v.printName)| + 4, Size(|v.ks|)) && Has(input, at + |Str(v.printName)| + 8, Each(v.ks))
  }

  ghost predicate Skips(input: seq<Byte>, at: nat, v: Value<nat>, rest: seq<Byte>) {
    && v.CodeArea? && |v.code| < SIZES && |rest| == 2 * |v.code| + 8
    && Has(input, at, Size(|v.code|)) && Has(input, at + 4, rest) && SkipsTail(input, at + 4 + |rest|, v)
  }

  lemma SkippedIs(input: seq<Byte>, at: nat, v: Value<nat>) returns (rest: seq<Byte>)
    requires v.CodeArea? && Has(input, at, CodeAreaBytes(v)) && Readable(v)
    ensures Skips(input, at, v, rest)
    ensures |CodeAreaBytes(v)| == 12 + |rest| + |Str(v.printName)| + |Each(v.ks)|
  {
    hide Size, Codes, Str, Each, Has, CodeAreaBytes, Readable;
    CodeAreaFits(v);
    rest := CodeAreaFlat(v);
    var (s, p, d, n, e) := (Size(|v.code|), Str(v.printName), Size(v.debugData), Size(|v.ks|), Each(v.ks));
    HasBoth(input, at, s + rest, p + (d + n + e));
    HasBoth(input, at, s, rest);
    var on := at + 4 + |rest|;
    HasBoth(input, on, p, d + n + e);
    HasBoth(input, on + |p|, d + n, e);
    HasBoth(input, on + |p|, d, n);
  }

  lemma CodeAreaFits(v: Value<nat>)
    requires v.CodeArea? && Readable(v)
    ensures |v.code| < SIZES && |v.printName| < SIZES && v.debugData < SIZES && |v.ks| < SIZES
  {
    assert Children(v)[|v.ks|] == v.debugData;
  }

  lemma CodeAreaFlat(v: Value<nat>) returns (rest: seq<Byte>)
    requires v.CodeArea?
    ensures |rest| == 2 * |v.code| + 8
    ensures CodeAreaBytes(v) ==
            Size(|v.code|) + rest + (Str(v.printName) + (Size(v.debugData) + Size(|v.ks|) + Each(v.ks)))
  {
    hide Size, Codes, Str, Each;
    rest := Codes(v.code) + Size(v.arity) + Size(v.xcount);
    FourFlat(Size(|v.code|), Codes(v.code), Size(v.arity), Size(v.xcount));
    FourFlat(Str(v.printName), Size(v.debugData), Size(|v.ks|), Each(v.ks));
  }

  lemma FourFlat(a: seq<Byte>, b: seq<Byte>, c: seq<Byte>, d: seq<Byte>)
    ensures a + b + c + d == a + (b + c + d) && a + b + (c + d) == a + (b + c + d)
  {
  }

  function TextOf(kind: Byte): TextKind {
    if kind == 1 then IntText else if kind == 2 then FloatText else if kind == 5 then AtomText
    else if kind == 18 then UniqueText else StringText
  }

  function ShapeOf(kind: Byte): Shape {
    if kind == 7 then Tuple else if kind == 8 then Arity else if kind == 9 then Record else OpenRecord
  }

  function AllIds(items: seq<Item>): set<Uuid> {
    if items == [] then {} else AllIds(items[..|items| - 1]) + IdsOf(items[|items| - 1].value)
  }

  /** A stream that a pickle may be: no index twice, none out of range, and no size cut. */
  ghost predicate Ordered(count: nat, top: nat, items: seq<Item>) {
    && count < SIZES && top <= count
    && (forall i, j | 0 <= i < j < |items| :: items[i].index != items[j].index)
    && (forall x <- items :: 1 <= x.index <= count && Readable(x.value) && forall k <- Children(x.value) :: k <= count)
  }

  /** Every index of a stream is bound to what its value reads as, after the values before it; no other index is
      bound. */
  ghost predicate BoundTo(nodes: seq<Node>, items: seq<Item>, globals: set<Uuid>) {
    && (forall x <- items :: x.index < |nodes|)
    && (forall i | 0 <= i < |items| ::
        nodes[items[i].index] == Bound(EntityOf(items[i].value, globals + AllIds(items[..i]))))
    && (forall k | 0 <= k < |nodes| && nodes[k].Bound? :: exists x <- items :: x.index == k)
  }

  lemma NoItems(items: seq<Item>, i: nat)
    requires i == |items|
    ensures Items(items[i..]) + Size(0) == Size(0)
  {
  }

  lemma ItemsNext(items: seq<Item>, i: nat)
    requires i < |items|
    ensures Items(items[i..]) + Size(0) ==
      Size(items[i].index) + (Bytes(items[i].value) + (Items(items[i + 1..]) + Size(0)))
  {
    hide Size, Bytes;
    assert items[i..][1..] == items[i + 1..];
  }

  lemma DifferBefore(count: nat, top: nat, items: seq<Item>, i: nat, y: Item)
    requires Ordered(count, top, items) && i < |items| && y in items[..i]
    ensures y.index != items[i].index
  {
  }

  /** The next index is not bound yet. */
  lemma NotYet(nodes: seq<Node>, count: nat, top: nat, items: seq<Item>, i: nat, g: set<Uuid>)
    requires i < |items| && Ordered(count, top, items) && BoundTo(nodes, items[..i], g) && items[i].index < |nodes|
    ensures nodes[items[i].index].Unbound?
  {
    hide Ordered;
    if nodes[items[i].index].Bound? {
      var y :| y in items[..i] && y.index == items[i].index;
      DifferBefore(count, top, items, i, y);
      assert false;
    }
  }

  lemma ItemsFrom(items: seq<Item>, i: nat)
    requires i <= |items|
    ensures i == |items| ==> |Items(items[i..])| == 0 && items[..i] == items
    ensures i < |items| ==> |Items(items[i..])| == 4 + |Bytes(items[i].value)| + |Items(items[i + 1..])|
  {
    hide Bytes;
    if i < |items| {
      assert items[i..][1..] == items[i + 1..];
    }
  }

  /** One more value bound. */
  lemma BoundMore(nodes: seq<Node>, count: nat, top: nat, items: seq<Item>, i: nat, g: set<Uuid>)
    requires i < |items| && BoundTo(nodes, items[..i], g) && items[i].index < |nodes| && Ordered(count, top, items)
    ensures BoundTo(nodes[items[i].index := Bound(EntityOf(items[i].value, g + AllIds(items[..i])))], items[..i + 1], g)
  {
    hide EntityOf, AllIds, Ordered;
    var (was, now) := (items[..i], items[..i + 1]);
    var after := nodes[items[i].index := Bound(EntityOf(items[i].value, g + AllIds(was)))];
    assert now[i] in now;
    forall j | 0 <= j <= i
      ensures now[j].index < |after| && after[now[j].index] == Bound(EntityOf(now[j].value, g + AllIds(now[..j])))
    {
      assert now[..j] == was[..j];
      if j < i {
        assert now[j] == was[j] && was[j] in was;
        DifferBefore(count, top, items, i, was[j]);
      } else {
        assert now[..j] == was;
      }
    }
    BoundOnly(nodes, items, i, after);
  }

  lemma BoundOnly(nodes: seq<Node>, items: seq<Item>, i: nat, after: seq<Node>)
    requires i < |items| && items[i].index < |nodes| == |after|
    requires forall k | 0 <= k < |nodes| && k != items[i].index :: after[k] == nodes[k]
    requires forall k | 0 <= k < |nodes| && nodes[k].Bound? :: exists x <- items[..i] :: x.index == k
    ensures forall k | 0 <= k < |after| && after[k].Bound? :: exists x <- items[..i + 1] :: x.index == k
  {
    forall k | 0 <= k < |after| && after[k].Bound? ensures exists x <- items[..i + 1] :: x.index == k {
      if k == items[i].index {
        assert items[..i + 1][i].index == k;
      } else {
        var x :| x in items[..i] && x.index == k;
        assert x in items[..i + 1];
      }
    }
  }

  lemma AllIdsMore(items: seq<Item>, i: nat)
    requires i < |items|
    ensures AllIds(items[..i + 1]) == AllIds(items[..i]) + IdsOf(items[i].value)
  {
    assert items[..i + 1][..i] == items[..i];
  }

  class Unpickler {
    const input: seq<Byte>
    var at: nat
    var nodes: array<Node>
    /** The UUIDs of the entities the VM knows. */
    var globals: set<Uuid>

    constructor (input: seq<Byte>, globals: set<Uuid>)
      ensures this.input == input && at == 0 && this.globals == globals && fresh(nodes)
    {
      this.input, at, this.globals := input, 0, globals;
      nodes := new Node[0];
    }

    predicate Ahead(bs: seq<Byte>)
      reads `at
    {
      Has(input, at, bs)
    }

    lemma WholeAhead(bs: seq<Byte>)
      requires at == 0 && input == bs
      ensures Ahead(bs)
    {
      assert input[0..|bs|] == bs;
    }

    /** read: so many bytes, or none when the input is too short. */
    method Read(length: nat, ghost bs: seq<Byte>) returns (r: Result<seq<Byte>>)
      modifies `at
      ensures old(at) <= at && (old(at) <= |input| ==> at <= |input|)
      ensures r.Success? ==> |r.value| == length && at == old(at) + length
      ensures old(Ahead(bs)) && |bs| == length ==> r == Success(bs) && at == old(at) + length
    {
      if |input| < at + length {
        return Failure;
      }
      r := Success(input[at..at + length]);
      at := at + length;
    }

    /** ignore. */
    method Ignore(length: nat, ghost bs: seq<Byte>) returns (r: Result<bool>)
      modifies `at
      ensures old(at) <= at && (old(at) <= |input| ==> at <= |input|)
      ensures old(Ahead(bs)) && |bs| == length ==> r == Success(true) && at == old(at) + length
    {
      var dummy :- Read(length, bs);
      r := Success(true);
    }

    method ReadByte(ghost b: Byte) returns (r: Result<Byte>)
      modifies `at
      ensures old(at) <= at && (old(at) <= |input| ==> at <= |input|)
      ensures old(Ahead([b])) ==> r == Success(b) && at == old(at) + 1
    {
      var bytes :- Read(1, [b]);
      r := Success(bytes[0]);
    }

    method ReadSize(ghost n: nat) returns (r: Result<nat>)
      modifies `at
      ensures old(at) <= at && (old(at) <= |input| ==> at <= |input|)
      ensures old(Ahead(Size(n))) && n < SIZES ==> r == Success(n) && at == old(at) + 4
      ensures r.Success? ==> at == old(at) + 4
      ensures old(Ahead(Size(n))) ==> r == Success(n % SIZES)
    {
      SizeRoundTrip(n);
      hide Size;
      var bytes :- Read(4, Size(n));
      r := Success(SizeOf(bytes));
    }

    method ReadString(ghost t: Text) returns (r: Result<Text>)
      modifies `at
      ensures old(at) <= at && (old(at) <= |input| ==> at <= |input|)
      ensures old(Ahead(Str(t))) && |t| < SIZES ==> r == Success(t) && at == old(at) + |Str(t)|
    {
      HasBoth(input, at, Size(|t|), t);
      hide Size, Has;
      var length :- ReadSize(|t|);
      r := Read(length, t);
    }

    /** readNode: a node that is not there is no node. */
    method ReadNode(ghost k: nat) returns (r: Result<nat>)
      modifies `at
      ensures old(at) <= at && (old(at) <= |input| ==> at <= |input|)
      ensures old(Ahead(Size(k))) && k < SIZES && k < nodes.Length ==> r == Success(k) && at == old(at) + 4
      ensures r.Success? ==> r.value < nodes.Length
    {
      var index :- ReadSize(k);
      if nodes.Length <= index {
        return Failure;
      }
      r := Success(index);
    }

    ghost predicate There(ks: seq<nat>)
      reads `nodes
    {
      EachFits(ks) && forall k <- ks :: k < nodes.Length
    }

    /** readNodes. */
    method ReadNodes(count: nat, ghost ks: seq<nat>) returns (r: Result<seq<nat>>)
      modifies `at
      ensures old(at) <= at && (old(at) <= |input| ==> at <= |input|)
      ensures old(Ahead(Each(ks))) && There(ks) && count == |ks| ==> r == Success(ks) && at == old(at) + 4 * count
    {
      ghost var ok := Ahead(Each(ks)) && There(ks) && count == |ks|;
      var read: seq<nat> := [];
      var i := 0;
      assert ks[0..] == ks;
      while i < count
        invariant i <= count && |read| == i && old(at) <= at && (old(at) <= |input| ==> at <= |input|)
        invariant ok ==> There(ks) && count == |ks| && read == ks[..i] && Ahead(Each(ks[i..])) && at == old(at) + 4 * i
      {
        if ok {
          assert ks[i..][1..] == ks[i + 1..] && ks[i] in ks;
          HasBoth(input, at, Size(ks[i]), Each(ks[i + 1..]));
        }
        var k :- ReadNode(if i < |ks| then ks[i] else 0);
        read := read + [k];
        i := i + 1;
      }
      assert ok ==> ks[..i] == ks;
      r := Success(read);
    }

    /** A width, then as many nodes. */
    method ReadRefs(ghost ks: seq<nat>) returns (r: Result<seq<nat>>)
      modifies `at
      ensures old(at) <= at && (old(at) <= |input| ==> at <= |input|)
      ensures old(Ahead(Refs(ks))) && |ks| < SIZES && There(ks) ==> r == Success(ks) && at == old(at) + |Refs(ks)|
    {
      HasBoth(input, at, Size(|ks|), Each(ks));
      hide Size, Each, Has, EachFits;
      var width :- ReadSize(|ks|);
      r := ReadNodes(width, ks);
    }

    /** A last node, then the others. */
    method ReadLastFirst(ghost ks: seq<nat>, ghost k: nat) returns (r: Result<(nat, seq<nat>)>)
      modifies `at
      ensures old(at) <= at && (old(at) <= |input| ==> at <= |input|)
      ensures old(Ahead(LastFirst(ks, k))) && |ks| < SIZES && There(ks) && There([k]) ==>
        r == Success((k, ks)) && at == old(at) + |LastFirst(ks, k)|
    {
      HasBoth(input, at, Size(k), Refs(ks));
      assert There([k]) ==> k < SIZES && k < nodes.Length by { assert k in [k] && [k][0] == k; }
      hide Size, Refs, Has, EachFits, There;
      var last :- ReadNode(k);
      var elements :- ReadRefs(ks);
      r := Success((last, elements));
    }

    /** The code of a code area: two bytes for each element. */
    method ReadCodes(size: nat, ghost code: seq<ByteCode>) returns (r: Result<seq<ByteCode>>)
      modifies `at
      ensures old(at) <= at && (old(at) <= |input| ==> at <= |input|)
      ensures old(Ahead(Codes(code))) && |code| == size ==> r == Success(code) && at == old(at) + 2 * size
    {
      ghost var ok := Ahead(Codes(code)) && |code| == size;
      var buffer :- Read(size * 2, Codes(code));
      var read: seq<ByteCode> := [];
      ghost var after := at;
      var i := 0;
      while i < size
        invariant i <= size && |read| == i && (ok ==> read == code[..i]) && at == after
      {
        if ok {
          CodesAt(code, i);
        }
        read := read + [buffer[i * 2] as int * 0x100 + buffer[i * 2 + 1] as int];
        i := i + 1;
      }
      assert ok ==> code[..i] == code;
      r := Success(read);
    }

    method ReadCodeHead(ghost code: seq<ByteCode>, ghost arity: nat, ghost xcount: nat)
      returns (r: Result<(seq<ByteCode>, nat, nat)>)
      modifies `at
      ensures old(at) <= at && (old(at) <= |input| ==> at <= |input|)
      ensures old(Ahead(CodeHead(code, arity, xcount))) && |code| < SIZES && arity < SIZES && xcount < SIZES ==>
        r == Success((code, arity, xcount)) && at == old(at) + |CodeHead(code, arity, xcount)|
    {
      HasBoth(input, at, Size(|code|) + Codes(code) + Size(arity), Size(xcount));
      HasBoth(input, at, Size(|code|) + Codes(code), Size(arity));
      HasBoth(input, at, Size(|code|), Codes(code));
      hide Size, Codes, Has;
      var size :- ReadSize(|code|);
      var read :- ReadCodes(size, code);
      var a :- ReadSize(arity);
      var x :- ReadSize(xcount);
      r := Success((read, a, x));
    }

    method ReadCodeTail(ghost printName: Text, ghost debugData: nat, ghost ks: seq<nat>)
      returns (r: Result<(Text, nat, seq<nat>)>)
      modifies `at
      ensures old(at) <= at && (old(at) <= |input| ==> at <= |input|)
      ensures
        old(Ahead(CodeTail(printName, debugData, ks))) && |printName| < SIZES && There([debugData])
        && |ks| < SIZES && There(ks) ==>
          r == Success((printName, debugData, ks)) && at == old(at) + |CodeTail(printName, debugData, ks)|
    {
      HasBoth(input, at, Str(printName) + Size(debugData), Refs(ks));
      HasBoth(input, at, Str(printName), Size(debugData));
      assert There([debugData]) ==> debugData < SIZES && debugData < nodes.Length by {
        assert debugData in [debugData] && [debugData][0] == debugData;
      }
      hide Size, Str, Refs, Has, There, EachFits;
      var name :- ReadString(printName);
      var debug :- ReadNode(debugData);
      var read :- ReadRefs(ks);
      r := Success((name, debug, read));
    }

    /** Passing over a code area that the VM knows: `rest` is what lies between the size of its code and its name. */
    method SkipCodeArea(ghost v: Value<nat>, ghost rest: seq<Byte>) returns (r: Result<bool>)
      modifies `at
      ensures old(at) <= at && (old(at) <= |input| ==> at <= |input|)
      ensures old(Skips(input, at, v, rest)) ==>
        r == Success(true) && at == old(at) + 12 + |rest| + |Str(v.printName)| + |Each(v.ks)|
    {
      hide Size, Str, Each, Has;
      var size :- ReadSize(if v.CodeArea? then |v.code| else 0);
      var a :- Ignore(size * 2 + (4 + 4), rest);
      r := SkipCodeTail(v);
    }

    method SkipCodeTail(ghost v: Value<nat>) returns (r: Result<bool>)
      modifies `at
      ensures old(at) <= at && (old(at) <= |input| ==> at <= |input|)
      ensures old(SkipsTail(input, at, v)) ==>
        r == Success(true) && at == old(at) + |Str(v.printName)| + 8 + |Each(v.ks)|
    {
      hide Size, Str, Each, Has;
      var a :- ReadString(if v.CodeArea? then v.printName else []);
      var b :- ReadSize(if v.CodeArea? then v.debugData else 0);
      var count :- ReadSize(if v.CodeArea? then |v.ks| else 0);
      r := Ignore(count * 4, if v.CodeArea? then Each(v.ks) else []);
    }

    /** What lies ahead is what follows the type of a value, and its UUID. */
    ghost predicate BodyAhead(kind: Byte, v: Value<nat>)
      reads `at, `nodes
    {
      Ahead(Body(v)) && Readable(v) && There(Children(v)) && TypeId(v) == kind
    }

    method ReadWords(kind: Byte, ghost v: Value<nat>) returns (r: Result<Value<nat>>)
      requires kind in {1, 2, 5, 18, 21}
      modifies `at
      ensures old(at) <= at && (old(at) <= |input| ==> at <= |input|)
      ensures old(BodyAhead(kind, v)) ==> r == Success(v) && at == old(at) + |Body(v)|
    {
      hide Has, Str;
      var text :- ReadString(if v.Words? then v.text else []);
      r := Success(Words(TextOf(kind), text));
    }

    method ReadBoolean(ghost v: Value<nat>) returns (r: Result<Value<nat>>)
      modifies `at
      ensures old(at) <= at && (old(at) <= |input| ==> at <= |input|)
      ensures old(BodyAhead(3, v)) ==> r == Success(v) && at == old(at) + |Body(v)|
    {
      hide Has;
      var b :- ReadByte(if v == Bool(true) then 1 else 0);
      r := Success(Bool(b != 0));
    }

    lemma BuiltinParts(v: Value<nat>)
      requires BodyAhead(10, v)
      ensures v.Builtin? && |v.moduleName| < SIZES && |v.name| < SIZES
      ensures Ahead(Str(v.moduleName)) && Has(input, at + |Str(v.moduleName)|, Str(v.name))
      ensures |Body(v)| == |Str(v.moduleName)| + |Str(v.name)|
    {
      hide Has, Str;
      HasBoth(input, at, Str(v.moduleName), Str(v.name));
    }

    method ReadBuiltin(ghost v: Value<nat>) returns (r: Result<Value<nat>>)
      modifies `at
      ensures old(at) <= at && (old(at) <= |input| ==> at <= |input|)
      ensures old(BodyAhead(10, v)) ==> r == Success(v) && at == old(at) + |Body(v)|
    {
      hide BodyAhead, Has, Str, Body;
      ghost var ok := BodyAhead(10, v);
      if ok { BuiltinParts(v); }
      var moduleName :- ReadString(if v.Builtin? then v.moduleName else []);
      var name :- ReadString(if v.Builtin? then v.name else []);
      r := Success(Builtin(moduleName, name));
    }

    method ReadCapture(ghost v: Value<nat>) returns (r: Result<Value<nat>>)
      modifies `at
      ensures old(at) <= at && (old(at) <= |input| ==> at <= |input|)
      ensures old(BodyAhead(13, v)) ==> r == Success(v) && at == old(at) + |Body(v)|
    {
      hide Has, Size;
      var index :- ReadSize(if v.Capture? then v.index else 0);
      r := Success(Capture(index));
    }

    /** The values that refer to nothing. */
    method ReadPlain(kind: Byte, ghost v: Value<nat>) returns (r: Result<Value<nat>>)
      requires kind in {1, 2, 3, 4, 5, 10, 12, 13, 18, 21}
      modifies `at
      ensures old(at) <= at && (old(at) <= |input| ==> at <= |input|)
      ensures old(BodyAhead(kind, v)) ==> r == Success(v) && at == old(at) + |Body(v)|
    {
      hide Has, Ahead, Readable, There;
      if kind == 3 {
        r := ReadBoolean(v);
      } else if kind == 4 {
        r := Success(UnitValue);
      } else if kind == 10 {
        r := ReadBuiltin(v);
      } else if kind == 12 {
        r := Success(Wildcard);
      } else if kind == 13 {
        r := ReadCapture(v);
      } else {
        r := ReadWords(kind, v);
      }
    }

    lemma ConsParts(v: Value<nat>)
      requires BodyAhead(6, v)
      ensures v.Cons? && Ahead(Size(v.head)) && Has(input, at + 4, Size(v.tail)) && |Body(v)| == 8
      ensures v.head < SIZES && v.tail < SIZES && v.head < nodes.Length && v.tail < nodes.Length
    {
      hide Has, Size;
      var cs := Children(v);
      HasBoth(input, at, Size(v.head), Size(v.tail));
      assert cs[0] == v.head && cs[1] == v.tail && cs[0] in cs && cs[1] in cs;
    }

    method ReadCons(ghost v: Value<nat>) returns (r: Result<Value<nat>>)
      modifies `at
      ensures old(at) <= at && (old(at) <= |input| ==> at <= |input|)
      ensures old(BodyAhead(6, v)) ==> r == Success(v) && at == old(at) + |Body(v)|
    {
      hide BodyAhead, Has, Size, Body;
      ghost var ok := BodyAhead(6, v);
      if ok { ConsParts(v); }
      var head :- ReadNode(if v.Cons? then v.head else 0);
      var tail :- ReadNode(if v.Cons? then v.tail else 0);
      r := Success(Cons(head, tail));
    }

    lemma ChunkParts(v: Value<nat>)
      requires BodyAhead(17, v)
      ensures v.Chunk? && Ahead(Size(v.underlying)) && |Body(v)| == 4
      ensures v.underlying < SIZES && v.underlying < nodes.Length
    {
      hide Has, Size;
      var cs := Children(v);
      assert cs[0] == v.underlying && cs[0] in cs;
    }

    method ReadChunk(ghost v: Value<nat>) returns (r: Result<Value<nat>>)
      modifies `at
      ensures old(at) <= at && (old(at) <= |input| ==> at <= |input|)
      ensures old(BodyAhead(17, v)) ==> r == Success(v) && at == old(at) + |Body(v)|
    {
      hide BodyAhead, Has, Size, Body;
      ghost var ok := BodyAhead(17, v);
      if ok { ChunkParts(v); }
      var underlying :- ReadNode(if v.Chunk? then v.underlying else 0);
      r := Success(Chunk(underlying));
    }

    lemma ConjunctionParts(v: Value<nat>)
      requires BodyAhead(14, v)
      ensures v.Conjunction? && Ahead(Refs(v.elements)) && Body(v) == Refs(v.elements)
      ensures There(v.elements) && |v.elements| < SIZES
    {
      hide Has, Refs, There, EachFits;
    }

    method ReadConjunction(ghost v: Value<nat>) returns (r: Result<Value<nat>>)
      modifies `at
      ensures old(at) <= at && (old(at) <= |input| ==> at <= |input|)
      ensures old(BodyAhead(14, v)) ==> r == Success(v) && at == old(at) + |Body(v)|
    {
      hide BodyAhead, Has, Refs, Body;
      ghost var ok := BodyAhead(14, v);
      if ok { ConjunctionParts(v); }
      var refs :- ReadRefs(if v.Conjunction? then v.elements else []);
      r := Success(Conjunction(refs));
    }

    /** The values that end with a last node: tuples, arities, records, open records and abstractions. */
    lemma SpineParts(kind: Byte, v: Value<nat>)
      requires kind in {7, 8, 9, 15, 16} && BodyAhead(kind, v)
      ensures if kind == 16 then v.Abstraction? else v == Compound(ShapeOf(kind), v.elements, v.last)
      ensures Ahead(LastFirst(v.elements, v.last)) && Body(v) == LastFirst(v.elements, v.last)
      ensures There(v.elements) && |v.elements| < SIZES && There([v.last])
    {
      hide Has, LastFirst, There, EachFits;
      assert v.Compound? || v.Abstraction?;
      SplitThere(v.elements, v.last);
    }

    /** Tuples, arities, records and open records. */
    method ReadCompound(kind: Byte, ghost v: Value<nat>) returns (r: Result<Value<nat>>)
      requires kind in {7, 8, 9, 15}
      modifies `at
      ensures old(at) <= at && (old(at) <= |input| ==> at <= |input|)
      ensures old(BodyAhead(kind, v)) ==> r == Success(v) && at == old(at) + |Body(v)|
    {
      hide BodyAhead, Has, LastFirst, Body, ShapeOf;
      ghost var ok := BodyAhead(kind, v);
      if ok { SpineParts(kind, v); }
      var read :- ReadLastFirst(if v.Compound? then v.elements else [], if v.Compound? then v.last else 0);
      r := Success(Compound(ShapeOf(kind), read.1, read.0));
    }

    /** The values that refer to others, and have no UUID. */
    method ReadLinked(kind: Byte, ghost v: Value<nat>) returns (r: Result<Value<nat>>)
      requires kind in {6, 7, 8, 9, 14, 15, 17}
      modifies `at
      ensures old(at) <= at && (old(at) <= |input| ==> at <= |input|)
      ensures old(BodyAhead(kind, v)) ==> r == Success(v) && at == old(at) + |Body(v)|
    {
      hide BodyAhead;
      if kind == 6 {
        r := ReadCons(v);
      } else if kind == 14 {
        r := ReadConjunction(v);
      } else if kind == 17 {
        r := ReadChunk(v);
      } else {
        r := ReadCompound(kind, v);
      }
    }

    lemma SplitThere(ks: seq<nat>, k: nat)
      requires There(ks + [k])
      ensures There(ks) && There([k])
    {
      assert forall i | 0 <= i < |ks| :: ks[i] == (ks + [k])[i];
      assert (ks + [k])[|ks|] == k && k in ks + [k];
      assert forall x <- ks :: x in ks + [k];
    }

    /** createFun of readGlobalEntity: an entity that the VM does not know is built. */
    method Create(kind: Byte, uuid: Uuid, ghost v: Value<nat>) returns (r: Result<Value<nat>>)
      requires kind in {11, 16, 19, 20}
      modifies `at
      ensures old(at) <= at && (old(at) <= |input| ==> at <= |input|)
      ensures old(BodyAhead(kind, v)) && HasUuid(v) && v.uuid == uuid ==> r == Success(v) && at == old(at) + |Body(v)|
    {
      if kind == 11 {
        r := CreateCodeArea(uuid, v);
      } else if kind == 16 {
        r := CreateAbstraction(uuid, v);
      } else if kind == 19 {
        r := Success(Name(uuid));
      } else {
        var printName :- ReadString(if v.NamedName? then v.printName else []);
        r := Success(NamedName(uuid, printName));
      }
    }

    method CreateAbstraction(uuid: Uuid, ghost v: Value<nat>) returns (r: Result<Value<nat>>)
      modifies `at
      ensures old(at) <= at && (old(at) <= |input| ==> at <= |input|)
      ensures old(BodyAhead(16, v)) && HasUuid(v) && v.uuid == uuid ==> r == Success(v) && at == old(at) + |Body(v)|
    {
      hide BodyAhead, Has, LastFirst, Body;
      ghost var ok := BodyAhead(16, v);
      if ok { SpineParts(16, v); }
      var read :- ReadLastFirst(if v.Abstraction? then v.elements else [], if v.Abstraction? then v.last else 0);
      r := Success(Abstraction(uuid, read.1, read.0));
    }

    lemma CodeAreaParts(v: Value<nat>)
      requires BodyAhead(11, v)
      ensures v.CodeArea? && There(v.ks) && There([v.debugData])
      ensures |v.code| < SIZES && v.arity < SIZES && v.xcount < SIZES && |v.printName| < SIZES && |v.ks| < SIZES
      ensures var head, tail := CodeHead(v.code, v.arity, v.xcount), CodeTail(v.printName, v.debugData, v.ks);
        Ahead(head) && Has(input, at + |head|, tail) && |Body(v)| == |head| + |tail|
    {
      hide Has, CodeHead, CodeTail, There, EachFits;
      HasBoth(input, at, CodeHead(v.code, v.arity, v.xcount), CodeTail(v.printName, v.debugData, v.ks));
      SplitThere(v.ks, v.debugData);
    }

    method CreateCodeArea(uuid: Uuid, ghost v: Value<nat>) returns (r: Result<Value<nat>>)
      modifies `at
      ensures old(at) <= at && (old(at) <= |input| ==> at <= |input|)
      ensures old(BodyAhead(11, v)) && HasUuid(v) && v.uuid == uuid ==> r == Success(v) && at == old(at) + |Body(v)|
    {
      hide BodyAhead, Has, CodeHead, CodeTail, EachFits, Body;
      ghost var ok := BodyAhead(11, v);
      if ok { CodeAreaParts(v); }
      ghost var (code, arity, xcount, name) :=
        if v.CodeArea? then (v.code, v.arity, v.xcount, v.printName) else ([], 0, 0, []);
      ghost var (debug, ks) := if v.CodeArea? then (v.debugData, v.ks) else (0, []);
      var head :- ReadCodeHead(code, arity, xcount);
      var tail :- ReadCodeTail(name, debug, ks);
      r := Success(CodeArea(uuid, head.0, head.1, head.2, tail.0, tail.2, tail.1));
    }

    method SkipAbstraction(ghost v: Value<nat>) returns (r: Result<bool>)
      modifies `at
      ensures old(at) <= at && (old(at) <= |input| ==> at <= |input|)
      ensures old(BodyAhead(16, v)) ==> r == Success(true) && at == old(at) + |Body(v)|
    {
      if v.Abstraction? {
        HasBoth(input, at, Size(v.last), Refs(v.elements));
        HasBoth(input, at + 4, Size(|v.elements|), Each(v.elements));
      }
      hide Has, Size, Each;
      var a :- Ignore(4, if v.Abstraction? then Size(v.last) else []);
      var count :- ReadSize(if v.Abstraction? then |v.elements| else 0);
      r := Ignore(count * 4, if v.Abstraction? then Each(v.elements) else []);
    }

    /** skipProc: the bytes of an entity that the VM knows are passed over. */
    method Skip(kind: Byte, ghost v: Value<nat>) returns (r: Result<bool>)
      requires kind in {11, 16, 19, 20}
      modifies `at
      ensures old(at) <= at && (old(at) <= |input| ==> at <= |input|)
      ensures old(BodyAhead(kind, v)) && HasUuid(v) ==> r == Success(true) && at == old(at) + |Body(v)|
    {
      if kind == 11 {
        ghost var rest := [];
        if BodyAhead(kind, v) && v.CodeArea? {
          rest := SkippedIs(input, at, v);
        }
        r := SkipCodeArea(v, rest);
      } else if kind == 16 {
        r := SkipAbstraction(v);
      } else if kind == 19 {
        r := Success(true);
      } else {
        var a :- ReadString(if v.NamedName? then v.printName else []);
        r := Success(true);
      }
    }

    /** readGlobalEntity: the VM's entity with the UUID if it knows one, and else a new one. */
    method ReadGlobal(kind: Byte, ghost v: Value<nat>) returns (r: Result<Entity>)
      requires kind in {11, 16, 19, 20}
      modifies `at, `globals
      ensures old(at) <= at && (old(at) <= |input| ==> at <= |input|)
      ensures old(ValueAhead(kind, v)) ==>
        r == Success(EntityOf(v, old(globals))) && at == old(at) + |Identity(v)| + |Body(v)| &&
          globals == old(globals) + IdsOf(v)
    {
      HasBoth(input, at, Identity(v), Body(v));
      hide Has, Body, There, Fits, EachFits, Stateless, Children;
      var bytes :- Read(16, Identity(v));
      var uuid: Uuid := bytes;
      if uuid !in globals {
        globals := globals + {uuid};
        var made :- Create(kind, uuid, v);
        r := Success(Made(made));
      } else {
        var skipped :- Skip(kind, v);
        r := Success(Known(uuid));
      }
    }

    /** What lies ahead is what follows the type of a value. */
    ghost predicate ValueAhead(kind: Byte, v: Value<nat>)
      reads `at, `nodes
    {
      Ahead(Identity(v) + Body(v)) && Readable(v) && There(Children(v)) && TypeId(v) == kind
    }

    /** The type comes first, and tells whether there is a UUID. */
    lemma TypeFirst(v: Value<nat>)
      ensures |Bytes(v)| == 1 + |Identity(v)| + |Body(v)|
      ensures Ahead(Bytes(v)) ==> Ahead([TypeId(v)]) && Has(input, at + 1, Identity(v) + Body(v))
      ensures Stateless(v) ==> 1 <= TypeId(v) <= 21 && (HasUuid(v) <==> TypeId(v) in {11, 16, 19, 20})
      ensures !HasUuid(v) ==> Identity(v) == [] && EntityOf(v, globals) == Made(v) && IdsOf(v) == {}
    {
      KindFacts(v);
      hide Body, Identity, Has, TypeId, EntityOf, IdsOf, Stateless, HasUuid;
      assert Bytes(v) == [TypeId(v)] + (Identity(v) + Body(v));
      HasBoth(input, at, [TypeId(v)], Identity(v) + Body(v));
    }

    lemma KindFacts(v: Value<nat>)
      ensures Stateless(v) ==> 1 <= TypeId(v) <= 21 && (HasUuid(v) <==> TypeId(v) in {11, 16, 19, 20})
      ensures !HasUuid(v) ==> Identity(v) == [] && EntityOf(v, globals) == Made(v) && IdsOf(v) == {}
    {
    }

    /** readValue. */
    method ReadValue(ghost v: Value<nat>) returns (r: Result<Entity>)
      modifies `at, `globals
      ensures old(at) <= at && (old(at) <= |input| ==> at <= |input|)
      ensures old(Ahead(Bytes(v)) && Readable(v) && There(Children(v))) ==>
        r == Success(EntityOf(v, old(globals))) && at == old(at) + |Bytes(v)| && globals == old(globals) + IdsOf(v)
      ensures old(Ahead(Bytes(v)) && Readable(v) && There(Children(v))) ==>
        && r.Success? && IsEntity(r.value, v, old(globals))
        && forall u :: u in globals <==> u in old(globals) || (HasUuid(v) && v.uuid == u)
    {
      EntityIs(v, globals);
      TypeFirst(v);
      hide Has, Body, There, Fits, EachFits, Stateless, TypeId, Bytes, EntityOf, IdsOf, Identity, HasUuid;
      var kind :- ReadByte(TypeId(v));
      if kind < 1 || kind > 21 {
        return Failure;
      }
      if kind in {11, 16, 19, 20} {
        r := ReadGlobal(kind, v);
      } else {
        assert !HasUuid(v) ==> Identity(v) + Body(v) == Body(v);
        r := ReadLocal(kind, v);
      }
    }

    method ReadLocal(kind: Byte, ghost v: Value<nat>) returns (r: Result<Entity>)
      requires 1 <= kind <= 21 && kind !in {11, 16, 19, 20}
      modifies `at
      ensures old(at) <= at && (old(at) <= |input| ==> at <= |input|)
      ensures old(BodyAhead(kind, v)) ==> r == Success(Made(v)) && at == old(at) + |Body(v)|
    {
      hide BodyAhead;
      if kind in {6, 7, 8, 9, 14, 15, 17} {
        var made :- ReadLinked(kind, v);
        r := Success(Made(made));
      } else {
        var made :- ReadPlain(kind, v);
        r := Success(Made(made));
      }
    }

    /** Where the main loop is: i values have been read and bound. */
    ghost predicate Reading(count: nat, top: nat, items: seq<Item>, i: nat, g: set<Uuid>)
      reads `at, `nodes, nodes, `globals
    {
      && Ordered(count, top, items) && i <= |items| && Ahead(Items(items[i..]) + Size(0)) && nodes.Length == count + 1
      && BoundTo(nodes[..], items[..i], g) && globals == g + AllIds(items[..i])
    }

    /** A value is read, and bound to its index, which must be there and not bound yet. */
    method BindNode(index: nat, ghost v: Value<nat>) returns (r: Result<bool>)
      modifies `at, `globals, nodes
      ensures old(at) <= at && (old(at) <= |input| ==> at <= |input|)
      ensures old(Ahead(Bytes(v)) && Readable(v) && There(Children(v)) && index < nodes.Length &&
                  nodes[index].Unbound?) ==>
        && r == Success(true) && at == old(at) + |Bytes(v)| && globals == old(globals) + IdsOf(v)
        && nodes[..] == old(nodes[..])[index := Bound(EntityOf(v, old(globals)))]
    {
      hide Has, Bytes, There, Readable, EntityOf, IdsOf;
      var value :- ReadValue(v);
      if nodes.Length <= index || nodes[index].Bound? {
        return Failure;
      }
      nodes[index] := Bound(value);
      r := Success(true);
    }

    /** A round of the main loop; it says whether there may be more. */
    method Round(ghost count: nat, ghost top: nat, ghost items: seq<Item>, ghost i: nat, ghost g: set<Uuid>)
      returns (r: Result<bool>)
      modifies `at, `globals, nodes
      ensures old(at) <= at && (old(at) <= |input| ==> at <= |input|)
      ensures r == Success(true) ==> old(at) < at
      ensures old(Reading(count, top, items, i, g)) && i < |items| ==>
        && r == Success(true) && at == old(at) + 4 + |Bytes(items[i].value)| && Reading(count, top, items, i + 1, g)
      ensures old(Reading(count, top, items, i, g)) && i == |items| ==>
        && r == Success(false) && at == old(at) + 4 && nodes[..] == old(nodes[..]) && globals == old(globals)
    {
      hide *;
      ghost var x := if i < |items| then items[i] else Item(0, UnitValue);
      ghost var before, ids := nodes[..], globals;
      ghost var ok := Reading(count, top, items, i, g);
      ghost var more := ok && i < |items|;
      if ok {
        NextItem(count, top, items, i, g);
        ReadingIs(count, top, items, i, g);
        SmallIs();
      }
      var index := ReadSize(x.index);
      if index.Failure? || index.value == 0 {
        return if index.Failure? then Failure else Success(false);
      }
      AheadIs(Bytes(x.value));
      r := BindNode(index.value, x.value);
      if more {
        AheadIs(Items(items[i + 1..]) + Size(0));
        ReadingNext(count, top, items, i, g, before, ids);
      }
    }

    lemma SmallIs()
      ensures 0 < SIZES && |Size(0)| == 4
    {
    }

    lemma ReadingIs(count: nat, top: nat, items: seq<Item>, i: nat, g: set<Uuid>)
      requires Reading(count, top, items, i, g)
      ensures i <= |items| && nodes.Length == |nodes[..]| == count + 1 && BoundTo(nodes[..], items[..i], g)
      ensures Ordered(count, top, items) && globals == g + AllIds(items[..i]) && Ahead(Items(items[i..]) + Size(0))
    {
    }

    lemma NextItem(count: nat, top: nat, items: seq<Item>, i: nat, g: set<Uuid>)
      requires Reading(count, top, items, i, g)
      ensures i == |items| ==> Ahead(Size(0))
      ensures i < |items| ==> var x := items[i];
        && Ahead(Size(x.index)) && 1 <= x.index < SIZES && x.index < nodes.Length && nodes[x.index].Unbound?
        && Has(input, at + 4, Bytes(x.value)) && Readable(x.value) && There(Children(x.value))
        && Has(input, at + 4 + |Bytes(x.value)|, Items(items[i + 1..]) + Size(0))
    {
      hide *;
      ReadingIs(count, top, items, i, g);
      if i == |items| {
        NoItems(items, i);
        AheadIs(Size(0));
      } else {
        var x := items[i];
        ItemIs(count, top, items, i);
        ItemsNext(items, i);
        var rest := Items(items[i + 1..]) + Size(0);
        AheadIs(Size(x.index) + (Bytes(x.value) + rest));
        AheadIs(Size(x.index));
        HasBoth(input, at, Size(x.index), Bytes(x.value) + rest);
        HasBoth(input, at + 4, Bytes(x.value), rest);
        ReadableThere(count, x.value);
        NotYet(nodes[..], count, top, items, i, g);
      }
    }

    lemma AheadIs(bs: seq<Byte>)
      ensures Ahead(bs) == Has(input, at, bs)
    {
    }

    lemma ItemIs(count: nat, top: nat, items: seq<Item>, i: nat)
      requires Ordered(count, top, items) && i < |items|
      ensures 1 <= items[i].index <= count < SIZES && Readable(items[i].value)
      ensures forall k <- Children(items[i].value) :: k <= count
    {
    }

    lemma ReadableThere(count: nat, v: Value<nat>)
      requires Readable(v) && nodes.Length == count + 1 && forall k <- Children(v) :: k <= count
      ensures There(Children(v))
    {
    }

    /** One more value has been read. */
    lemma ReadingNext(count: nat, top: nat, items: seq<Item>, i: nat, g: set<Uuid>, before: seq<Node>, ids: set<Uuid>)
      requires i < |items| && Ordered(count, top, items) && Ahead(Items(items[i + 1..]) + Size(0))
      requires |before| == count + 1 && BoundTo(before, items[..i], g) && ids == g + AllIds(items[..i])
      requires items[i].index <= count && nodes[..] == before[items[i].index := Bound(EntityOf(items[i].value, ids))]
      requires globals == ids + IdsOf(items[i].value)
      ensures Reading(count, top, items, i + 1, g)
    {
      hide Has, Items, BoundTo, IdsOf, EntityOf, AllIds, Ordered;
      assert |nodes[..]| == nodes.Length;
      BoundMore(before, count, top, items, i, g);
      AllIdsMore(items, i);
    }

    /** The header comes first. */
    lemma HeaderFirst(count: nat, top: nat, items: seq<Item>)
      requires Ahead(Stream(count, top, items)) && Ordered(count, top, items)
      ensures count < SIZES && top < SIZES && top <= count && Ahead(Size(count)) && Has(input, at + 4, Size(top))
      ensures Has(input, at + 8, Items(items) + Size(0)) && |Stream(count, top, items)| == 12 + |Items(items)|
    {
      hide Has, Size, Items;
      FourFlat(Size(count), Size(top), Items(items), Size(0));
      HasBoth(input, at, Size(count), Size(top) + (Items(items) + Size(0)));
      HasBoth(input, at + 4, Size(top), Items(items) + Size(0));
      assert Stream(count, top, items) == Size(count) + (Size(top) + (Items(items) + Size(0)));
    }

    lemma ReadingStarts(count: nat, top: nat, items: seq<Item>, g: set<Uuid>)
      requires Ordered(count, top, items) && Ahead(Items(items) + Size(0)) && nodes.Length == count + 1 && globals == g
      requires forall k | 0 <= k < nodes.Length :: nodes[k].Unbound?
      ensures Reading(count, top, items, 0, g)
    {
      hide Ordered, Has, Items, Size;
      assert items[0..] == items && items[..0] == [];
    }

    /** The main loop, until the index 0. */
    method ReadAll(ghost count: nat, ghost top: nat, ghost items: seq<Item>, ghost g: set<Uuid>)
      returns (r: Result<bool>)
      requires at <= |input|
      modifies `at, `globals, nodes
      ensures old(Reading(count, top, items, 0, g)) ==>
        && r.Success? && at == old(at) + |Items(items)| + 4
        && BoundTo(nodes[..], items, g) && globals == g + AllIds(items)
    {
      hide *;
      ghost var ok := Reading(count, top, items, 0, g);
      ghost var i := 0;
      var more := true;
      assert items[0..] == items;
      while more
        invariant at <= |input| && i <= |items|
        invariant ok && more ==>
          Reading(count, top, items, i, g) && at + |Items(items[i..])| == old(at) + |Items(items)|
        invariant ok && !more ==>
          at == old(at) + |Items(items)| + 4 && BoundTo(nodes[..], items, g) && globals == g + AllIds(items)
        decreases more, |input| - at
      {
        ghost var next := ok && i < |items|;
        if ok {
          ItemsFrom(items, i);
          ReadingIs(count, top, items, i, g);
        }
        var round := Round(count, top, items, i, g);
        if round.Failure? {
          return Failure;
        }
        more := round.value;
        if next {
          i := i + 1;
        }
      }
      r := Success(true);
    }

    lemma AllKnown(items: seq<Item>, known: set<Uuid>)
      requires globals == known + AllIds(items)
      ensures forall u :: u in globals <==> KnownBefore(items, |items|, known, u)
    {
      hide KnownBefore, AllIds;
      assert items[..|items|] == items;
      forall u ensures u in globals <==> KnownBefore(items, |items|, known, u) {
        IdsBefore(items, |items|, known, u);
      }
    }

    /** unpickle: the sizes, an unbound node for every index, and the main loop. */
    method Unpickle(ghost count: nat, ghost top: nat, ghost items: seq<Item>) returns (r: Result<nat>)
      requires at <= |input|
      modifies `at, `globals, `nodes
      ensures r.Success? ==> fresh(nodes) && r.value < nodes.Length
      ensures old(Ahead(Stream(count, top, items))) && Ordered(count, top, items) ==>
        && r == Success(top) && at == old(at) + |Stream(count, top, items)|
        && nodes.Length == count + 1 && BoundTo(nodes[..], items, old(globals)) &&
           globals == old(globals) + AllIds(items)
      ensures old(Ahead(Stream(count, top, items))) && Ordered(count, top, items) ==>
        && Meant(nodes[..], items, old(globals))
        && forall u :: u in globals <==> KnownBefore(items, |items|, old(globals), u)
    {
      hide *;
      ghost var ok := Ahead(Stream(count, top, items)) && Ordered(count, top, items);
      if ok {
        HeaderFirst(count, top, items);
      }
      var size := ReadSize(count);
      if size.Failure? {
        return Failure;
      }
      AheadIs(Size(top));
      var result := ReadSize(top);
      if result.Failure? {
        return Failure;
      }
      nodes := new Node[size.value + 1](_ => Unbound);
      if nodes.Length <= result.value {
        return Failure;
      }
      if ok {
        AheadIs(Items(items) + Size(0));
        ReadingStarts(count, top, items, globals);
      }
      ghost var known := globals;
      var done := ReadAll(count, top, items, globals);
      if done.Failure? {
        return Failure;
      }
      r := result;
      if ok {
        BoundIsMeant(nodes[..], items, known);
        AllKnown(items, known);
      }
    }
  }
}
