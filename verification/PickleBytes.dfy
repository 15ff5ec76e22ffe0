/** What the bytes of a pickle say, place by place. */
module PickleBytes {
  import opened PickleFormat

  /** The four bytes at a place, most significant first. */
  function NumberAt(bs: seq<Byte>, o: nat): nat
    requires o + 4 <= |bs|
  {
    bs[o] as nat * 0x100_0000 + bs[o + 1] as nat * 0x1_0000 + bs[o + 2] as nat * 0x100 + bs[o + 3] as nat
  }

  /** A number is at a place, as far as it fits. */
  ghost predicate Says(bs: seq<Byte>, o: nat, n: nat) {
    o + 4 <= |bs| && NumberAt(bs, o) == n % SIZES
  }

  /** References are at a place, one after the other. */
  ghost predicate SaysEach(bs: seq<Byte>, o: nat, ks: seq<nat>) {
    o + 4 * |ks| <= |bs| && forall i | 0 <= i < |ks| :: Says(bs, o + 4 * i, ks[i])
  }

  /** Bytes are at a place. */
  ghost predicate Holds(bs: seq<Byte>, o: nat, part: seq<Byte>) {
    o + |part| <= |bs| && bs[o..o + |part|] == part
  }

  lemma SizeSays(bs: seq<Byte>, o: nat, n: nat)
    requires Holds(bs, o, Size(n))
    ensures Says(bs, o, n)
  {
    SizeRoundTrip(n);
    hide Size;
    var part := bs[o..o + 4];
    assert part[0] == bs[o] && part[1] == bs[o + 1] && part[2] == bs[o + 2] && part[3] == bs[o + 3];
  }

  lemma HoldsBoth(bs: seq<Byte>, o: nat, a: seq<Byte>, b: seq<Byte>)
    requires Holds(bs, o, a + b)
    ensures Holds(bs, o, a) && Holds(bs, o + |a|, b)
  {
    assert bs[o..o + |a|] == (a + b)[..|a|];
    assert bs[o + |a|..o + |a| + |b|] == (a + b)[|a|..];
  }

  lemma {:induction false} EachSays(bs: seq<Byte>, o: nat, ks: seq<nat>)
    requires Holds(bs, o, Each(ks))
    ensures SaysEach(bs, o, ks)
    decreases |ks|
  {
    hide Size, Says;
    if ks != [] {
      HoldsBoth(bs, o, Size(ks[0]), Each(ks[1..]));
      SizeSays(bs, o, ks[0]);
      EachSays(bs, o + 4, ks[1..]);
      forall i | 0 <= i < |ks| ensures Says(bs, o + 4 * i, ks[i]) {
        if i > 0 {
          assert ks[1..][i - 1] == ks[i] && o + 4 + 4 * (i - 1) == o + 4 * i;
        }
      }
    }
  }

  lemma RefsSay(bs: seq<Byte>, o: nat, ks: seq<nat>)
    requires Holds(bs, o, Refs(ks))
    ensures Says(bs, o, |ks|) && SaysEach(bs, o + 4, ks)
  {
    hide Size, Each, Says, Holds;
    HoldsBoth(bs, o, Size(|ks|), Each(ks));
    SizeSays(bs, o, |ks|);
    EachSays(bs, o + 4, ks);
  }

  lemma TextSays(bs: seq<Byte>, o: nat, t: Text)
    requires Holds(bs, o, Str(t))
    ensures Says(bs, o, |t|) && Holds(bs, o + 4, t)
  {
    hide Size, Says, Holds;
    HoldsBoth(bs, o, Size(|t|), t);
    SizeSays(bs, o, |t|);
  }

  lemma Whole(bs: seq<Byte>)
    ensures Holds(bs, 0, bs)
  {
  }

  // --------------------------------------------------------------- the types

  /** Numbers, atoms, unique names and strings, and the names that are printed: the length of the text, and the text. */
  lemma TextBytes(v: Value<nat>)
    requires v.Words? || v.NamedName?
    ensures var t := if v.Words? then v.text else v.printName;
      |Body(v)| == 4 + |t| && Says(Body(v), 0, |t|) && Holds(Body(v), 4, t)
  {
    hide Says, Holds, Size;
    Whole(Body(v));
    TextSays(Body(v), 0, if v.Words? then v.text else v.printName);
  }

  /** Builtins: the module, then the name. */
  lemma BuiltinBytes(v: Value<nat>)
    requires v.Builtin?
    ensures var (bs, m, n) := (Body(v), v.moduleName, v.name);
      && |bs| == 8 + |m| + |n| && Says(bs, 0, |m|) && Holds(bs, 4, m)
      && Says(bs, 4 + |m|, |n|) && Holds(bs, 8 + |m|, n)
  {
    hide Says, Holds, Size;
    Whole(Body(v));
    HoldsBoth(Body(v), 0, Str(v.moduleName), Str(v.name));
    TextSays(Body(v), 0, v.moduleName);
    TextSays(Body(v), 4 + |v.moduleName|, v.name);
  }

  /** Booleans: one byte. Captures: the index. Units, wildcards and names: nothing. */
  lemma SmallBytes(v: Value<nat>)
    ensures v.Bool? ==> Body(v) == [if v.b then 1 else 0]
    ensures v.Capture? ==> |Body(v)| == 4 && Says(Body(v), 0, v.index)
    ensures v.UnitValue? || v.Wildcard? || v.Name? ==> Body(v) == []
  {
    if v.Capture? {
      SizeSays(Body(v), 0, v.index);
    }
  }

  /** Pairs: the head, then the tail. Chunks: what is below. */
  lemma PairBytes(v: Value<nat>)
    requires v.Cons? || v.Chunk?
    ensures v.Cons? ==> |Body(v)| == 8 && Says(Body(v), 0, v.head) && Says(Body(v), 4, v.tail)
    ensures v.Chunk? ==> |Body(v)| == 4 && Says(Body(v), 0, v.underlying)
  {
    hide Says, Holds, Size;
    Whole(Body(v));
    if v.Cons? {
      HoldsBoth(Body(v), 0, Size(v.head), Size(v.tail));
      SizeSays(Body(v), 0, v.head);
      SizeSays(Body(v), 4, v.tail);
    } else {
      SizeSays(Body(v), 0, v.underlying);
    }
  }

  /** Tuples, arities, records, open records and abstractions: the label, arity or code area first, then the width and
      the elements. Conjunctions: the width and the elements. */
  lemma SpineBytes(v: Value<nat>)
    requires v.Compound? || v.Abstraction? || v.Conjunction?
    ensures var (bs, o) := (Body(v), if v.Conjunction? then 0 else 4);
      && |bs| == o + 4 + 4 * |v.elements| && (o == 4 ==> Says(bs, 0, v.last))
      && Says(bs, o, |v.elements|) && SaysEach(bs, o + 4, v.elements)
  {
    hide Says, SaysEach, Holds, Size, Each;
    Whole(Body(v));
    if v.Conjunction? {
      RefsSay(Body(v), 0, v.elements);
    } else {
      HoldsBoth(Body(v), 0, Size(v.last), Refs(v.elements));
      SizeSays(Body(v), 0, v.last);
      RefsSay(Body(v), 4, v.elements);
    }
  }

  /** Byte codes are at a place, two bytes each, the high one first. */
  ghost predicate SaysCodes(bs: seq<Byte>, o: nat, code: seq<ByteCode>) {
    && o + 2 * |code| <= |bs|
    && forall i | 0 <= i < |code| :: bs[o + 2 * i] as int * 0x100 + bs[o + 2 * i + 1] as int == code[i] as int
  }

  lemma CodesSay(bs: seq<Byte>, o: nat, code: seq<ByteCode>)
    requires Holds(bs, o, Codes(code))
    ensures SaysCodes(bs, o, code)
  {
    forall i | 0 <= i < |code|
      ensures bs[o + 2 * i] as int * 0x100 + bs[o + 2 * i + 1] as int == code[i] as int
    {
      CodesAt(code, i);
      var part := bs[o..o + 2 * |code|];
      assert part[2 * i] == bs[o + 2 * i] && part[2 * i + 1] == bs[o + 2 * i + 1];
    }
  }

  /** Code areas: the code, the arity, the number of X registers, the name, the debug data, and the constants. */
  lemma CodeAreaSays(v: Value<nat>)
    requires v.CodeArea?
    ensures var (bs, o) := (Body(v), 4 + 2 * |v.code|);
      && Says(bs, 0, |v.code|) && SaysCodes(bs, 4, v.code) && Says(bs, o, v.arity) && Says(bs, o + 4, v.xcount)
    ensures var (bs, o) := (Body(v), 12 + 2 * |v.code| + |v.printName|);
      && Says(bs, 12 + 2 * |v.code|, |v.printName|) && Holds(bs, 16 + 2 * |v.code|, v.printName)
      && Says(bs, o + 4, v.debugData) && Says(bs, o + 8, |v.ks|) && SaysEach(bs, o + 12, v.ks)
      && |bs| == o + 12 + 4 * |v.ks|
  {
    hide Says, SaysEach, SaysCodes, Holds, Size, Each, Codes, CodeHead, CodeTail;
    Whole(Body(v));
    HoldsBoth(Body(v), 0, CodeHead(v.code, v.arity, v.xcount), CodeTail(v.printName, v.debugData, v.ks));
    HeadSays(Body(v), 0, v.code, v.arity, v.xcount);
    TailSays(Body(v), |CodeHead(v.code, v.arity, v.xcount)|, v.printName, v.debugData, v.ks);
  }

  lemma HeadSays(bs: seq<Byte>, o: nat, code: seq<ByteCode>, arity: nat, xcount: nat)
    requires Holds(bs, o, CodeHead(code, arity, xcount))
    ensures |CodeHead(code, arity, xcount)| == 12 + 2 * |code|
    ensures Says(bs, o, |code|) && SaysCodes(bs, o + 4, code)
    ensures Says(bs, o + 4 + 2 * |code|, arity) && Says(bs, o + 8 + 2 * |code|, xcount)
  {
    hide Says, SaysCodes, Holds, Size, Codes;
    HoldsBoth(bs, o, Size(|code|) + Codes(code) + Size(arity), Size(xcount));
    HoldsBoth(bs, o, Size(|code|) + Codes(code), Size(arity));
    HoldsBoth(bs, o, Size(|code|), Codes(code));
    SizeSays(bs, o, |code|);
    CodesSay(bs, o + 4, code);
    SizeSays(bs, o + 4 + 2 * |code|, arity);
    SizeSays(bs, o + 8 + 2 * |code|, xcount);
  }

  lemma TailSays(bs: seq<Byte>, o: nat, name: Text, debug: nat, ks: seq<nat>)
    requires Holds(bs, o, CodeTail(name, debug, ks))
    ensures |CodeTail(name, debug, ks)| == 12 + |name| + 4 * |ks|
    ensures Says(bs, o, |name|) && Holds(bs, o + 4, name) && Says(bs, o + 4 + |name|, debug)
    ensures Says(bs, o + 8 + |name|, |ks|) && SaysEach(bs, o + 12 + |name|, ks)
  {
    hide Says, SaysEach, Holds, Size, Each;
    HoldsBoth(bs, o, Str(name) + Size(debug), Refs(ks));
    HoldsBoth(bs, o, Str(name), Size(debug));
    TextSays(bs, o, name);
    SizeSays(bs, o + 4 + |name|, debug);
    RefsSay(bs, o + 8 + |name|, ks);
  }

  /** A value: its type, then its UUID if it has one, and the rest. */
  lemma ValueBytes(v: Value<nat>)
    ensures |Bytes(v)| > 0 && Bytes(v)[0] == TypeId(v)
    ensures HasUuid(v) ==> Holds(Bytes(v), 1, v.uuid) && Holds(Bytes(v), 17, Body(v)) && |Bytes(v)| == 17 + |Body(v)|
    ensures !HasUuid(v) ==> Holds(Bytes(v), 1, Body(v)) && |Bytes(v)| == 1 + |Body(v)|
  {
    hide Holds, Body;
    assert Bytes(v) == [TypeId(v)] + (Identity(v) + Body(v));
    Whole(Bytes(v));
    HoldsBoth(Bytes(v), 0, [TypeId(v)], Identity(v) + Body(v));
    HoldsBoth(Bytes(v), 1, Identity(v), Body(v));
  }

  // --------------------------------------------------------------- the stream

  /** Where an item begins. */
  function Start(items: seq<Item>, i: nat): nat
    requires i <= |items|
  {
    if i == 0 then 8 else Start(items, i - 1) + 4 + |Bytes(items[i - 1].value)|
  }

  /** A stream: the count, the index of the root, each item with its index, and 0. */
  lemma StreamSays(count: nat, top: nat, items: seq<Item>)
    ensures var bs := Stream(count, top, items);
      && Says(bs, 0, count) && Says(bs, 4, top)
      && (forall i | 0 <= i < |items| ::
            Says(bs, Start(items, i), items[i].index) && Holds(bs, Start(items, i) + 4, Bytes(items[i].value)))
      && Says(bs, Start(items, |items|), 0) && |bs| == Start(items, |items|) + 4
  {
    hide Says, Holds, Size, Bytes, Start;
    var bs := Stream(count, top, items);
    Whole(bs);
    HoldsBoth(bs, 0, Size(count) + Size(top) + Items(items), Size(0));
    HoldsBoth(bs, 0, Size(count) + Size(top), Items(items));
    HoldsBoth(bs, 0, Size(count), Size(top));
    SizeSays(bs, 0, count);
    SizeSays(bs, 4, top);
    StartsAfter(items, |items|);
    assert items[..|items|] == items;
    SizeSays(bs, 8 + |Items(items)|, 0);
    forall i | 0 <= i < |items|
      ensures Says(bs, Start(items, i), items[i].index) && Holds(bs, Start(items, i) + 4, Bytes(items[i].value))
    {
      ItemSays(bs, items, i);
    }
  }

  lemma {:induction false} StartsAfter(items: seq<Item>, i: nat)
    requires i <= |items|
    ensures Start(items, i) == 8 + |Items(items[..i])|
  {
    hide Bytes, Size;
    if i > 0 {
      StartsAfter(items, i - 1);
      ItemsMore(items[..i - 1], items[i - 1]);
      assert items[..i - 1] + [items[i - 1]] == items[..i];
    }
  }

  lemma ItemSays(bs: seq<Byte>, items: seq<Item>, i: nat)
    requires i < |items| && Holds(bs, 8, Items(items))
    ensures Says(bs, Start(items, i), items[i].index) && Holds(bs, Start(items, i) + 4, Bytes(items[i].value))
  {
    hide Says, Holds, Bytes, Size, Start;
    var (a, x, b) := (items[..i], items[i], items[i + 1..]);
    StartsAfter(items, i);
    assert items == (a + [x]) + b;
    ItemsJoin(a + [x], b);
    HoldsBoth(bs, 8, Items(a + [x]), Items(b));
    ItemsMore(a, x);
    HoldsBoth(bs, 8, Items(a) + Size(x.index), Bytes(x.value));
    HoldsBoth(bs, 8, Items(a), Size(x.index));
    SizeSays(bs, Start(items, i), x.index);
  }
}
