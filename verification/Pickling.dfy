/** The pickler: numbering, redirecting and writing. */
module Pickling {
  import opened PickleFormat
  import opened PickleNumbering
  import opened PickleMerging
  import opened PickleRedirection
  import opened PickleSteps
  import opened Wrappers

  /** How pickle ends: with a stream, waiting for a future, or with the error that lists the resources. */
  datatype Outcome = Written | Suspended(future: Ref) | Refused(resources: seq<Ref>)

  function Stored(h: Heap): map<Ref, Content> {
    map r | r in h :: Live(h[r])
  }

  function ResourcesIn(h: Heap, list: seq<PickleNode>): seq<Ref>
    requires In(h, list)
  {
    if list == [] then []
    else
      assert list[0] in list && forall n <- list[1..] :: n in list;
      (if h[list[0].node].Resource? then [list[0].node] else []) + ResourcesIn(h, list[1..])
  }

  lemma {:induction false} ResourcesAre(h: Heap, list: seq<PickleNode>)
    requires In(h, list)
    ensures forall r :: r in ResourcesIn(h, list) <==> exists n <- list :: n.node == r && h[r].Resource?
  {
    if list != [] {
      var rest := list[1..];
      assert list[0] in list && forall n <- rest :: n in list;
      ResourcesAre(h, rest);
      assert forall n <- list :: n == list[0] || n in rest;
    }
  }

  /** What the first pass says about futures and resources. */
  ghost predicate Checked(h: Heap, list: seq<PickleNode>, futures: bool, resources: seq<Ref>) {
    && In(h, list) && (futures <==> exists n <- list :: h[n.node].Future?)
    && (!futures ==> resources == ResourcesIn(h, list))
  }

  lemma CheckedMore(h: Heap, list: seq<PickleNode>, n: PickleNode, futures: bool, resources: seq<Ref>)
    requires Checked(h, list, futures, resources) && n.node in h
    ensures Checked(h, [n] + list, futures || h[n.node].Future?,
                    if !futures && !h[n.node].Future? && h[n.node].Resource? then [n.node] + resources else resources)
  {
    var now := [n] + list;
    assert n in now && now[1..] == list;
    assert forall m <- list :: m in now;
  }

  ghost function Futures(h: Heap, reached: set<Ref>): set<Ref> {
    set r | r in reached && r in h && h[r].Future?
  }

  /** How a pickle of what a root reaches must end. */
  ghost predicate Decides(h: Heap, reached: set<Ref>, outcome: Outcome) {
    && (outcome.Written? <==> forall r <- reached :: r in h && Stateless(h[r]))
    && (outcome.Suspended? <==> Futures(h, reached) != {})
    && (outcome.Suspended? ==> outcome.future in Futures(h, reached))
    && (outcome.Refused? ==> forall r :: r in outcome.resources <==> r in reached && r in h && h[r].Resource?)
  }

  ghost function FuturesIn(h: Heap, list: seq<PickleNode>): set<Ref>
    requires In(h, list)
  {
    set n <- list | h[n.node].Future? :: n.node
  }

  lemma FuturesMore(h: Heap, list: seq<PickleNode>, x: PickleNode)
    requires In(h, list) && x.node in h
    ensures In(h, list + [x])
    ensures FuturesIn(h, list + [x]) == FuturesIn(h, list) + if h[x.node].Future? then {x.node} else {}
  {
    assert x in list + [x];
    forall n <- list ensures n in list + [x] { }
  }

  /** Every node numbered has been saved. */
  ghost predicate Saved(h: Heap, list: seq<PickleNode>, backups: seq<(Ref, Content)>) {
    |backups| == |list| && forall j | 0 <= j < |list| ::
      list[j].node in h && backups[j] == (list[j].node, Live(h[list[j].node]))
  }

  /** The nodes that are not as stored have backups. */
  ghost predicate Restorable(h: Heap, content: map<Ref, Content>, backups: seq<(Ref, Content)>) {
    && content.Keys == h.Keys
    && (forall b <- backups :: b.0 in h && b.1 == Live(h[b.0]))
    && (forall r <- h :: content[r] == Live(h[r]) || exists b <- backups :: b.0 == r)
  }

  lemma SavedRestorable(h: Heap, root: Ref, w: Work, backups: seq<(Ref, Content)>)
    requires Overwritten(h, w) && Saved(h, w.nodes, backups)
    ensures Restorable(h, w.content, backups)
  {
    forall r <- h ensures w.content[r] == Live(h[r]) || exists b <- backups :: b.0 == r {
      if w.content[r].Serialized? {
        var j := |w.nodes| - w.content[r].n;
        assert backups[j].0 == r && backups[j] in backups;
      }
    }
  }

  /** The nodes that have no number yet. */
  ghost function Alive(content: map<Ref, Content>): set<Ref> {
    set r | r in content && content[r].Live?
  }

  lemma OneLess(content: map<Ref, Content>, r: Ref, k: nat)
    requires r in content && content[r].Live?
    ensures Alive(content[r := Serialized(k)]) < Alive(content)
  {
    assert r in Alive(content) && r !in Alive(content[r := Serialized(k)]);
  }

  class Pickler {
    /** The nodes of the store. */
    var content: map<Ref, Content>

    var todoFrom: seq<Ref>
    var todoTo: seq<Place>
    var bound: map<Place, nat>
    var nodes: seq<PickleNode>
    var backups: seq<(Ref, Content)>
    var redirections: array<nat>

    /** The futures marked as needed, and the bytes written. */
    var needed: set<Ref>
    var output: seq<Byte>

    constructor (h: Heap)
      ensures content == Stored(h) && output == [] && needed == {} && fresh(redirections)
    {
      content := Stored(h);
      todoFrom, todoTo, bound, nodes, backups, needed, output := [], [], map[], [], [], {}, [];
      redirections := new nat[0];
    }

    ghost function State(): Work
      reads `content, `todoFrom, `todoTo, `bound, `nodes
    {
      Work(content, todoFrom, todoTo, bound, nodes)
    }

    /** SerializationCallback::copy, for a whole record. */
    method Copy(to: seq<Place>, from: seq<Ref>)
      requires |to| == |from|
      modifies `todoFrom, `todoTo
      ensures todoFrom == old(todoFrom) + from && todoTo == old(todoTo) + to
    {
      todoFrom := todoFrom + from;
      todoTo := todoTo + to;
    }

    /** The loop over the worklist: serialized nodes become numbers. */
    method Number(ghost h: Heap, value: Ref)
      returns (count: nat, futures: bool, resources: seq<Ref>, ghost num: map<Ref, nat>)
      requires WellFormed(h) && value in h && content == Stored(h)
      modifies `content, `todoFrom, `todoTo, `bound, `nodes, `backups
      ensures Numbering(h, value, num, nodes, bound) && count == |nodes|
      ensures Checked(h, nodes, futures, resources) && Restorable(h, content, backups)
    {
      hide *;
      todoFrom, todoTo, bound, nodes, backups := [], [], map[], [], [];
      Copy([Top], [value]);
      count, futures, resources := 0, false, [];
      PassStarts(h, value);
      while todoFrom != []
        invariant Passing(h, value, futures, resources) && count == |nodes|
        decreases Alive(content), |todoFrom|
      {
        var done;
        done, futures, resources := Step(h, value, futures, resources);
        if !done {
          count := count + 1;
        }
      }
      num := PassEnds(h, value, futures, resources);
    }

    /** What every round of the loop keeps. */
    ghost predicate Passing(h: Heap, value: Ref, futures: bool, resources: seq<Ref>)
      reads `content, `todoFrom, `todoTo, `bound, `nodes, `backups
    {
      WellFormed(h) && value in h && Inv(h, value, State()) && Saved(h, nodes, backups) &&
        Checked(h, nodes, futures, resources)
    }

    lemma PassStarts(h: Heap, value: Ref)
      requires WellFormed(h) && value in h && content == Stored(h)
      requires todoFrom == [value] && todoTo == [Top] && bound == map[] && nodes == [] && backups == []
      ensures Passing(h, value, false, [])
    {
      hide Inv, WellFormed;
      InvAtStart(h, value);
    }

    lemma PassEnds(h: Heap, value: Ref, futures: bool, resources: seq<Ref>) returns (num: map<Ref, nat>)
      requires Passing(h, value, futures, resources) && todoFrom == []
      ensures Numbering(h, value, num, nodes, bound)
      ensures Checked(h, nodes, futures, resources) && Restorable(h, content, backups)
    {
      hide Listed, Waiting, Placing, Needed, Overwritten, WellFormed, Saved, Checked, Numbering, Restorable;
      num := Numbers(State());
      PassDone(h, value, State());
      SavedRestorable(h, value, State(), backups);
    }

    /** The next node has its number: a reference is bound to it. */
    method Bind(ghost h: Heap, ghost value: Ref)
      requires Inv(h, value, State()) && todoFrom != [] && todoFrom[0] in content && content[todoFrom[0]].Serialized?
      modifies `todoFrom, `todoTo, `bound
      ensures Inv(h, value, State()) && |todoFrom| < |old(todoFrom)|
    {
      ghost var w := State();
      InvIs(h, value, w);
      hide Inv;
      BoundKeeps(h, value, w);
      var (from, to) := (todoFrom[0], todoTo[0]);
      todoFrom, todoTo := todoFrom[1..], todoTo[1..];
      bound := bound[to := content[from].n];
      assert State() == Bound(w);
    }

    /** The next node is serialized: its record is made, and what it refers to is to do. */
    method Serialize() returns (x: PickleNode, to: Place)
      requires |todoFrom| == |todoTo| != 0 && todoFrom[0] in content && content[todoFrom[0]].Live?
      modifies `todoFrom, `todoTo
      ensures x == Numbered(old(State())).nodes[0] && to == old(todoTo)[0]
      ensures todoFrom == Numbered(old(State())).from && todoTo == Numbered(old(State())).to
    {
      var from := todoFrom[0];
      to := todoTo[0];
      var v := content[from].v;
      todoFrom, todoTo := todoFrom[1..], todoTo[1..];
      x := PickleNode(|nodes| + 1, from, Placed(|nodes| + 1, v));
      Copy(Places(|nodes| + 1, |Children(v)|), Children(v));
    }

    /** The next node gets the next number. */
    method Overwrite(ghost h: Heap, ghost value: Ref)
      requires WellFormed(h) && Inv(h, value, State()) && todoFrom != [] && todoFrom[0] in content &&
        content[todoFrom[0]].Live?
      requires Saved(h, nodes, backups)
      modifies `content, `todoFrom, `todoTo, `bound, `nodes, `backups
      ensures Inv(h, value, State()) && Saved(h, nodes, backups)
      ensures |nodes| == |old(nodes)| + 1 && nodes == [nodes[0]] + old(nodes)
      ensures nodes[0].node == old(todoFrom)[0] && nodes[0].node in h
      ensures Alive(content) < Alive(old(content))
    {
      ghost var w := State();
      InvIs(h, value, w);
      NumberedKeeps(h, value, w);
      hide Inv, WellFormed, Saved, Placed, Children, Places, Alive;
      var x, to := Serialize();
      SavedMore(h, nodes, x, backups, content[x.node]);
      OneLess(content, x.node, x.index);
      nodes := [x] + nodes;
      backups := [(x.node, content[x.node])] + backups;
      content := content[x.node := Serialized(x.index)];
      bound := bound[to := x.index];
      assert State() == Numbered(w);
    }

    /** A round of the loop. */
    method Step(ghost h: Heap, ghost value: Ref, futures: bool, resources: seq<Ref>)
      returns (done: bool, futures': bool, resources': seq<Ref>)
      requires Passing(h, value, futures, resources) && todoFrom != []
      modifies `content, `todoFrom, `todoTo, `bound, `nodes, `backups
      ensures Passing(h, value, futures', resources')
      ensures |nodes| == if done then |old(nodes)| else |old(nodes)| + 1
      ensures if done then content == old(content) && |todoFrom| < |old(todoFrom)|
        else Alive(content) < Alive(old(content))
    {
      hide Inv, WellFormed, Checked, Saved, Alive, Placed, Stateless;
      InvIs(h, value, State());
      futures', resources' := futures, resources;
      done := content[todoFrom[0]].Serialized?;
      if done {
        Bind(h, value);
      } else {
        var from := todoFrom[0];
        var v := content[from].v;
        ghost var was := nodes;
        Overwrite(h, value);
        futures', resources' := Check(h, was, from, v, futures, resources);
      }
    }

    /** The first future makes resources uninteresting. */
    method Check(ghost h: Heap, ghost was: seq<PickleNode>, from: Ref, v: Value<Ref>, futures: bool,
                 resources: seq<Ref>)
      returns (futures': bool, resources': seq<Ref>)
      requires nodes != [] && nodes == [nodes[0]] + was && nodes[0].node == from && from in h && h[from] == v
      requires Checked(h, was, futures, resources)
      ensures Checked(h, nodes, futures', resources')
    {
      CheckedMore(h, was, nodes[0], futures, resources);
      hide Checked;
      futures', resources' := futures, resources;
      if !futures {
        if v.Future? {
          futures' := true;
        } else if !Stateless(v) {
          resources' := [from] + resources;
        }
      }
    }

    lemma InvIs(h: Heap, value: Ref, w: Work)
      requires Inv(h, value, w) && w.from != []
      ensures w.to != [] && w.from[0] in h && w.content.Keys == h.Keys
      ensures w.content[w.from[0]].Live? ==> w.content[w.from[0]].v == h[w.from[0]]
    {
    }

    lemma SavedMore(h: Heap, list: seq<PickleNode>, n: PickleNode, backups: seq<(Ref, Content)>, c: Content)
      requires Saved(h, list, backups) && n.node in h && c == Live(h[n.node])
      ensures Saved(h, [n] + list, [(n.node, c)] + backups)
    {
    }

    /** restoreNodes. */
    method Restore(ghost h: Heap)
      requires Restorable(h, content, backups)
      modifies `content, `backups
      ensures content == Stored(h) && backups == []
    {
      while backups != []
        invariant Restorable(h, content, backups)
        decreases |backups|
      {
        ghost var was := backups;
        content := content[backups[0].0 := backups[0].1];
        backups := backups[1..];
        assert was == [was[0]] + backups;
      }
    }

    // ------------------------------------------------------------- bytes

    method WriteByte(b: Byte)
      modifies `output
      ensures output == old(output) + [b]
    {
      output := output + [b];
    }

    method WriteSize(n: nat)
      modifies `output
      ensures output == old(output) + Size(n)
    {
      WriteByte(Low(n / 0x100_0000));
      WriteByte(Low(n / 0x1_0000));
      WriteByte(Low(n / 0x100));
      WriteByte(Low(n));
    }

    method WriteStr(t: Text)
      modifies `output
      ensures output == old(output) + Str(t)
    {
      WriteSize(|t|);
      output := output + t;
    }

    method WriteUuid(u: Uuid)
      modifies `output
      ensures output == old(output) + u
    {
      output := output + u;
    }

    ghost predicate Resolvable(ps: seq<Place>)
      reads `bound, `redirections
    {
      forall p <- ps :: p in bound && bound[p] < redirections.Length
    }

    ghost function Indices(ps: seq<Place>): seq<nat>
      requires Resolvable(ps)
      reads `bound, `redirections, redirections
    {
      Redirected(ps, bound, redirections[..])
    }

    method WriteRef(p: Place)
      requires Resolvable([p])
      modifies `output
      ensures output == old(output) + Size(redirections[bound[p]])
    {
      assert p in [p];
      WriteSize(redirections[bound[p]]);
    }

    /** writeNRefs. */
    method WriteRefs(ps: seq<Place>)
      requires Resolvable(ps)
      modifies `output
      ensures output == old(output) + Refs(Indices(ps))
    {
      hide Each, Size;
      WriteSize(|ps|);
      ghost var ks := Indices(ps);
      ghost var from := output;
      var i := 0;
      EachNone(ks, output);
      while i < |ps|
        invariant i <= |ps| && output + Each(ks[i..]) == from + Each(ks)
      {
        assert ps[i] in ps;
        EachFrom(ks, i, output);
        WriteRef(ps[i]);
        i := i + 1;
      }
      EachNone(ks, output);
      assert output == old(output) + (Size(|ks|) + Each(ks));
    }

    method WriteLastFirst(ps: seq<Place>, last: Place)
      requires Resolvable(ps) && Resolvable([last])
      modifies `output
      ensures output == old(output) + LastFirst(Indices(ps), redirections[bound[last]])
    {
      hide Refs, Size;
      WriteRef(last);
      WriteRefs(ps);
    }

    method WriteCodes(code: seq<ByteCode>)
      modifies `output
      ensures output == old(output) + Codes(code)
    {
      hide Codes;
      var i := 0;
      assert code[0..] == code;
      while i < |code|
        invariant i <= |code| && output + Codes(code[i..]) == old(output) + Codes(code)
      {
        CodesFrom(code, i, output);
        WriteByte(code[i] / 0x100);
        WriteByte(code[i] % 0x100);
        i := i + 1;
      }
      assert code[i..] == [] && Codes([]) == [];
    }

    /** The code of a code area, then what goes with it. */
    method WriteCodeArea(refs: Value<Place>)
      requires refs.CodeArea? && Resolvable(refs.ks) && Resolvable([refs.debugData])
      modifies `output
      ensures output == old(output) +
        CodeAreaBytes(CodeArea(refs.uuid, refs.code, refs.arity, refs.xcount, refs.printName,
                               Indices(refs.ks), redirections[bound[refs.debugData]]))
    {
      hide Codes, Size, Str, Refs;
      ghost var o := output;
      WriteSize(|refs.code|);
      WriteCodes(refs.code);
      WriteSize(refs.arity);
      WriteSize(refs.xcount);
      assert output == o + CodeHead(refs.code, refs.arity, refs.xcount);
      ghost var middle := output;
      WriteStr(refs.printName);
      WriteRef(refs.debugData);
      WriteRefs(refs.ks);
      assert output == middle + CodeTail(refs.printName, redirections[bound[refs.debugData]], Indices(refs.ks));
    }

    /** The record with its references redirected. */
    ghost function Final(refs: Value<Place>): Value<nat>
      requires Resolvable(Children(refs))
      reads `bound, `redirections, redirections
    {
      WithChildren(refs, Indices(Children(refs)))
    }

    lemma FinalIs(refs: Value<Place>)
      requires Resolvable(Children(refs))
      ensures refs.Compound? || refs.Abstraction? ==> Resolvable(refs.elements) && Resolvable([refs.last])
      ensures refs.Compound? ==>
        Final(refs) == Compound(refs.shape, Indices(refs.elements), redirections[bound[refs.last]])
      ensures refs.Abstraction? ==>
        Final(refs) == Abstraction(refs.uuid, Indices(refs.elements), redirections[bound[refs.last]])
      ensures refs.CodeArea? ==> Resolvable(refs.ks) && Resolvable([refs.debugData])
      ensures refs.CodeArea? ==>
        Final(refs) == CodeArea(refs.uuid, refs.code, refs.arity, refs.xcount, refs.printName,
                                Indices(refs.ks), redirections[bound[refs.debugData]])
    {
      var cs := Children(refs);
      if refs.Compound? || refs.Abstraction? {
        assert cs == refs.elements + [refs.last];
        LastOf(refs.elements, refs.last);
      } else if refs.CodeArea? {
        assert cs == refs.ks + [refs.debugData];
        LastOf(refs.ks, refs.debugData);
      }
    }

    lemma LastOf(ps: seq<Place>, p: Place)
      requires Resolvable(ps + [p])
      ensures Resolvable(ps) && Resolvable([p])
      ensures Indices(ps + [p])[..|ps|] == Indices(ps) && Indices(ps + [p])[|ps|] == redirections[bound[p]]
    {
      assert p in ps + [p];
      assert forall q <- ps :: q in ps + [p];
    }

    /** writeNode: the index, the type, and what the type says. */
    method WriteNode(index: nat, refs: Value<Place>)
      requires Stateless(refs) && Resolvable(Children(refs))
      modifies `output
      ensures output == old(output) + Size(index) + Bytes(old(Final(refs)))
    {
      ghost var (o, v) := (output, Final(refs));
      FinalKind(refs);
      hide Size, Body, Final, Resolvable;
      WriteSize(index);
      WriteByte(TypeId(refs));
      WriteIdentity(refs);
      WriteBody(refs);
      Regroup(o + Size(index), [TypeId(refs)], Identity(refs), Body(v));
    }

    lemma Regroup(a: seq<Byte>, b: seq<Byte>, c: seq<Byte>, d: seq<Byte>)
      ensures a + b + c + d == a + (b + c + d)
    {
    }

    /** writeUUIDOf, for the types that have a UUID: it comes first. */
    method WriteIdentity(refs: Value<Place>)
      modifies `output
      ensures output == old(output) + Identity(refs)
    {
      if HasUuid(refs) {
        WriteUuid(refs.uuid);
      }
    }

    lemma FinalKind(refs: Value<Place>)
      requires Resolvable(Children(refs))
      ensures TypeId(Final(refs)) == TypeId(refs) && HasUuid(Final(refs)) == HasUuid(refs)
      ensures Identity(Final(refs)) == Identity(refs)
    {
      hide WithChildren, TypeId, HasUuid, Identity, Children, Resolvable;
      KindKept(refs, Indices(Children(refs)));
    }

    method WriteBody(refs: Value<Place>)
      requires Stateless(refs) && Resolvable(Children(refs))
      modifies `output
      ensures output == old(output) + Body(old(Final(refs)))
    {
      hide LastFirst, CodeAreaBytes, Str, Size, Refs;
      if refs.Compound? || refs.Abstraction? {
        FinalIs(refs);
        hide Final, Children, Resolvable;
        WriteLastFirst(refs.elements, refs.last);
      } else if refs.CodeArea? {
        FinalIs(refs);
        hide Final, Children, Resolvable;
        WriteCodeArea(refs);
      } else if refs.Cons? {
        assert Resolvable([refs.head]) && Resolvable([refs.tail]);
        WriteRef(refs.head);
        WriteRef(refs.tail);
      } else if refs.Conjunction? {
        WriteRefs(refs.elements);
      } else if refs.Chunk? {
        WriteRef(refs.underlying);
      } else {
        WritePlain(refs);
      }
    }

    /** The types that refer to nothing. */
    method WritePlain(refs: Value<Place>)
      requires Stateless(refs) && Children(refs) == [] && !refs.Conjunction?
      modifies `output
      ensures output == old(output) + Body(WithChildren<Place, nat>(refs, []))
    {
      hide Str, Size;
      match refs {
        case Words(_, t) => WriteStr(t);
        case Bool(b) => WriteByte(if b then 1 else 0);
        case Builtin(m, n) =>
          WriteStr(m);
          WriteStr(n);
        case Capture(i) => WriteSize(i);
        case NamedName(_, p) => WriteStr(p);
        case _ =>
      }
    }

    // ------------------------------------------------------------- redirecting

    /** The first pass is over, and its nodes are as they were. */
    ghost predicate Planned(g: Plan)
      reads `bound, `content
    {
      g.Ok() && bound == g.bound && content == Stored(g.h)
    }

    ghost predicate Redirecting(g: Plan, done: set<Ref>)
      reads `bound, `content, `redirections, redirections
    {
      Planned(g) && Redirects(g, done, redirections[..])
    }

    /** A node is written, as an item. */
    method WriteItem(ghost item: Item, x: PickleNode)
      requires Stateless(x.refs) && Resolvable(Children(x.refs)) && item == Item(x.index, Final(x.refs))
      modifies `output
      ensures output == old(output) + Items([item])
    {
      ItemsOne(item);
      hide Items, Bytes, Size, Final, Resolvable;
      WriteNode(x.index, x.refs);
      assert output == old(output) + (Size(item.index) + Bytes(item.value));
    }

    /** The record of a node, redirected, is the node with its final indices. */
    lemma ItemFinal(g: Plan, done: set<Ref>, x: PickleNode)
      requires Redirecting(g, done) && Settled(g, done, x)
      ensures Stateless(x.refs) && Resolvable(Children(x.refs))
      ensures ItemFor(g, x) == Item(x.index, Final(x.refs))
    {
      NodeOf(g, x);
      StillStateless(g.h[x.node], x.index);
      hide Ready, Redirects, Placed, Renamed, Stateless;
      WrittenAs(g, done, redirections[..], x);
    }

    lemma StillStateless(v: Value<Ref>, k: nat)
      requires Stateless(v)
      ensures Stateless(Placed(k, v))
    {
    }

    /** findFeature. */
    method FindFeature(features: map<Value<Ref>, nat>, index: nat, v: Value<Ref>)
      returns (features': map<Value<Ref>, nat>, found: bool)
      requires index < redirections.Length
      modifies redirections
      ensures found == (v in features)
      ensures features' == if found then features else features[v := index]
      ensures redirections[..] == if found then old(redirections[..])[index := features[v]] else old(redirections[..])
    {
      found := v in features;
      if found {
        features' := features;
        redirections[index] := features[v];
      } else {
        features' := features[v := index];
      }
    }

    /** findBuiltin. */
    method FindBuiltin(builtins: map<Text, map<Text, nat>>, index: nat, refs: Value<Place>)
      returns (builtins': map<Text, map<Text, nat>>, found: bool)
      requires index < redirections.Length && refs.Builtin?
      modifies redirections
      ensures found == (refs.moduleName in builtins && refs.name in builtins[refs.moduleName])
      ensures builtins' == if found then builtins else WithBuiltin(builtins, refs.moduleName, refs.name, index)
      ensures redirections[..] ==
        if found then old(redirections[..])[index := builtins[refs.moduleName][refs.name]] else old(redirections[..])
    {
      var names: map<Text, nat> := map[];
      if refs.moduleName in builtins {
        names := builtins[refs.moduleName];
        if refs.name in names {
          redirections[index] := names[refs.name];
          return builtins, true;
        }
      }
      names := names[refs.name := index];
      builtins' := builtins[refs.moduleName := names];
      found := false;
    }

    /** Equality of arities, in the store. */
    method EqualArities(ghost h: Heap, a: Ref, b: Ref) returns (equal: bool)
      requires content == Stored(h) && WellFormedAt(h, a) && WellFormedAt(h, b)
      ensures equal == SameArity(h, a, b)
    {
      var (v, w) := (content[a].v, content[b].v);
      var (cs, ds) := (Children(v), Children(w));
      equal := IsArity(v) && IsArity(w) && |cs| == |ds| && forall i | 0 <= i < |cs| :: content[cs[i]] == content[ds[i]];
      assert forall i | 0 <= i < |cs| :: cs[i] in cs;
      assert forall i | 0 <= i < |ds| :: ds[i] in ds;
    }

    /** findArity: the arities of a label are compared one by one. */
    method FindArity(ghost h: Heap, arities: map<nat, seq<(nat, Ref)>>, key: nat, index: nat, node: Ref)
      returns (arities': map<nat, seq<(nat, Ref)>>, found: bool, ghost hit: (nat, Ref))
      requires content == Stored(h) && WellFormedAt(h, node) && index < redirections.Length
      requires key in arities ==> forall e <- arities[key] :: WellFormedAt(h, e.1)
      modifies redirections
      ensures found ==> key in arities && hit in arities[key] && SameArity(h, hit.1, node)
      ensures !found ==> key in arities ==> forall e <- arities[key] :: !SameArity(h, e.1, node)
      ensures arities' == if found then arities else WithArity(arities, key, index, node)
      ensures redirections[..] == if found then old(redirections[..])[index := hit.0] else old(redirections[..])
    {
      hide SameArity, WellFormedAt;
      var list := if key in arities then arities[key] else [];
      hit := (0, 0);
      var i := 0;
      while i < |list|
        invariant i <= |list| && redirections[..] == old(redirections[..])
        invariant forall j | 0 <= j < i :: !SameArity(h, list[j].1, node)
      {
        var equal := EqualArities(h, list[i].1, node);
        if equal {
          hit := list[i];
          redirections[index] := list[i].0;
          return arities, true, hit;
        }
        i := i + 1;
      }
      arities' := WithArity(arities, key, index, node);
      found := false;
    }

    /** A node that leads, and refers to nothing that is not done, is written. */
    method WriteLeader(ghost g: Plan, ghost done: set<Ref>, x: PickleNode, ghost n: nat)
      requires Redirecting(g, done) && Settled(g, done, x)
      requires Phase(g.h[x.node]) == n && g.Phi()[x.node] == x.index
      modifies `output
      ensures output == old(output) + Out(g, x, n)
    {
      ItemFinal(g, done, x);
      ghost var item := ItemFor(g, x);
      hide Redirecting, Settled, ItemFor, Items, Final, Resolvable, Stateless;
      WriteItem(item, x);
    }

    /** The dictionaries of the first phase on one node: what is found is redirected, and what is not is to be
        written. */
    method FindValue(ghost g: Plan, ghost p: nat, x: PickleNode, features: map<Value<Ref>, nat>,
                     builtins: map<Text, map<Text, nat>>)
      returns (features': map<Value<Ref>, nat>, builtins': map<Text, map<Text, nat>>, early: bool, found: bool)
      requires Planned(g) && ValuesAt(g, p, redirections[..], features, builtins) && NextIs(g, g.nodes, p, x)
      modifies redirections
      ensures Planned(g) && ValuesAt(g, p + 1, redirections[..], features', builtins')
      ensures early == IsEarly(g.h[x.node]) && (early ==> found == (g.Phi()[x.node] != x.index))
    {
      NodeIs(g, g.nodes, p, x);
      KindIs(g, x);
      hide Planned, ValuesAt, NextIs, WithBuiltin, Ready, IsFeature, IsEarly, Placed;
      features', builtins', early, found := features, builtins, true, false;
      var v := content[x.node].v;
      if IsFeature(v) {
        FeatureStep(g, p, x, redirections[..], features, builtins);
        features', found := FindFeature(features, x.index, v);
      } else if v.Builtin? {
        BuiltinStep(g, p, x, redirections[..], features, builtins);
        builtins', found := FindBuiltin(builtins, x.index, x.refs);
      } else {
        ValueStep(g, p, x, redirections[..], features, builtins);
        early := IsEarly(v);
      }
    }

    /** The first phase, on one node: features and builtins are merged with equal ones, and other values written. */
    method OneValue(ghost g: Plan, ghost p: nat, x: PickleNode, features: map<Value<Ref>, nat>,
                    builtins: map<Text, map<Text, nat>>)
      returns (features': map<Value<Ref>, nat>, builtins': map<Text, map<Text, nat>>, early: bool)
      requires Planned(g) && ValuesAt(g, p, redirections[..], features, builtins) && NextIs(g, g.nodes, p, x)
      modifies `output, redirections
      ensures Planned(g) && ValuesAt(g, p + 1, redirections[..], features', builtins')
      ensures early == (Phase(g.h[x.node]) == 0) && output == old(output) + Out(g, x, 0)
    {
      hide *;
      NodeIs(g, g.nodes, p, x);
      KindIs(g, x);
      var found;
      features', builtins', early, found := FindValue(g, p, x, features, builtins);
      if early && !found {
        AfterValue(g, p, x, features', builtins');
        WriteLeader(g, SeenIn(g.h, g.nodes[..p + 1], 0), x, 0);
      } else {
        NoOut(g, x, 0);
      }
    }

    lemma NodeIs(g: Plan, list: seq<PickleNode>, p: nat, x: PickleNode)
      requires Planned(g) && NextIs(g, list, p, x)
      ensures p < |list| && g.Ok() && x.node in g.h && x.node in g.num && x.node in content &&
        content[x.node] == Live(g.h[x.node])
      ensures g.h[x.node].Builtin? ==> x.refs == Builtin(g.h[x.node].moduleName, g.h[x.node].name)
    {
      hide Ready, Leads, WellFormedAt, PickleMerging.Phi;
      NodeOf(g, x);
    }

    lemma KindIs(g: Plan, x: PickleNode)
      requires x.node in g.h
      ensures IsFeature(g.h[x.node]) || g.h[x.node].Builtin? ==> IsEarly(g.h[x.node]) && Mergeable(g.h[x.node])
      ensures IsEarly(g.h[x.node]) <==> Phase(g.h[x.node]) == 0
    {
    }

    lemma NoOut(g: Plan, x: PickleNode, n: nat)
      requires g.Ok() && x.node in g.num && x.node in g.h && (Phase(g.h[x.node]) != n || g.Phi()[x.node] != x.index)
      ensures Out(g, x, n) == []
    {
    }

    lemma AfterValue(g: Plan, p: nat, x: PickleNode, features: map<Value<Ref>, nat>,
                     builtins: map<Text, map<Text, nat>>)
      requires Planned(g) && ValuesAt(g, p + 1, redirections[..], features, builtins) && NextIs(g, g.nodes, p, x)
      requires IsEarly(g.h[x.node])
      ensures Redirecting(g, SeenIn(g.h, g.nodes[..p + 1], 0)) && Settled(g, SeenIn(g.h, g.nodes[..p + 1], 0), x)
    {
      EarlySettled(g, x, SeenIn(g.h, g.nodes[..p + 1], 0));
    }

    lemma ValuesReady(g: Plan)
      requires Planned(g) && Redirects(g, {}, redirections[..]) && nodes == g.nodes
      ensures ValuesAt(g, 0, redirections[..], map[], map[]) && HasWritten(g, g.nodes[..0], 0, [])
      ensures Splits(g, g.nodes, 0, nodes, 0, 0)
    {
      ValuesAtStart(g, redirections[..]);
      WrittenNone(g, 0);
      StartLeft(g, nodes, 0);
    }

    /** writeValues. */
    method WriteValues(ghost g: Plan) returns (ghost out: seq<Byte>)
      requires Planned(g) && Redirects(g, {}, redirections[..]) && nodes == g.nodes
      modifies `nodes, `output, redirections
      ensures Planned(g) && In(g.h, g.nodes) && nodes == Left(g.h, g.nodes, 0)
      ensures AritiesAt(g, nodes, 0, redirections[..], map[])
      ensures HasWritten(g, g.nodes, 0, out) && output == old(output) + out
    {
      hide *;
      var features: map<Value<Ref>, nat>, builtins: map<Text, map<Text, nat>> := map[], map[];
      var iter := 0;
      ghost var p := 0;
      out := [];
      ValuesReady(g);
      while iter < |nodes|
        invariant Planned(g) && ValuesAt(g, p, redirections[..], features, builtins)
        invariant p <= |g.nodes| && HasWritten(g, g.nodes[..p], 0, out) && output == old(output) + out
        invariant iter <= |nodes| && Splits(g, g.nodes, p, nodes, iter, 0)
        decreases |nodes| - iter
      {
        ValuesNext(g, p, iter, out, features, builtins);
        var x := nodes[iter];
        var early;
        features, builtins, early := OneValue(g, p, x, features, builtins);
        out := out + Out(g, x, 0);
        if early {
          nodes := nodes[..iter] + nodes[iter + 1..];
        } else {
          iter := iter + 1;
        }
        p := p + 1;
      }
      ValuesDone(g, p, iter, features, builtins);
    }

    lemma ValuesNext(g: Plan, p: nat, iter: nat, out: seq<Byte>, features: map<Value<Ref>, nat>,
                     builtins: map<Text, map<Text, nat>>)
      requires ValuesAt(g, p, redirections[..], features, builtins) && HasWritten(g, g.nodes[..p], 0, out)
      requires Splits(g, g.nodes, p, nodes, iter, 0) && iter < |nodes|
      ensures p < |g.nodes| && NextIs(g, g.nodes, p, nodes[iter]) && g.Ok() && nodes[iter].node in g.h &&
        nodes[iter].node in g.num
      ensures HasWritten(g, g.nodes[..p + 1], 0, out + Out(g, nodes[iter], 0))
      ensures Splits(g, g.nodes, p + 1,
                     if Phase(g.h[nodes[iter].node]) == 0 then nodes[..iter] + nodes[iter + 1..] else nodes,
                     if Phase(g.h[nodes[iter].node]) == 0 then iter else iter + 1, 0)
    {
      hide HasWritten, Splits, Out, KnownFeatures, KnownBuiltins, Leads, Ready, Redirects;
      NextOf(g, g.nodes, p, nodes, iter, 0);
      WrittenMore(g, g.nodes, p, nodes[iter], 0, out);
    }

    lemma ValuesDone(g: Plan, p: nat, iter: nat, features: map<Value<Ref>, nat>, builtins: map<Text, map<Text, nat>>)
      requires ValuesAt(g, p, redirections[..], features, builtins)
      requires Splits(g, g.nodes, p, nodes, iter, 0) && iter == |nodes|
      ensures In(g.h, g.nodes) && nodes == Left(g.h, g.nodes, 0) && p == |g.nodes| && g.nodes[..p] == g.nodes
      ensures AritiesAt(g, nodes, 0, redirections[..], map[])
    {
      SplitsDone(g, g.nodes, p, nodes, iter, 0);
      AritiesAtStart(g, redirections[..], features, builtins);
    }

    /** An arity is redirected to an equal one with the same label, or written. */
    method OneArity(ghost g: Plan, ghost list: seq<PickleNode>, ghost p: nat, x: PickleNode,
                    arities: map<nat, seq<(nat, Ref)>>)
      returns (arities': map<nat, seq<(nat, Ref)>>)
      requires Planned(g) && AritiesAt(g, list, p, redirections[..], arities) && NextIs(g, list, p, x) &&
        IsArity(g.h[x.node])
      modifies `output, redirections
      ensures Planned(g) && AritiesAt(g, list, p + 1, redirections[..], arities') &&
        output == old(output) + Out(g, x, 1)
    {
      hide *;
      NodeIs(g, list, p, x);
      ArityReady(g, list, p, x, arities);
      var key := redirections[bound[x.refs.last]];
      ghost var before := redirections[..];
      var found;
      ghost var hit;
      arities', found, hit := FindArity(g.h, arities, key, x.index, x.node);
      if found {
        ArityStep(g, list, p, x, before, arities, key, hit);
        NoOut(g, x, 1);
      } else {
        NewArityStep(g, list, p, x, before, arities, key);
        AfterArity(g, list, p, x, arities');
        WriteLeader(g, SeenIn(g.h, g.nodes, 0) + SeenIn(g.h, list[..p + 1], 1), x, 1);
      }
    }

    lemma ArityReady(g: Plan, list: seq<PickleNode>, p: nat, x: PickleNode, arities: map<nat, seq<(nat, Ref)>>)
      requires Planned(g) && AritiesAt(g, list, p, redirections[..], arities) && NextIs(g, list, p, x) &&
        IsArity(g.h[x.node])
      ensures content == Stored(g.h) && WellFormedAt(g.h, x.node) && x.index < redirections.Length && g.Ok()
      ensures x.refs.Compound? && x.refs.last in bound && bound[x.refs.last] < redirections.Length
      ensures Label(g.h, x.node) in g.num && Label(g.h, x.node) in g.Phi()
      ensures redirections[bound[x.refs.last]] == g.Phi()[Label(g.h, x.node)]
      ensures var key := redirections[bound[x.refs.last]]; key in arities ==>
        forall e <- arities[key] :: WellFormedAt(g.h, e.1)
      ensures Phase(g.h[x.node]) == 1
    {
      AritySettled(g, list, p, x, redirections[..], arities);
      ArityPhase(g, x);
      PlanIs(g);
      RedirectOne(g, SeenIn(g.h, g.nodes, 0), list, p, 1, x, redirections[..]);
      var key := redirections[bound[x.refs.last]];
      if key in arities {
        KnownAre(g, list, p, redirections[..], arities, key);
      }
    }

    lemma AfterArity(g: Plan, list: seq<PickleNode>, p: nat, x: PickleNode, arities: map<nat, seq<(nat, Ref)>>)
      requires Planned(g) && AritiesAt(g, list, p + 1, redirections[..], arities) && NextIs(g, list, p, x) &&
        IsArity(g.h[x.node])
      ensures var done := SeenIn(g.h, g.nodes, 0) + SeenIn(g.h, list[..p + 1], 1);
        Redirecting(g, done) && Settled(g, done, x)
    {
      AlsoSettled(g, list, x, SeenIn(g.h, g.nodes, 0) + SeenIn(g.h, list[..p + 1], 1));
    }

    lemma AlsoSettled(g: Plan, list: seq<PickleNode>, x: PickleNode, done: set<Ref>)
      requires g.Ok() && x in g.nodes && x.node in g.h && x.node in g.num && IsArity(g.h[x.node])
      requires SeenIn(g.h, g.nodes, 0) <= done
      ensures Settled(g, done, x)
    {
      ReadyIs(g.h, g.root, g.num, g.nodes, g.bound);
      forall c <- Children(g.h[x.node]) ensures c in g.num && c in done {
        FeatureDone(g, c);
      }
    }

    /** writeArities. */
    method WriteArities(ghost g: Plan) returns (ghost out: seq<Byte>, ghost arities: map<nat, seq<(nat, Ref)>>)
      requires Planned(g) && In(g.h, g.nodes) && nodes == Left(g.h, g.nodes, 0) &&
        AritiesAt(g, nodes, 0, redirections[..], map[])
      modifies `nodes, `output, redirections
      ensures Planned(g) && LastAt(g, nodes, redirections[..], arities)
      ensures HasWritten(g, Left(g.h, g.nodes, 0), 1, out) && output == old(output) + out
    {
      hide *;
      ghost var list := nodes;
      var known: map<nat, seq<(nat, Ref)>> := map[];
      var iter := 0;
      ghost var p := 0;
      out := [];
      AritiesReady(g, list);
      while iter < |nodes|
        invariant Planned(g) && AritiesAt(g, list, p, redirections[..], known)
        invariant p <= |list| && HasWritten(g, list[..p], 1, out) && output == old(output) + out
        invariant iter <= |nodes| && Splits(g, list, p, nodes, iter, 1) && In(g.h, g.nodes) &&
          list == Left(g.h, g.nodes, 0)
        decreases |nodes| - iter
      {
        AritiesNext(g, list, p, iter, out, known);
        var x := nodes[iter];
        NodeIs(g, list, p, x);
        if IsArity(content[x.node].v) {
          known := OneArity(g, list, p, x, known);
          nodes := nodes[..iter] + nodes[iter + 1..];
        } else {
          OtherStep(g, list, p, x, redirections[..], known);
          NoOut(g, x, 1);
          iter := iter + 1;
        }
        out := out + Out(g, x, 1);
        p := p + 1;
      }
      arities := known;
      AritiesDone(g, list, p, iter, known);
    }

    lemma AritiesReady(g: Plan, list: seq<PickleNode>)
      requires Planned(g) && nodes == list && AritiesAt(g, list, 0, redirections[..], map[])
      ensures HasWritten(g, list[..0], 1, []) && Splits(g, list, 0, nodes, 0, 1)
    {
      WrittenNone(g, 1);
      StartLeft(g, nodes, 1);
    }

    lemma AritiesNext(g: Plan, list: seq<PickleNode>, p: nat, iter: nat, out: seq<Byte>,
                      arities: map<nat, seq<(nat, Ref)>>)
      requires AritiesAt(g, list, p, redirections[..], arities) && HasWritten(g, list[..p], 1, out)
      requires Splits(g, list, p, nodes, iter, 1) && iter < |nodes| && In(g.h, g.nodes) && list == Left(g.h, g.nodes, 0)
      ensures p < |list| && NextIs(g, list, p, nodes[iter]) && g.Ok() && nodes[iter].node in g.h &&
        nodes[iter].node in g.num
      ensures HasWritten(g, list[..p + 1], 1, out + Out(g, nodes[iter], 1))
      ensures IsArity(g.h[nodes[iter].node]) ==> Splits(g, list, p + 1, nodes[..iter] + nodes[iter + 1..], iter, 1)
      ensures !IsArity(g.h[nodes[iter].node]) ==>
        Splits(g, list, p + 1, nodes, iter + 1, 1) && Phase(g.h[nodes[iter].node]) != 1
    {
      hide HasWritten, Splits, Out, Leads, Ready, Redirects, KnownArities, IsArity, IsEarly;
      NextOf(g, list, p, nodes, iter, 1);
      assert nodes[iter] in list;
      WrittenMore(g, list, p, nodes[iter], 1, out);
    }

    lemma AritiesDone(g: Plan, list: seq<PickleNode>, p: nat, iter: nat, arities: map<nat, seq<(nat, Ref)>>)
      requires Splits(g, list, p, nodes, iter, 1) && iter == |nodes| && AritiesAt(g, list, p, redirections[..], arities)
      requires In(g.h, g.nodes) && list == Left(g.h, g.nodes, 0)
      ensures p == |list| && list[..p] == list && LastAt(g, nodes, redirections[..], arities)
    {
      SplitsDone(g, list, p, nodes, iter, 1);
    }

    /** writeOthers. */
    method WriteOthers(ghost g: Plan, ghost arities: map<nat, seq<(nat, Ref)>>) returns (ghost out: seq<Byte>)
      requires Planned(g) && AllStateless(g) && LastAt(g, nodes, redirections[..], arities)
      modifies `nodes, `output
      ensures nodes == [] && HasWritten(g, old(nodes), 2, out) && output == old(output) + out
    {
      hide *;
      ghost var was, p := nodes, 0;
      ghost var done := OthersReady(g, was, arities);
      out := [];
      while nodes != []
        invariant p <= |was| && nodes == was[p..] && Redirecting(g, done) && Others(g, done, was)
        invariant HasWritten(g, was[..p], 2, out) && output == old(output) + out
        decreases |nodes|
      {
        var x := nodes[0];
        OthersNext(g, done, was, p, out);
        WriteLeader(g, done, x, 2);
        out := out + Out(g, x, 2);
        nodes := nodes[1..];
        p := p + 1;
      }
      assert was[..p] == was;
    }

    /** Nodes of the last phase, which all lead. */
    ghost predicate Others(g: Plan, done: set<Ref>, list: seq<PickleNode>) {
      forall x <- list :: Settled(g, done, x) && Phase(g.h[x.node]) == 2 && g.Phi()[x.node] == x.index
    }

    lemma OthersReady(g: Plan, was: seq<PickleNode>, arities: map<nat, seq<(nat, Ref)>>) returns (done: set<Ref>)
      requires Planned(g) && AllStateless(g) && LastAt(g, was, redirections[..], arities)
      ensures Redirecting(g, done) && Others(g, done, was) && HasWritten(g, was[..0], 2, [])
    {
      var list := Left(g.h, g.nodes, 0);
      done := SeenIn(g.h, g.nodes, 0) + SeenIn(g.h, list, 1);
      assert list[..|list|] == list;
      WrittenNone(g, 2);
      forall x <- was ensures x in g.nodes && x.node in g.h && Phase(g.h[x.node]) == 2 && x.node in g.num {
        assert x in list;
        NodeOf(g, x);
      }
      hide Ready, Settled, Redirects, KnownArities, Leads;
      forall x <- was {
        LastSettled(g, list, redirections[..], arities, x);
      }
    }

    lemma OthersNext(g: Plan, done: set<Ref>, was: seq<PickleNode>, p: nat, out: seq<Byte>)
      requires Others(g, done, was) && p < |was| && HasWritten(g, was[..p], 2, out)
      ensures var x := was[p];
        && g.Ok() && x.node in g.h && x.node in g.num && x.node in g.Phi()
        && Settled(g, done, x) && Phase(g.h[x.node]) == 2 && g.Phi()[x.node] == x.index
      ensures HasWritten(g, was[..p + 1], 2, out + Out(g, was[p], 2))
      ensures was[p..][1..] == was[p + 1..] && was[p..][0] == was[p]
    {
      hide *;
      OtherIs(g, done, was, p);
      WrittenOne(g, was[..p], was[p], 2, out);
      assert was[..p] + [was[p]] == was[..p + 1];
    }

    lemma OtherIs(g: Plan, done: set<Ref>, was: seq<PickleNode>, p: nat)
      requires Others(g, done, was) && p < |was|
      ensures var x := was[p];
        && g.Ok() && x in g.nodes && x.node in g.h && x.node in g.num && x.node in g.Phi()
        && Settled(g, done, x) && Phase(g.h[x.node]) == 2 && g.Phi()[x.node] == x.index
    {
      assert was[p] in was;
      PlanIs(g);
    }

    /** The redirections, each index standing for itself; then the three phases. */
    method WriteNodes(ghost g: Plan) returns (ghost items: seq<Item>)
      requires Planned(g) && AllStateless(g) && nodes == g.nodes
      modifies `nodes, `output, `redirections
      ensures nodes == [] && output == old(output) + Items(items)
      ensures Covered(g.h, g.Phi()) && Within(g.nodes, g.Phi()) && items == AllItems(g.h, g.Phi(), g.nodes)
    {
      hide *;
      var r := new nat[|nodes| + 1];
      var i := 0;
      while i < r.Length
        invariant i <= r.Length && forall k | 0 <= k < i :: r[k] == k
        modifies r
      {
        r[i] := i;
        i := i + 1;
      }
      redirections := r;
      StartRedirecting(g);
      ghost var first := WriteValues(g);
      ghost var second, arities := WriteArities(g);
      ghost var left := nodes;
      LastIs(g, left, arities);
      ghost var third := WriteOthers(g, arities);
      items := Assembled(g, left, first, second, third);
    }

    lemma StartRedirecting(g: Plan)
      requires Planned(g) && redirections.Length == |g.nodes| + 1
      requires forall k | 0 <= k < redirections.Length :: redirections[k] == k
      ensures g.Ok() && Redirects(g, {}, redirections[..])
    {
      NothingRedirected(g, redirections[..]);
    }

    lemma LastIs(g: Plan, left: seq<PickleNode>, arities: map<nat, seq<(nat, Ref)>>)
      requires LastAt(g, left, redirections[..], arities)
      ensures In(g.h, g.nodes) && left == Left(g.h, Left(g.h, g.nodes, 0), 1)
    {
    }

    /** The three phases together have written all items. */
    lemma Assembled(g: Plan, left: seq<PickleNode>, first: seq<Byte>, second: seq<Byte>, third: seq<Byte>)
      returns (items: seq<Item>)
      requires g.Ok() && In(g.h, g.nodes) && left == Left(g.h, Left(g.h, g.nodes, 0), 1)
      requires HasWritten(g, g.nodes, 0, first) && HasWritten(g, Left(g.h, g.nodes, 0), 1, second) &&
        HasWritten(g, left, 2, third)
      ensures Covered(g.h, g.Phi()) && Within(g.nodes, g.Phi()) && items == AllItems(g.h, g.Phi(), g.nodes)
      ensures forall o: seq<Byte> :: o + first + second + third == o + Items(items)
    {
      hide Ready, PickleMerging.Phi, Covered, Within, Kept, Left, Items;
      var (h, phi) := (g.h, g.Phi());
      KeptLeft(h, phi, g.nodes, 0, 1);
      KeptLeft(h, phi, g.nodes, 0, 2);
      KeptLeft(h, phi, Left(h, g.nodes, 0), 1, 2);
      items := AllItems(h, phi, g.nodes);
      ItemsJoin(Kept(h, phi, g.nodes, 0), Kept(h, phi, g.nodes, 1));
      ItemsJoin(Kept(h, phi, g.nodes, 0) + Kept(h, phi, g.nodes, 1), Kept(h, phi, g.nodes, 2));
      assert Items(items) == first + second + third;
      forall o: seq<Byte> ensures o + first + second + third == o + Items(items) { }
    }

    /** The futures among the nodes are marked as needed, and the first one is waited for. */
    method NeedFutures(ghost h: Heap) returns (future: Ref)
      requires content == Stored(h) && In(h, nodes) && exists n <- nodes :: h[n.node].Future?
      modifies `needed
      ensures needed == old(needed) + FuturesIn(h, nodes)
      ensures future in FuturesIn(h, nodes)
    {
      var i := 0;
      while i < |nodes|
        invariant i <= |nodes| && In(h, nodes[..i]) && needed == old(needed) + FuturesIn(h, nodes[..i])
      {
        assert nodes[i] in nodes;
        FuturesMore(h, nodes[..i], nodes[i]);
        assert nodes[..i + 1] == nodes[..i] + [nodes[i]];
        if content[nodes[i].node].v.Future? {
          needed := needed + {nodes[i].node};
        }
        i := i + 1;
      }
      assert nodes[..i] == nodes;
      i := 0;
      while !content[nodes[i].node].v.Future?
        invariant i < |nodes| && forall j | 0 <= j < i :: nodes[j].node in h && !h[nodes[j].node].Future?
        decreases |nodes| - i
      {
        i := i + 1;
      }
      assert nodes[i] in nodes;
      future := nodes[i].node;
    }

    /** The header, the nodes, and the end of the stream. */
    method WriteStream(ghost g: Plan, count: nat) returns (ghost items: seq<Item>)
      requires Planned(g) && AllStateless(g) && nodes == g.nodes && g.Counted()
      modifies `nodes, `output, `redirections
      ensures nodes == [] && g.root in g.Phi() && WellFormed(g.h)
      ensures output == old(output) + Stream(count, g.Phi()[g.root], items)
      ensures Faithful(g.h, g.root, g.Phi(), items) && AritiesLater(items)
    {
      hide *;
      CountedWrites(g);
      HeaderIs(g);
      ghost var o := output;
      WriteSize(count);
      WriteSize(bound[Top]);
      items := WriteNodes(g);
      WriteSize(0);
      StreamIs(o, count, g.Phi()[g.root], items);
    }

    lemma StreamIs(o: seq<Byte>, count: nat, top: nat, items: seq<Item>)
      ensures o + Size(count) + Size(top) + Items(items) + Size(0) == o + Stream(count, top, items)
    {
    }

    lemma HeaderIs(g: Plan)
      requires Planned(g) && g.Counted()
      ensures g.Ok() && Top in bound && g.root in g.num && bound[Top] == g.num[g.root]
    {
      hide Numbering, Ready, WellFormed;
      CountedIs(g);
    }

    /** pickle: the numbering, the checks, and the stream. */
    method Pickle(ghost h: Heap, value: Ref)
      returns (outcome: Outcome, ghost phi: map<Ref, nat>, ghost items: seq<Item>)
      requires WellFormed(h) && value in h && content == Stored(h)
      modifies `content, `todoFrom, `todoTo, `bound, `nodes, `backups, `redirections, `needed, `output
      ensures content == Stored(h) && Reaches(h, value, phi.Keys) && Decides(h, phi.Keys, outcome)
      ensures needed == old(needed) + if outcome.Suspended? then Futures(h, phi.Keys) else {}
      ensures outcome.Written? ==> value in phi && Faithful(h, value, phi, items) && AritiesLater(items)
      ensures outcome.Written? ==> output == old(output) + Stream(|phi|, phi[value], items)
      ensures forall r <- phi :: 1 <= phi[r] <= |phi|
      ensures !outcome.Written? ==> output == old(output)
    {
      hide *;
      ghost var num;
      var count, futures, resources;
      count, futures, resources, num := Number(h, value);
      Restore(h);
      ghost var g := Plan(h, value, num, nodes, bound);
      PlanReady(g, futures, resources);
      phi := g.Phi();
      items := [];
      if futures {
        var future := NeedFutures(h);
        nodes := [];
        return Suspended(future), phi, items;
      }
      if resources != [] {
        nodes := [];
        return Refused(resources), phi, items;
      }
      items := WriteStream(g, count);
      outcome := Written;
    }

    lemma PlanReady(g: Plan, futures: bool, resources: seq<Ref>)
      requires WellFormed(g.h) && Numbering(g.h, g.root, g.num, g.nodes, g.bound) &&
        Checked(g.h, g.nodes, futures, resources)
      requires bound == g.bound && content == Stored(g.h)
      ensures Planned(g) && g.Ok() && g.Counted() && Reaches(g.h, g.root, g.Phi().Keys) && In(g.h, g.nodes)
      ensures |g.Phi()| == |g.nodes| && forall r <- g.Phi() :: 1 <= g.Phi()[r] <= |g.Phi()|
      ensures futures <==> exists n <- g.nodes :: g.h[n.node].Future?
      ensures FuturesIn(g.h, g.nodes) == Futures(g.h, g.Phi().Keys)
      ensures futures ==> forall f <- FuturesIn(g.h, g.nodes) :: Decides(g.h, g.Phi().Keys, Suspended(f))
      ensures !futures && resources != [] ==> Decides(g.h, g.Phi().Keys, Refused(resources))
      ensures !futures && resources == [] ==> Decides(g.h, g.Phi().Keys, Written) && AllStateless(g)
    {
      hide Ready, PickleMerging.Phi, WellFormed, Reaches, Checked, Numbering, AllStateless, FuturesIn, Decides, Futures;
      CountedIs(g);
      CountedDense(g);
      CheckedIs(g, futures, resources);
      Verdict(g, futures, resources);
      if futures {
        forall f <- FuturesIn(g.h, g.nodes) {
          SuspendedIs(g.h, g.num.Keys, f);
        }
      }
    }

    lemma SuspendedIs(h: Heap, reached: set<Ref>, f: Ref)
      requires f in Futures(h, reached)
      ensures Decides(h, reached, Suspended(f))
    {
    }

    lemma Verdict(g: Plan, futures: bool, resources: seq<Ref>)
      requires g.num.Keys <= g.h.Keys && (futures <==> Futures(g.h, g.num.Keys) != {})
      requires !futures ==> forall r :: r in resources <==> r in g.num && g.h[r].Resource?
      ensures !futures && resources != [] ==> Decides(g.h, g.num.Keys, Refused(resources))
      ensures !futures && resources == [] ==> Decides(g.h, g.num.Keys, Written) && AllStateless(g)
    {
      if !futures {
        assert forall r <- g.num :: r !in Futures(g.h, g.num.Keys);
        if resources != [] {
          assert resources[0] in resources;
        }
      }
    }

    lemma CheckedIs(g: Plan, futures: bool, resources: seq<Ref>)
      requires g.Ok() && Checked(g.h, g.nodes, futures, resources) && g.num.Keys <= g.h.Keys
      ensures In(g.h, g.nodes) && (futures <==> exists n <- g.nodes :: g.h[n.node].Future?)
      ensures futures <==> Futures(g.h, g.num.Keys) != {}
      ensures !futures ==> forall r :: r in resources <==> r in g.num && g.h[r].Resource?
      ensures FuturesIn(g.h, g.nodes) == Futures(g.h, g.num.Keys)
    {
      hide Ready, PickleMerging.Phi, WellFormed;
      ResourcesAre(g.h, g.nodes);
      forall r <- g.num ensures exists n <- g.nodes :: n.node == r {
        InList(g, r);
      }
      forall n <- g.nodes ensures n.node in g.num {
        IndexOf(g, n);
      }
      if futures {
        var n :| n in g.nodes && g.h[n.node].Future?;
        assert n.node in FuturesIn(g.h, g.nodes);
      } else {
        assert FuturesIn(g.h, g.nodes) == {};
      }
      forall f <- Futures(g.h, g.num.Keys) ensures f in FuturesIn(g.h, g.nodes) {
        var n :| n in g.nodes && n.node == f;
      }
      assert FuturesIn(g.h, g.nodes) == Futures(g.h, g.num.Keys);
    }
  }
}
