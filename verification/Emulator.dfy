/** The emulator's thread stack: frames and exception handlers on one stack, and what they stand for. */
module Emulator {
  import opened Wrappers

  /** An abstraction, by its stable node; a register array of an abstraction, by its address. */
  type Abstraction = nat
  type Registers = nat

  datatype Debug = NoDebug | At(position: nat)

  /** What getCallInfo tells of an abstraction. */
  datatype CallInfo = CallInfo(arity: nat, start: int, gs: Registers, ks: Registers)

  /** StackEntry; an exception handler has no abstraction. */
  datatype Entry = Entry(abstraction: Option<Abstraction>, pc: int, yregs: array?<int>,
                         gregs: Registers, kregs: Registers, debug: Debug)

  /** A handler; its register fields are never read. */
  datatype Handler = Handler(pc: int, debug: Debug, gregs: Registers, kregs: Registers)

  /** One activation of an abstraction with the handlers it has set up, innermost first. */
  datatype Activation = Activation(abstraction: Abstraction, pc: int, yregs: array?<int>, debug: Debug,
                                   handlers: seq<Handler>)

  function HandlerEntry(h: Handler): Entry {
    Entry(None, h.pc, null, h.gregs, h.kregs, h.debug)
  }

  function HandlerEntries(hs: seq<Handler>): (es: seq<Entry>)
    ensures |es| == |hs| && forall i | 0 <= i < |hs| :: es[i] == HandlerEntry(hs[i])
  {
    seq(|hs|, i requires 0 <= i < |hs| => HandlerEntry(hs[i]))
  }

  ghost predicate Known(code: map<Abstraction, CallInfo>, acts: seq<Activation>) {
    forall i | 0 <= i < |acts| :: acts[i].abstraction in code
  }

  function FrameOf(code: map<Abstraction, CallInfo>, a: Activation): Entry
    requires a.abstraction in code
  {
    Entry(Some(a.abstraction), a.pc, a.yregs, code[a.abstraction].gs, code[a.abstraction].ks, a.debug)
  }

  /** The stack of a thread that is not running: each frame, and behind it the handlers of its activation. */
  function Frames(code: map<Abstraction, CallInfo>, acts: seq<Activation>): seq<Entry>
    requires Known(code, acts)
  {
    if acts == [] then []
    else [FrameOf(code, acts[0])] + HandlerEntries(acts[0].handlers) + Frames(code, acts[1..])
  }

  /** The Y registers of activations. */
  ghost function Ys(acts: seq<Activation>): set<array<int>> {
    set a <- acts | a.yregs != null :: a.yregs
  }

  ghost predicate OwnYs(acts: seq<Activation>) {
    forall i, j | 0 <= i < j < |acts| && acts[i].yregs != null :: acts[i].yregs != acts[j].yregs
  }

  /** A raise, on activations: the innermost handler of the nearest activation that has one is resumed. */
  function Unwound(acts: seq<Activation>, d: Debug): seq<Activation> {
    if acts == [] then []
    else if acts[0].handlers == [] then Unwound(acts[1..], d)
    else [acts[0].(pc := acts[0].handlers[0].pc, debug := d, handlers := acts[0].handlers[1..])] + acts[1..]
  }

  /** The activations a raise drops. */
  function Dropped(acts: seq<Activation>): (n: nat)
    ensures n <= |acts| && (forall i | 0 <= i < n :: acts[i].handlers == []) && (n < |acts| ==> acts[n].handlers != [])
  {
    if acts == [] || acts[0].handlers != [] then 0 else 1 + Dropped(acts[1..])
  }

  lemma {:induction false} UnwoundIs(acts: seq<Activation>, d: Debug, n: nat)
    requires n <= |acts| && (forall i | 0 <= i < n :: acts[i].handlers == []) && (n < |acts| ==> acts[n].handlers != [])
    ensures Dropped(acts) == n
    ensures Unwound(acts, d) == if n == |acts| then []
      else [acts[n].(pc := acts[n].handlers[0].pc, debug := d, handlers := acts[n].handlers[1..])] + acts[n + 1..]
    decreases |acts|
  {
    if n > 0 {
      UnwoundIs(acts[1..], d, n - 1);
      if n < |acts| {
        assert acts[1..][n..] == acts[n + 1..];
      }
    }
  }

  // --------------------------------------------------- relocation, around a replication

  /** The abstraction an entry's code belongs to: its own, or for a handler the one of the frame above it. */
  function OwnerOf(e: Entry, above: Option<Abstraction>): Option<Abstraction> {
    if e.abstraction.Some? then e.abstraction else above
  }

  predicate Based(code: map<Abstraction, CallInfo>, es: seq<Entry>, above: Option<Abstraction>) {
    es == [] ||
    (var o := OwnerOf(es[0], above); o.Some? && o.value in code && Based(code, es[1..], o))
  }

  /** StackEntry::beforeGR, down the stack: program counters become offsets. */
  function Offsets(code: map<Abstraction, CallInfo>, es: seq<Entry>, above: Option<Abstraction>): seq<Entry>
    requires Based(code, es, above)
  {
    if es == [] then []
    else
      var o := OwnerOf(es[0], above);
      [es[0].(pc := es[0].pc - code[o.value].start)] + Offsets(code, es[1..], o)
  }

  /** StackEntry::afterGR, down the stack: offsets become program counters, and the registers are read again. */
  function Rebased(code: map<Abstraction, CallInfo>, es: seq<Entry>, above: Option<Abstraction>): seq<Entry>
    requires Based(code, es, above)
  {
    if es == [] then []
    else
      var o := OwnerOf(es[0], above);
      var info := code[o.value];
      [es[0].(pc := info.start + es[0].pc, gregs := info.gs, kregs := info.ks)] + Rebased(code, es[1..], o)
  }

  lemma OffsetsFirst(code: map<Abstraction, CallInfo>, es: seq<Entry>, above: Option<Abstraction>)
    requires Based(code, es, above) && es != []
    ensures var o := OwnerOf(es[0], above);
      && o.Some? && o.value in code && Based(code, es[1..], o)
      && Offsets(code, es, above) == [es[0].(pc := es[0].pc - code[o.value].start)] + Offsets(code, es[1..], o)
  {
  }

  lemma RebasedFirst(code: map<Abstraction, CallInfo>, es: seq<Entry>, above: Option<Abstraction>)
    requires Based(code, es, above) && es != []
    ensures var o := OwnerOf(es[0], above);
      && o.Some? && o.value in code && Based(code, es[1..], o)
      && var info := code[o.value];
        Rebased(code, es, above) ==
          [es[0].(pc := info.start + es[0].pc, gregs := info.gs, kregs := info.ks)] + Rebased(code, es[1..], o)
  {
  }

  /** One entry of a list in place rewritten, the ones before it being done. */
  lemma OneRewritten<T>(done: seq<T>, was: seq<T>, i: nat, x: T, tail: seq<T>)
    requires i < |was| && |done| == i
    ensures (done + was[i..])[i := x] == (done + [x]) + was[i + 1..]
    ensures done + ([x] + tail) == (done + [x]) + tail
    ensures was[i..][0] == was[i] && was[i..][1..] == was[i + 1..] && (done + was[i..])[i] == was[i]
  {
  }

  lemma OffsetsNone(code: map<Abstraction, CallInfo>, es: seq<Entry>, above: Option<Abstraction>)
    requires es == []
    ensures Based(code, es, above) && Offsets(code, es, above) == []
  {
  }

  lemma RebasedNone(code: map<Abstraction, CallInfo>, es: seq<Entry>, above: Option<Abstraction>)
    requires es == []
    ensures Based(code, es, above) && Rebased(code, es, above) == []
  {
  }

  /** The entries the replicator makes: the abstractions are its copies, and the registers say nothing. */
  function Replicated(rho: map<Abstraction, Abstraction>, es: seq<Entry>): (r: seq<Entry>)
    requires forall i | 0 <= i < |es| && es[i].abstraction.Some? :: es[i].abstraction.value in rho
  {
    seq(|es|, i requires 0 <= i < |es| =>
      var e := es[i];
      e.(abstraction := if e.abstraction.Some? then Some(rho[e.abstraction.value]) else None, gregs := 0, kregs := 0))
  }

  function Copy(rho: map<Abstraction, Abstraction>, a: Option<Abstraction>): Option<Abstraction>
    requires a.Some? ==> a.value in rho
  {
    if a.Some? then Some(rho[a.value]) else None
  }

  /** A move of all code: the old code, the copies of the abstractions, and the new code. */
  datatype Move = Move(code: map<Abstraction, CallInfo>, rho: map<Abstraction, Abstraction>,
                       code': map<Abstraction, CallInfo>)
  {
    predicate Moves(a: Abstraction) {
      a in code && a in rho && rho[a] in code'
    }

    /** An entry at the same offset of its owner's code. */
    function Entry(e: Entry, owner: Abstraction): Entry
      requires Moves(owner) && (e.abstraction.Some? ==> Moves(e.abstraction.value))
    {
      var info' := code'[rho[owner]];
      e.(abstraction := Copy(rho, e.abstraction), pc := info'.start + (e.pc - code[owner].start), gregs := info'.gs,
         kregs := info'.ks)
    }
  }

  predicate Ready(m: Move, es: seq<Entry>, above: Option<Abstraction>) {
    es == [] || (var o := OwnerOf(es[0], above); o.Some? && m.Moves(o.value) && Ready(m, es[1..], o))
  }

  /** The three stages at once. */
  function Relocated(m: Move, es: seq<Entry>, above: Option<Abstraction>): seq<Entry>
    requires Ready(m, es, above)
  {
    if es == [] then []
    else
      var o := OwnerOf(es[0], above);
      [m.Entry(es[0], o.value)] + Relocated(m, es[1..], o)
  }

  lemma RelocatedFirst(m: Move, e: Entry, rest: seq<Entry>, above: Option<Abstraction>)
    requires var o := OwnerOf(e, above); o.Some? && m.Moves(o.value) && Ready(m, rest, o)
    ensures Ready(m, [e] + rest, above)
    ensures var o := OwnerOf(e, above);
      Relocated(m, [e] + rest, above) == [m.Entry(e, o.value)] + Relocated(m, rest, o)
  {
    assert ([e] + rest)[1..] == rest;
  }

  lemma {:induction false} OffsetsKeep(m: Move, es: seq<Entry>, above: Option<Abstraction>)
    requires Ready(m, es, above)
    ensures Based(m.code, es, above) && |Offsets(m.code, es, above)| == |es|
    ensures forall i | 0 <= i < |es| ::
      Offsets(m.code, es, above)[i].abstraction == es[i].abstraction &&
        (es[i].abstraction.Some? ==> m.Moves(es[i].abstraction.value))
    decreases |es|
  {
    if es != [] {
      OffsetsKeep(m, es[1..], OwnerOf(es[0], above));
    }
  }

  lemma {:induction false} ThreeStages(m: Move, es: seq<Entry>, above: Option<Abstraction>)
    requires Ready(m, es, above) && (above.Some? ==> m.Moves(above.value))
    ensures Based(m.code, es, above)
    ensures forall i | 0 <= i < |Offsets(m.code, es, above)| && Offsets(m.code, es, above)[i].abstraction.Some? ::
      Offsets(m.code, es, above)[i].abstraction.value in m.rho
    ensures var r := Replicated(m.rho, Offsets(m.code, es, above));
      Based(m.code', r, Copy(m.rho, above)) && Rebased(m.code', r, Copy(m.rho, above)) == Relocated(m, es, above)
    decreases |es|
  {
    OffsetsKeep(m, es, above);
    if es != [] {
      var o := OwnerOf(es[0], above);
      ThreeStages(m, es[1..], o);
      var r := Replicated(m.rho, Offsets(m.code, es, above));
      assert Offsets(m.code, es, above)[1..] == Offsets(m.code, es[1..], o);
      assert r[1..] == Replicated(m.rho, Offsets(m.code, es[1..], o));
      assert OwnerOf(r[0], Copy(m.rho, above)) == Copy(m.rho, o);
    }
  }

  function MovedHandler(m: Move, a: Abstraction, h: Handler): Handler
    requires m.Moves(a)
  {
    var info' := m.code'[m.rho[a]];
    Handler(info'.start + (h.pc - m.code[a].start), h.debug, info'.gs, info'.ks)
  }

  function MovedHandlers(m: Move, a: Abstraction, hs: seq<Handler>): (r: seq<Handler>)
    requires m.Moves(a)
    ensures |r| == |hs| && forall i | 0 <= i < |hs| :: r[i] == MovedHandler(m, a, hs[i])
  {
    if hs == [] then [] else [MovedHandler(m, a, hs[0])] + MovedHandlers(m, a, hs[1..])
  }

  /** An activation whose code starts elsewhere, at the same offsets. */
  function Moved(m: Move, a: Activation): Activation
    requires m.Moves(a.abstraction)
  {
    var info' := m.code'[m.rho[a.abstraction]];
    Activation(m.rho[a.abstraction], info'.start + (a.pc - m.code[a.abstraction].start), a.yregs, a.debug,
               MovedHandlers(m, a.abstraction, a.handlers))
  }

  /** Program counters are at the same distance from the start of their code, and nothing else is lost. */
  lemma SameOffsets(m: Move, a: Activation)
    requires m.Moves(a.abstraction)
    ensures var (b, was, now) := (Moved(m, a), m.code[a.abstraction], m.code'[m.rho[a.abstraction]]);
      && b.abstraction == m.rho[a.abstraction] && b.pc - now.start == a.pc - was.start
      && b.yregs == a.yregs && b.debug == a.debug && |b.handlers| == |a.handlers|
      && forall i | 0 <= i < |a.handlers| ::
           && b.handlers[i].pc - now.start == a.handlers[i].pc - was.start
           && b.handlers[i].debug == a.handlers[i].debug
  {
  }

  /** The owner of the code an entry points into: of the nearest frame from it up. */
  ghost predicate Owns(es: seq<Entry>, above: Option<Abstraction>, i: nat, o: Abstraction)
    requires i < |es|
  {
    || ((forall k | 0 <= k <= i :: es[k].abstraction.None?) && above == Some(o))
    || exists j | 0 <= j <= i :: es[j].abstraction == Some(o) && forall k | j < k <= i :: es[k].abstraction.None?
  }

  lemma OwnsNext(es: seq<Entry>, above: Option<Abstraction>, i: nat, o: Abstraction)
    requires 0 < i < |es| && Owns(es[1..], OwnerOf(es[0], above), i - 1, o)
    ensures Owns(es, above, i, o)
  {
    if forall k | 0 <= k <= i - 1 :: es[1..][k].abstraction.None? {
      forall k | 1 <= k <= i ensures es[k].abstraction.None? { assert es[k] == es[1..][k - 1]; }
    } else {
      var j :| 0 <= j <= i - 1 && es[1..][j].abstraction == Some(o) &&
        forall k | j < k <= i - 1 :: es[1..][k].abstraction.None?;
      assert es[j + 1] == es[1..][j];
      forall k | j + 1 < k <= i ensures es[k].abstraction.None? { assert es[k] == es[1..][k - 1]; }
    }
  }

  /** Entry by entry: the offset of a program counter in its owner's code. */
  lemma {:induction false} OffsetOf(code: map<Abstraction, CallInfo>, es: seq<Entry>, above: Option<Abstraction>,
                                    i: nat) returns (o: Abstraction)
    requires Based(code, es, above) && i < |es|
    ensures o in code && Owns(es, above, i, o) && |Offsets(code, es, above)| == |es|
    ensures Offsets(code, es, above)[i] == es[i].(pc := es[i].pc - code[o].start)
    decreases |es|
  {
    o := OwnerOf(es[0], above).value;
    if i > 0 {
      o := OffsetOf(code, es[1..], OwnerOf(es[0], above), i - 1);
      OwnsNext(es, above, i, o);
    } else if |es| > 1 {
      var o' := OffsetOf(code, es[1..], OwnerOf(es[0], above), 0);
    }
  }

  /** Entry by entry: the program counter at an offset of its owner's code. */
  lemma {:induction false} CounterOf(code: map<Abstraction, CallInfo>, es: seq<Entry>, above: Option<Abstraction>,
                                     i: nat) returns (o: Abstraction)
    requires Based(code, es, above) && i < |es|
    ensures o in code && Owns(es, above, i, o) && |Rebased(code, es, above)| == |es|
    ensures var info := code[o];
      Rebased(code, es, above)[i] == es[i].(pc := info.start + es[i].pc, gregs := info.gs, kregs := info.ks)
    decreases |es|
  {
    o := OwnerOf(es[0], above).value;
    if i > 0 {
      o := CounterOf(code, es[1..], OwnerOf(es[0], above), i - 1);
      OwnsNext(es, above, i, o);
    } else if |es| > 1 {
      var o' := CounterOf(code, es[1..], OwnerOf(es[0], above), 0);
    }
  }

  ghost predicate AllMove(m: Move, acts: seq<Activation>) {
    forall i | 0 <= i < |acts| :: m.Moves(acts[i].abstraction)
  }

  function AllMoved(m: Move, acts: seq<Activation>): (r: seq<Activation>)
    requires AllMove(m, acts)
    ensures |r| == |acts| && forall i | 0 <= i < |acts| :: r[i] == Moved(m, acts[i])
  {
    if acts == [] then [] else [Moved(m, acts[0])] + AllMoved(m, acts[1..])
  }

  lemma {:induction false} HandlersRelocate(m: Move, hs: seq<Handler>, rest: seq<Entry>, a: Abstraction)
    requires m.Moves(a) && Ready(m, rest, Some(a))
    ensures Ready(m, HandlerEntries(hs) + rest, Some(a))
    ensures Relocated(m, HandlerEntries(hs) + rest, Some(a)) ==
      HandlerEntries(MovedHandlers(m, a, hs)) + Relocated(m, rest, Some(a))
    decreases |hs|
  {
    hide *;
    if hs == [] {
      assert HandlerEntries(hs) == HandlerEntries(MovedHandlers(m, a, hs)) == [];
      assert [] + rest == rest;
    } else {
      var e, tail := HandlerEntry(hs[0]), HandlerEntries(hs[1..]);
      HandlersRelocate(m, hs[1..], rest, a);
      HandlerMoves(m, hs[0], a);
      FirstHandler(m, hs, a);
      RelocatedFirst(m, e, tail + rest, Some(a));
      assert [e] + tail + rest == [e] + (tail + rest);
    }
  }

  lemma HandlerMoves(m: Move, h: Handler, a: Abstraction)
    requires m.Moves(a)
    ensures HandlerEntry(h).abstraction.None? && OwnerOf(HandlerEntry(h), Some(a)) == Some(a)
    ensures m.Entry(HandlerEntry(h), a) == HandlerEntry(MovedHandler(m, a, h))
  {
  }

  lemma FirstEntry(hs: seq<Handler>)
    requires hs != []
    ensures HandlerEntries(hs) == [HandlerEntry(hs[0])] + HandlerEntries(hs[1..])
  {
    hide HandlerEntry;
  }

  lemma FirstMovedHandler(m: Move, hs: seq<Handler>, a: Abstraction)
    requires m.Moves(a) && hs != []
    ensures MovedHandlers(m, a, hs) == [MovedHandler(m, a, hs[0])] + MovedHandlers(m, a, hs[1..])
  {
    hide MovedHandler;
  }

  lemma FirstHandler(m: Move, hs: seq<Handler>, a: Abstraction)
    requires m.Moves(a) && hs != []
    ensures HandlerEntries(hs) == [HandlerEntry(hs[0])] + HandlerEntries(hs[1..])
    ensures HandlerEntries(MovedHandlers(m, a, hs)) ==
            [HandlerEntry(MovedHandler(m, a, hs[0]))] + HandlerEntries(MovedHandlers(m, a, hs[1..]))
  {
    hide *;
    FirstEntry(hs);
    FirstMovedHandler(m, hs, a);
    FirstEntry(MovedHandlers(m, a, hs));
  }

  lemma FirstFrame(code: map<Abstraction, CallInfo>, acts: seq<Activation>)
    requires Known(code, acts) && acts != []
    ensures acts[0].abstraction in code && Known(code, acts[1..])
    ensures Frames(code, acts) ==
            [FrameOf(code, acts[0])] + (HandlerEntries(acts[0].handlers) + Frames(code, acts[1..]))
  {
  }

  lemma FirstMoves(m: Move, acts: seq<Activation>)
    requires AllMove(m, acts) && acts != []
    ensures m.Moves(acts[0].abstraction) && AllMove(m, acts[1..]) && AllMoved(m, acts) != []
    ensures AllMoved(m, acts)[0] == Moved(m, acts[0]) && AllMoved(m, acts)[1..] == AllMoved(m, acts[1..])
  {
  }

  lemma FrameMoves(m: Move, a: Activation, above: Option<Abstraction>)
    requires m.Moves(a.abstraction)
    ensures a.abstraction in m.code && Moved(m, a).abstraction in m.code'
    ensures OwnerOf(FrameOf(m.code, a), above) == Some(a.abstraction)
    ensures m.Entry(FrameOf(m.code, a), a.abstraction) == FrameOf(m.code', Moved(m, a))
    ensures Moved(m, a).handlers == MovedHandlers(m, a.abstraction, a.handlers)
  {
  }

  lemma MovesKnown(m: Move, acts: seq<Activation>)
    requires AllMove(m, acts)
    ensures Known(m.code, acts) && Known(m.code', AllMoved(m, acts))
  {
  }

  lemma NothingToRelocate(m: Move, acts: seq<Activation>, above: Option<Abstraction>)
    requires AllMove(m, acts) && acts == []
    ensures Known(m.code, acts) && Known(m.code', AllMoved(m, acts)) && Ready(m, Frames(m.code, acts), above)
    ensures Relocated(m, Frames(m.code, acts), above) == Frames(m.code', AllMoved(m, acts)) == []
  {
  }

  /** A whole stack relocates to the stack of the moved activations. */
  lemma {:induction false} FramesRelocate(m: Move, acts: seq<Activation>, above: Option<Abstraction>)
    requires AllMove(m, acts)
    ensures Known(m.code, acts) && Known(m.code', AllMoved(m, acts)) && Ready(m, Frames(m.code, acts), above)
    ensures Relocated(m, Frames(m.code, acts), above) == Frames(m.code', AllMoved(m, acts))
    decreases |acts|
  {
    hide *;
    MovesKnown(m, acts);
    if acts == [] {
      NothingToRelocate(m, acts, above);
    } else {
      var a := acts[0];
      FirstMoves(m, acts);
      FirstFrame(m.code, acts);
      FirstFrame(m.code', AllMoved(m, acts));
      FrameMoves(m, a, above);
      var rest := Frames(m.code, acts[1..]);
      FramesRelocate(m, acts[1..], Some(a.abstraction));
      HandlersRelocate(m, a.handlers, rest, a.abstraction);
      RelocatedFirst(m, FrameOf(m.code, a), HandlerEntries(a.handlers) + rest, above);
    }
  }

  /** The same activations, each with a copy of its Y registers. */
  ghost predicate CopiedYs(was: seq<Activation>, now: seq<Activation>, replica: int -> int)
    reads Ys(was) + Ys(now)
  {
    && |now| == |was|
    && (forall i | 0 <= i < |was| :: now[i].yregs == null <==> was[i].yregs == null)
    && forall i | 0 <= i < |was| && was[i].yregs != null ::
      was[i] in was && now[i] in now && now[i].yregs.Length == was[i].yregs.Length &&
      forall k | 0 <= k < was[i].yregs.Length :: now[i].yregs[k] == replica(was[i].yregs[k])
  }

  ghost predicate AlikeButYs(was: seq<Activation>, now: seq<Activation>) {
    |now| == |was| && forall i | 0 <= i < |was| :: now[i] == was[i].(yregs := now[i].yregs)
  }

  lemma NewFirst(a: Activation, rest: seq<Activation>)
    requires OwnYs(rest) && (a.yregs != null ==> a.yregs !in Ys(rest))
    ensures OwnYs([a] + rest) && Ys([a] + rest) == Ys(rest) + if a.yregs == null then {} else {a.yregs}
  {
    var now := [a] + rest;
    forall i, j | 0 <= i < j < |now| && now[i].yregs != null ensures now[i].yregs != now[j].yregs {
      assert now[j] == rest[j - 1] && rest[j - 1] in rest;
    }
    forall y | y in Ys(rest) ensures y in Ys(now) {
      var i :| 0 <= i < |rest| && rest[i].yregs == y;
      assert now[i + 1] in now;
    }
    assert now[0] in now;
  }

  /** The first frame of a stack, the handlers of its activation, and the rest. */
  lemma CutFrame(code: map<Abstraction, CallInfo>, acts: seq<Activation>, n: nat)
    requires Known(code, acts) && acts != []
    requires var es := Frames(code, acts);
      && 1 + n <= |es| && (forall i | 1 <= i < 1 + n :: es[i].abstraction.None?) &&
         (1 + n < |es| ==> es[1 + n].abstraction.Some?)
    ensures var es := Frames(code, acts);
      && es[0] == FrameOf(code, acts[0]) && es[1..1 + n] == HandlerEntries(acts[0].handlers) &&
         es[1 + n..] == Frames(code, acts[1..])
  {
    var (es, hs, rest) := (Frames(code, acts), acts[0].handlers, Frames(code, acts[1..]));
    assert es == [FrameOf(code, acts[0])] + HandlerEntries(hs) + rest;
    forall i | 0 <= i < |hs| ensures es[1 + i] == HandlerEntry(hs[i]) { }
    assert rest != [] ==> es[1 + |hs|] == rest[0] && rest[0].abstraction.Some?;
    assert n == |hs|;
  }

  /** What a thread may do: opcodes, a raise, preemption and resumption, and a garbage collection while it rests. */
  datatype Step =
    | Allocate(count: nat) | Setup(distance: int) | Pop
    | Apply(target: Abstraction, arity: nat, tail: bool, argc: int) | GiveBack | Raise(handler: Option<Abstraction>)
    | Preempt | Resume
    | Collect(rho: map<Abstraction, Abstraction>, code': map<Abstraction, CallInfo>, replica: int -> int)

  /** A thread, by what it stands for: its activations, the running one or the one to be resumed first. */
  datatype View =
    View(acts: seq<Activation>, code: map<Abstraction, CallInfo>, running: bool, terminated: bool)

  /** The activation of a procedure that has just been called. */
  function Called(code: map<Abstraction, CallInfo>, target: Abstraction, debug: Debug): Activation
    requires target in code
  {
    Activation(target, code[target].start, null, debug, [])
  }

  /** What a step does to the first activation, which is the running one, and to the others. */
  ghost predicate Does(s: Step, v: View, v': View) {
    match s
    case Preempt => v' == v.(running := false)
    case Resume => v' == v.(running := true)
    case Collect(rho, code', _) =>
      v' == View(v'.acts, code', false, v.terminated) && Relocates(Move(v.code, rho, code'), v, v')
    case _ => v.acts != [] && DoesRunning(s, v, v', v.acts[0], v.acts[1..])
  }

  ghost predicate DoesRunning(s: Step, v: View, v': View, a: Activation, rest: seq<Activation>) {
    match s
    case Allocate(count) =>
      && v'.acts != [] && v' == v.(acts := [a.(yregs := v'.acts[0].yregs, pc := a.pc + 2)] + rest)
      && v'.acts[0].yregs != null && v'.acts[0].yregs.Length == count && v'.acts[0].yregs !in Ys(v.acts)
    case Setup(distance) =>
      v' == v.(acts := [a.(pc := a.pc + 2 + distance, debug := NoDebug,
                           handlers := [Handler(a.pc + 2, a.debug, 0, 0)] + a.handlers)] + rest)
    case Pop =>
      && a.handlers != []
      && v' == v.(acts := [a.(pc := a.pc + 1, debug := a.handlers[0].debug, handlers := a.handlers[1..])] + rest)
    case Apply(target, arity, tail, argc) =>
      && target in v.code && (tail ==> a.handlers == [])
      && v' == (if arity != v.code[target].arity then v
                else if tail then v.(acts := [Called(v.code, target, a.debug)] + rest)
                else v.(acts := [Called(v.code, target, NoDebug)] + ([a.(pc := a.pc + argc + 1)] + rest)))
    case GiveBack =>
      && a.handlers == []
      && v' == v.(acts := rest, running := rest != [], terminated := v.terminated || rest == [])
    case Raise(handler) =>
      if Dropped(v.acts) < |v.acts| then v' == v.(acts := Unwound(v.acts, a.debug))
      else if handler.Some? then handler.value in v.code && v' == v.(acts := [Called(v.code, handler.value, a.debug)])
      else v'.terminated && v'.code == v.code
    case _ => false
  }

  /** The activations are at the same offsets of the replicas of their code, and their Y registers elsewhere. */
  ghost predicate Relocates(m: Move, v: View, v': View) {
    && AllMove(m, v.acts) && |v'.acts| == |v.acts| && Ys(v'.acts) !! Ys(v.acts)
    && forall i | 0 <= i < |v.acts| :: v'.acts[i] == Moved(m, v.acts[i]).(yregs := v'.acts[i].yregs)
  }

  class Thread {
    /** The stack, its front first. */
    var stack: seq<Entry>

    // The state run() keeps in local variables.
    var running: bool
    var abstraction: Abstraction
    var pc: int
    var yregs: array?<int>
    var gregs: Registers
    var kregs: Registers
    var debug: Debug
    var terminated: bool

    /** What getCallInfo answers. */
    var code: map<Abstraction, CallInfo>

    /** The activations, the running one first, and the Y arrays allocated and not freed. */
    ghost var acts: seq<Activation>
    ghost var live: set<array<int>>

    /** A thread starts with one frame, at the start of its abstraction's code. */
    constructor (target: Abstraction, code: map<Abstraction, CallInfo>)
      requires target in code
      ensures Rests() && !terminated && this.code == code && live == {}
      ensures acts == [Activation(target, code[target].start, null, NoDebug, [])]
    {
      var info := code[target];
      stack := [Entry(Some(target), info.start, null, info.gs, info.ks, NoDebug)];
      running, terminated, this.code := false, false, code;
      abstraction, pc, yregs, gregs, kregs, debug := target, info.start, null, info.gs, info.ks, NoDebug;
      acts, live := [Activation(target, info.start, null, NoDebug, [])], {};
    }

    ghost predicate Owned()
      reads this
    {
      Known(code, acts) && OwnYs(acts) && Ys(acts) <= live
    }

    /** The registers and the stack hold the activations. */
    ghost predicate Runs()
      reads this
    {
      && running && Owned() && acts != []
      && abstraction == acts[0].abstraction && pc == acts[0].pc && yregs == acts[0].yregs && debug == acts[0].debug
      && gregs == code[abstraction].gs && kregs == code[abstraction].ks
      && stack == HandlerEntries(acts[0].handlers) + Frames(code, acts[1..])
    }

    /** The stack alone holds the activations. */
    ghost predicate Rests()
      reads this
    {
      !running && Owned() && stack == Frames(code, acts)
    }

    /** The first entry is a handler exactly when the running activation has one. */
    lemma FrontIsHandler()
      requires Runs()
      ensures stack != [] && stack[0].abstraction.None? <==> acts[0].handlers != []
      ensures acts[0].handlers != [] ==>
        && stack[0] == HandlerEntry(acts[0].handlers[0])
        && stack[1..] == HandlerEntries(acts[0].handlers[1..]) + Frames(code, acts[1..])
      ensures acts[0].handlers == [] ==> stack == Frames(code, acts[1..])
    {
      var hs := acts[0].handlers;
      if hs == [] {
        assert HandlerEntries(hs) == [];
      } else {
        assert HandlerEntries(hs)[1..] == HandlerEntries(hs[1..]);
      }
    }

    /** deleteStaticArray: an array is freed once. */
    method Delete(y: array?<int>)
      requires y != null ==> y in live
      modifies `live
      ensures live == if y == null then old(live) else old(live) - {y}
    {
      if y != null {
        live := live - {y};
      }
    }

    /** OpAllocateY. */
    method AllocateY(count: nat)
      requires Runs() && count != 0 && yregs == null
      modifies `yregs, `pc, `acts, `live
      ensures Runs() && yregs != null && fresh(yregs) && yregs.Length == count && live == old(live) + {yregs}
      ensures acts == [old(acts)[0].(yregs := yregs, pc := old(pc) + 2)] + old(acts)[1..]
    {
      yregs := new int[count](_ => 0);
      pc := pc + 2;
      live := live + {yregs};
      acts := [acts[0].(yregs := yregs, pc := pc)] + acts[1..];
    }

    /** OpSetupExceptionHandler. */
    method SetupHandler(distance: int)
      requires Runs()
      modifies `stack, `pc, `debug, `acts
      ensures Runs()
      ensures var a := old(acts)[0];
        acts == [a.(pc := a.pc + 2 + distance, debug := NoDebug,
                    handlers := [Handler(a.pc + 2, a.debug, 0, 0)] + a.handlers)]
                + old(acts)[1..]
    {
      hide Frames, OwnYs, HandlerEntries;
      pc := pc + 2;
      stack := [Entry(None, pc, null, 0, 0, debug)] + stack;
      ghost var h := Handler(pc, debug, 0, 0);
      ghost var was := acts;
      OneHandlerMore(h, was[0].handlers);
      debug := NoDebug;
      pc := pc + distance;
      ghost var a := was[0].(pc := pc, debug := debug, handlers := [h] + was[0].handlers);
      PushedYs(a, was);
      assert ([a] + was[1..])[1..] == was[1..];
      acts := [a] + was[1..];
    }

    lemma OneHandlerMore(h: Handler, hs: seq<Handler>)
      ensures HandlerEntries([h] + hs) == [HandlerEntry(h)] + HandlerEntries(hs)
    {
    }

    /** OpPopExceptionHandler, where the first entry is a handler. */
    method PopHandler()
      requires Runs() && stack != [] && stack[0].abstraction.None?
      modifies `stack, `pc, `debug, `acts
      ensures Runs() && old(acts)[0].handlers != []
      ensures var a := old(acts)[0];
        acts == [a.(pc := a.pc + 1, debug := a.handlers[0].debug, handlers := a.handlers[1..])] + old(acts)[1..]
    {
      FrontIsHandler();
      debug := stack[0].debug;
      stack := stack[1..];
      pc := pc + 1;
      acts := [acts[0].(pc := pc, debug := debug, handlers := acts[0].handlers[1..])] + acts[1..];
    }

    /** The Y registers of the running activation are its own, and allocated. */
    lemma YregsAreLive()
      requires Runs() && yregs != null
      ensures yregs in live && forall i | 0 < i < |acts| :: acts[i].yregs != yregs
    {
      assert acts[0] in acts;
    }

    /** pushFrame. */
    method PushFrame()
      requires Runs()
      modifies `stack, `debug, `running
      ensures Rests() && debug == NoDebug
    {
      stack := [Entry(Some(abstraction), pc, yregs, gregs, kregs, debug)] + stack;
      debug := NoDebug;
      running := false;
      assert acts == [acts[0]] + acts[1..];
    }

    lemma FirstFrame()
      requires Rests() && stack != []
      ensures acts != [] && acts[0].abstraction in code && stack[0] == FrameOf(code, acts[0]) && Known(code, acts[1..])
      ensures stack[1..] == HandlerEntries(acts[0].handlers) + Frames(code, acts[1..])
    {
    }

    /** popFrame, where the first entry is not a handler. */
    method PopFrame()
      requires Rests() && stack != [] && stack[0].abstraction.Some?
      modifies `stack, `abstraction, `pc, `yregs, `gregs, `kregs, `debug, `running
      ensures Runs()
    {
      FirstFrame();
      hide Frames, HandlerEntries, OwnYs;
      var entry := stack[0];
      abstraction := entry.abstraction.value;
      pc := entry.pc;
      yregs := entry.yregs;
      gregs := entry.gregs;
      kregs := entry.kregs;
      debug := entry.debug;
      stack := stack[1..];
      running := true;
    }

    /** The callers of the running activation, which has freed its Y registers and set up no handler, are on the
        stack. */
    ghost predicate Left(rest: seq<Activation>)
      reads this
    {
      Known(code, rest) && OwnYs(rest) && Ys(rest) <= live && stack == Frames(code, rest)
    }

    /** The running activation is given up. */
    method FreeY()
      requires Runs() && (stack == [] || stack[0].abstraction.Some?)
      modifies `live
      ensures acts[0].handlers == [] && Left(acts[1..]) && live == old(live) - Ys(acts[..1])
    {
      FrontIsHandler();
      if yregs != null { YregsAreLive(); }
      DropFirst();
      Delete(yregs);
    }

    /** OpReturn, of an activation that has no handler set up. */
    method Return()
      requires Runs() && (stack == [] || stack[0].abstraction.Some?)
      modifies this
      ensures old(acts)[0].handlers == [] && acts == old(acts)[1..] && code == old(code)
      ensures live == old(live) - Ys(old(acts)[..1])
      ensures if acts == [] then Rests() && terminated else Runs() && terminated == old(terminated)
    {
      hide Runs, Left, Frames, HandlerEntries, OwnYs;
      NotNone();
      FreeY();
      Leave(acts[1..]);
      if stack == [] {
        Terminate();
        return;
      }
      PopFrame();
    }

    method Terminate()
      modifies `terminated
      ensures terminated && (old(Rests()) ==> Rests()) && (old(Runs()) ==> Runs())
    {
      terminated := true;
    }

    /** The registers hold nothing any more. */
    method Leave(ghost rest: seq<Activation>)
      requires Left(rest)
      modifies `acts, `running
      ensures Rests() && acts == rest && (stack == [] <==> acts == [])
      ensures stack != [] ==> stack[0].abstraction.Some?
    {
      acts := rest;
      running := false;
    }

    lemma DropFirst()
      requires Owned() || (Known(code, acts) && OwnYs(acts))
      requires acts != []
      ensures Known(code, acts[1..]) && OwnYs(acts[1..])
      ensures Ys(acts[..1]) == if acts[0].yregs == null then {} else {acts[0].yregs}
      ensures Ys(acts[1..]) == Ys(acts) - Ys(acts[..1])
    {
      var rest := acts[1..];
      forall y | y in Ys(acts) && y !in Ys(acts[..1]) ensures y in Ys(rest) {
        var a :| a in acts && a.yregs == y;
        assert acts == acts[..1] + rest;
      }
      forall y | y in Ys(rest) ensures y in Ys(acts) && y !in Ys(acts[..1]) {
        var i :| 0 <= i < |rest| && rest[i].yregs == y;
        assert rest[i] == acts[i + 1];
      }
    }

    /** The caller's state goes on the stack. */
    method PushCaller()
      requires running && Owned() && acts != [] && stack == HandlerEntries(acts[0].handlers) + Frames(code, acts[1..])
      requires abstraction == acts[0].abstraction && yregs == acts[0].yregs && debug == acts[0].debug
      requires gregs == code[abstraction].gs && kregs == code[abstraction].ks
      modifies `stack, `debug
      ensures Left([acts[0].(pc := pc)] + acts[1..]) && debug == NoDebug
    {
      ghost var a := acts[0].(pc := pc);
      PushedYs(a, acts);
      stack := [Entry(Some(abstraction), pc, yregs, gregs, kregs, debug)] + stack;
      debug := NoDebug;
      assert ([a] + acts[1..])[1..] == acts[1..];
    }

    /** The new frame of a call. */
    method Enter(target: Abstraction, ghost rest: seq<Activation>)
      requires Left(rest) && target in code && running
      modifies `abstraction, `pc, `yregs, `gregs, `kregs, `acts
      ensures Runs() && acts == [Activation(target, code[target].start, null, debug, [])] + rest
    {
      var info := code[target];
      abstraction, pc, yregs, gregs, kregs := target, info.start, null, info.gs, info.ks;
      acts := [Activation(target, pc, null, debug, [])] + rest;
      AddFirst(acts[0], rest);
      assert acts[1..] == rest && HandlerEntries([]) == [];
    }

    /** call: false when the arity is wrong, and then nothing has changed. */
    method Call(target: Abstraction, actualArity: nat, isTailCall: bool, opcodeArgCount: int) returns (ok: bool)
      requires Runs() && target in code
      requires isTailCall ==> stack == [] || stack[0].abstraction.Some?
      modifies `stack, `abstraction, `pc, `yregs, `gregs, `kregs, `debug, `acts, `live
      ensures ok == (actualArity == code[target].arity) && Runs()
      ensures !ok ==> acts == old(acts) && live == old(live) && stack == old(stack)
      ensures ok && !isTailCall ==>
        && acts == [Activation(target, code[target].start, null, NoDebug, [])]
                   + ([old(acts)[0].(pc := old(pc) + opcodeArgCount + 1)] + old(acts)[1..])
        && live == old(live)
      ensures ok && isTailCall ==>
        && old(acts)[0].handlers == []
        && acts == [Activation(target, code[target].start, null, old(debug), [])] + old(acts)[1..]
        && live == old(live) - Ys(old(acts)[..1])
    {
      hide HandlerEntries, Frames, OwnYs, Left;
      if actualArity != code[target].arity {
        return false;
      }
      ghost var was := acts;
      if !isTailCall {
        pc := pc + opcodeArgCount + 1;
        PushCaller();
        Enter(target, [was[0].(pc := pc)] + was[1..]);
      } else {
        FreeY();
        pc := pc + opcodeArgCount + 1;
        Enter(target, was[1..]);
      }
      ok := true;
    }

    lemma PushedYs(a: Activation, was: seq<Activation>)
      requires was != [] && a.yregs == was[0].yregs
      ensures OwnYs(was) ==> OwnYs([a] + was[1..])
      ensures Ys([a] + was[1..]) == Ys(was)
    {
      var now := [a] + was[1..];
      forall i | 0 <= i < |was| ensures now[i].yregs == was[i].yregs {
      }
      forall y | y in Ys(was) ensures y in Ys(now) {
        var i :| 0 <= i < |was| && was[i].yregs == y;
        assert now[i] in now;
      }
      forall y | y in Ys(now) ensures y in Ys(was) {
        var i :| 0 <= i < |now| && now[i].yregs == y;
        assert was[i] in was;
      }
    }

    lemma AddFirst(a: Activation, rest: seq<Activation>)
      requires a.yregs == null && OwnYs(rest)
      ensures OwnYs([a] + rest) && Ys([a] + rest) == Ys(rest)
    {
      var now := [a] + rest;
      forall y | y in Ys(rest) ensures y in Ys(now) {
        var i :| 0 <= i < |rest| && rest[i].yregs == y;
        assert now[i + 1] in now;
      }
    }

    lemma OneMore(was: seq<Activation>, n: nat)
      requires n < |was|
      ensures Ys(was[..n + 1]) == Ys(was[..n]) + if was[n].yregs == null then {} else {was[n].yregs}
    {
      assert was[..n + 1] == was[..n] + [was[n]];
      forall y | y in Ys(was[..n]) ensures y in Ys(was[..n + 1]) {
        var i :| 0 <= i < n && was[i].yregs == y;
        assert was[..n + 1][i] in was[..n + 1];
      }
      assert was[..n + 1][n] in was[..n + 1];
    }

    /** findExceptionHandler takes up the registers of a frame, but not its program counter. */
    method TakeUp()
      requires running && acts != [] && Left(acts[1..]) && stack != []
      modifies `stack, `abstraction, `yregs, `gregs, `kregs, `acts
      ensures Runs() && old(acts)[1..] != [] && stack == old(stack)[1..]
      ensures acts == [old(acts)[1].(pc := pc, debug := debug)] + old(acts)[2..]
    {
      ghost var rest := acts[1..];
      NextFrame(rest);
      hide Frames, OwnYs, HandlerEntries;
      var entry := stack[0];
      abstraction := entry.abstraction.value;
      yregs := entry.yregs;
      gregs := entry.gregs;
      kregs := entry.kregs;
      stack := stack[1..];
      ghost var a := rest[0].(pc := pc, debug := debug);
      PushedYs(a, rest);
      assert ([a] + rest[1..])[1..] == rest[1..];
      acts := [a] + rest[1..];
    }

    lemma NextFrame(rest: seq<Activation>)
      requires Left(rest) && stack != []
      ensures rest != [] && rest[0].abstraction in code && stack[0] == FrameOf(code, rest[0]) && Known(code, rest[1..])
      ensures stack[1..] == HandlerEntries(rest[0].handlers) + Frames(code, rest[1..])
    {
    }

    /** findExceptionHandler: frames are dropped, and their Y registers freed, up to the first handler. */
    method FindExceptionHandler() returns (found: bool)
      requires Runs()
      modifies `stack, `abstraction, `pc, `yregs, `gregs, `kregs, `acts, `live
      ensures Runs() && found == (Dropped(old(acts)) < |old(acts)|)
      ensures found ==> acts == Unwound(old(acts), debug) && live == old(live) - Ys(old(acts)[..Dropped(old(acts))])
      ensures !found ==>
        && acts == [old(acts)[|old(acts)| - 1].(pc := old(pc), debug := debug)] && stack == []
        && live == old(live) - Ys(old(acts)[..|old(acts)| - 1])
    {
      hide Runs, Left, Frames, HandlerEntries, OwnYs;
      ghost var was, had, n := acts, live, 0;
      NotNone();
      assert Ys(was[..0]) == {};
      while stack != []
        invariant n < |was| && Runs() && pc == old(pc) && acts == [was[n].(pc := pc, debug := debug)] + was[n + 1..]
        invariant forall i | 0 <= i < n :: was[i].handlers == []
        invariant live == had - Ys(was[..n]) && debug == old(debug)
        decreases |stack|
      {
        FrontIsHandler();
        if stack[0].abstraction.None? {
          UnwoundIs(was, debug, n);
          EnterHandler();
          return true;
        }
        DroppedOne(acts, was, n, had);
        DropFrame();
        n := n + 1;
      }
      FrontIsHandler();
      LastOne(acts);
      UnwoundIs(was, debug, |was|);
      found := false;
    }

    /** A frame without a handler is dropped: the next one is taken up. */
    method DropFrame()
      requires Runs() && stack != [] && stack[0].abstraction.Some?
      modifies `stack, `abstraction, `yregs, `gregs, `kregs, `acts, `live
      ensures Runs() && |old(acts)| > 1 && old(acts)[0].handlers == [] && |stack| < |old(stack)|
      ensures acts == [old(acts)[1].(pc := pc, debug := debug)] + old(acts)[2..] &&
        live == old(live) - Ys(old(acts)[..1])
    {
      hide Runs, Left, Frames, HandlerEntries, OwnYs;
      NotNone();
      FreeY();
      TakeUp();
    }

    lemma NotNone()
      requires Runs()
      ensures running && acts != [] && pc == acts[0].pc && debug == acts[0].debug
    {
    }

    /** With nothing on the stack, no other activation is left, and no handler. */
    lemma LastOne(a: seq<Activation>)
      requires Runs() && stack == [] && a == acts
      ensures |a| == 1 && a[0].handlers == []
    {
    }

    /** One more frame dropped. */
    lemma DroppedOne(now: seq<Activation>, was: seq<Activation>, n: nat, had: set<array<int>>)
      requires n < |was| && now == [was[n].(pc := pc, debug := debug)] + was[n + 1..]
      ensures had - Ys(was[..n]) - Ys(now[..1]) == had - Ys(was[..n + 1])
      ensures now[0].handlers == was[n].handlers && |now| == |was| - n
      ensures n + 1 < |was| ==> now[1] == was[n + 1] && now[2..] == was[n + 2..]
    {
      OneMore(was, n);
      SameY(now[..1], was[n]);
    }

    lemma SameY(one: seq<Activation>, a: Activation)
      requires |one| == 1 && one[0].yregs == a.yregs
      ensures Ys(one) == if a.yregs == null then {} else {a.yregs}
    {
      assert one[0] in one;
    }

    /** The handler's entry goes, and its code is resumed. */
    method EnterHandler()
      requires Runs() && stack != [] && stack[0].abstraction.None?
      modifies `stack, `pc, `acts
      ensures Runs() && old(acts)[0].handlers != []
      ensures var a := old(acts)[0];
        acts == [a.(pc := a.handlers[0].pc, handlers := a.handlers[1..])] + old(acts)[1..]
    {
      FrontIsHandler();
      pc := stack[0].pc;
      stack := stack[1..];
      acts := [acts[0].(pc := pc, handlers := acts[0].handlers[1..])] + acts[1..];
    }

    /** applyRaise, with the default exception handler if it is a procedure of one argument. */
    method ApplyRaise(defaultHandler: Option<Abstraction>) returns (found: bool)
      requires Runs()
      requires defaultHandler.Some? ==> defaultHandler.value in code && code[defaultHandler.value].arity == 1
      modifies this
      ensures code == old(code) && found == (Dropped(old(acts)) < |old(acts)|)
      ensures found || defaultHandler.Some? ==> terminated == old(terminated)
      ensures found ==>
        Runs() && acts == Unwound(old(acts), old(debug)) && live == old(live) - Ys(old(acts)[..Dropped(old(acts))])
      ensures !found && defaultHandler.Some? ==>
        && Runs() && acts == [Activation(defaultHandler.value, code[defaultHandler.value].start, null, old(debug), [])]
        && live == old(live) - Ys(old(acts))
      ensures !found && defaultHandler.None? ==> Runs() && terminated && stack == []
    {
      hide Runs, Left, Frames, HandlerEntries, OwnYs, Unwound;
      ghost var was := acts;
      NotNone();
      found := FindExceptionHandler();
      if !found {
        if defaultHandler.Some? {
          AllYs(was, acts);
          var ok := Call(defaultHandler.value, 1, true, -1);
        } else {
          Terminate();
        }
      }
    }

    lemma AllYs(was: seq<Activation>, now: seq<Activation>)
      requires was != [] && |now| == 1 && now[0].yregs == was[|was| - 1].yregs
      ensures Ys(was[..|was| - 1]) + Ys(now[..1]) == Ys(was)
    {
      OneMore(was, |was| - 1);
      assert was[..|was|] == was;
      SameY(now[..1], was[|was| - 1]);
    }

    /** Thread::beforeGR. */
    method BeforeGR()
      requires Based(code, stack, None)
      modifies `stack
      ensures stack == Offsets(code, old(stack), None)
    {
      hide Based, Offsets;
      ghost var was := stack;
      var above: Option<Abstraction> := None;
      var i := 0;
      ghost var done := [];
      assert stack == done + was[i..];
      while i < |stack|
        invariant i <= |stack| == |was| && |done| == i && stack == done + was[i..]
        invariant Based(code, was[i..], above) && Offsets(code, was, None) == done + Offsets(code, was[i..], above)
      {
        OffsetsFirst(code, was[i..], above);
        OneRewritten(done, was, i, was[i], []);
        if stack[i].abstraction.Some? {
          above := stack[i].abstraction;
        }
        var entry := stack[i].(pc := stack[i].pc - code[above.value].start);
        OneRewritten(done, was, i, entry, Offsets(code, was[i + 1..], above));
        stack := stack[i := entry];
        done := done + [entry];
        i := i + 1;
      }
      OffsetsNone(code, was[i..], above);
    }

    /** Thread::afterGR. */
    method AfterGR()
      requires Based(code, stack, None)
      modifies `stack
      ensures stack == Rebased(code, old(stack), None)
    {
      hide Based, Rebased;
      ghost var was := stack;
      var above: Option<Abstraction> := None;
      var i := 0;
      ghost var done := [];
      assert stack == done + was[i..];
      while i < |stack|
        invariant i <= |stack| == |was| && |done| == i && stack == done + was[i..]
        invariant Based(code, was[i..], above) && Rebased(code, was, None) == done + Rebased(code, was[i..], above)
      {
        RebasedFirst(code, was[i..], above);
        OneRewritten(done, was, i, was[i], []);
        if stack[i].abstraction.Some? {
          above := stack[i].abstraction;
        }
        var info := code[above.value];
        var entry := stack[i].(pc := info.start + stack[i].pc, gregs := info.gs, kregs := info.ks);
        OneRewritten(done, was, i, entry, Rebased(code, was[i + 1..], above));
        stack := stack[i := entry];
        done := done + [entry];
        i := i + 1;
      }
      RebasedNone(code, was[i..], above);
    }

    /** A fresh array with the replicas of what an array holds. */
    static method CopyY(y: array?<int>, replica: int -> int) returns (y': array?<int>)
      ensures y' == null <==> y == null
      ensures y' != null ==> fresh(y') && y'.Length == y.Length && forall k | 0 <= k < y.Length ::
        y'[k] == replica(y[k])
    {
      if y == null {
        return null;
      }
      var copy := new int[y.Length];
      var i := 0;
      while i < y.Length
        invariant i <= y.Length && forall k | 0 <= k < i :: copy[k] == replica(y[k])
        modifies copy
      {
        copy[i] := replica(y[i]);
        i := i + 1;
      }
      y' := copy;
    }

    /** The handlers that follow a frame. */
    static method HandlersBehind(es: seq<Entry>) returns (n: nat)
      ensures n <= |es| && (forall i | 0 <= i < n :: es[i].abstraction.None?) && (n < |es| ==> es[n].abstraction.Some?)
    {
      n := 0;
      while n < |es| && es[n].abstraction.None?
        invariant n <= |es| && forall i | 0 <= i < n :: es[i].abstraction.None?
      {
        n := n + 1;
      }
    }

    /** The replicator gives every frame of a stack its own copy of its Y registers. */
    static method CopyStack(es: seq<Entry>, replica: int -> int, ghost code: map<Abstraction, CallInfo>,
                            ghost was: seq<Activation>)
      returns (es': seq<Entry>, ghost now: seq<Activation>)
      requires Known(code, was) && es == Frames(code, was)
      ensures Known(code, now) && es' == Frames(code, now) && OwnYs(now) && fresh(Ys(now))
      ensures CopiedYs(was, now, replica) && AlikeButYs(was, now)
      decreases |es|
    {
      if es == [] {
        return [], [];
      }
      var y := CopyY(es[0].yregs, replica);
      var n := HandlersBehind(es[1..]);
      CutFrame(code, was, n);
      hide Frames, OwnYs;
      var rest;
      ghost var others;
      rest, others := CopyStack(es[1 + n..], replica, code, was[1..]);
      ghost var a := was[0].(yregs := y);
      es' := [es[0].(yregs := y)] + es[1..1 + n] + rest;
      now := [a] + others;
      NewFirst(a, others);
      JoinFrames(code, a, others);
      JoinCopies(was, now, replica);
    }

    static lemma JoinFrames(code: map<Abstraction, CallInfo>, a: Activation, rest: seq<Activation>)
      requires Known(code, rest) && a.abstraction in code
      ensures Known(code, [a] + rest)
      ensures Frames(code, [a] + rest) == [FrameOf(code, a)] + HandlerEntries(a.handlers) + Frames(code, rest)
    {
      assert ([a] + rest)[1..] == rest;
    }

    /** The first activation and the others, copied. */
    static lemma JoinCopies(was: seq<Activation>, now: seq<Activation>, replica: int -> int)
      requires |now| == |was| > 0 && CopiedYs(was[1..], now[1..], replica) && AlikeButYs(was[1..], now[1..])
      requires now[0] == was[0].(yregs := now[0].yregs) && (now[0].yregs == null <==> was[0].yregs == null)
      requires was[0].yregs != null ==> now[0].yregs.Length == was[0].yregs.Length
      requires was[0].yregs != null ==>
        forall k | 0 <= k < was[0].yregs.Length :: now[0].yregs[k] == replica(was[0].yregs[k])
      ensures CopiedYs(was, now, replica) && AlikeButYs(was, now)
    {
      forall i | 1 <= i < |was| ensures was[i] == was[1..][i - 1] && now[i] == now[1..][i - 1] { }
    }

    /** A thread that rests goes through a replication: its activations stand at the same offsets of the copied code. */
    method Replicate(rho: map<Abstraction, Abstraction>, code': map<Abstraction, CallInfo>, replica: int -> int)
      requires Rests() && AllMove(Move(code, rho, code'), acts)
      modifies this
      ensures Rests() && fresh(live) && live == Ys(acts) && |acts| == |old(acts)| && CopiedYs(old(acts), acts, replica)
      ensures code == code' && terminated == old(terminated)
      ensures forall i | 0 <= i < |acts| ::
        acts[i] == Moved(Move(old(code), rho, code'), old(acts)[i]).(yregs := acts[i].yregs)
      ensures forall i | 0 <= i < |acts| ::
        && var was := old(acts)[i];
        && acts[i].abstraction == rho[was.abstraction] && acts[i].debug == was.debug
        && acts[i].pc - code'[acts[i].abstraction].start == was.pc - old(code)[was.abstraction].start
    {
      hide Frames, OwnYs, CopiedYs, AlikeButYs, AllMoved, Moved;
      ghost var m, was := Move(code, rho, code'), acts;
      stack, acts := CopyStack(stack, replica, code, acts);
      live := Ys(acts);
      StillMove(m, was, acts);
      ghost var copied := acts;
      Relocate(rho, code');
      MovedYs(m, copied);
      MovedAlike(m, was, copied);
      AlsoCopied(m, was, copied, replica);
      OffsetsKept(m, was, acts);
    }

    lemma OffsetsKept(m: Move, was: seq<Activation>, now: seq<Activation>)
      requires AllMove(m, was) && |now| == |was|
      requires forall i | 0 <= i < |was| :: now[i] == Moved(m, was[i]).(yregs := now[i].yregs)
      ensures forall i | 0 <= i < |now| ::
        && now[i].abstraction == m.rho[was[i].abstraction] && now[i].debug == was[i].debug
        && now[i].pc - m.code'[now[i].abstraction].start == was[i].pc - m.code[was[i].abstraction].start
    {
      hide Moved;
      forall i | 0 <= i < |now|
        ensures now[i].abstraction == m.rho[was[i].abstraction] && now[i].debug == was[i].debug
        ensures now[i].pc - m.code'[now[i].abstraction].start == was[i].pc - m.code[was[i].abstraction].start
      {
        SameOffsets(m, was[i]);
      }
    }

    lemma MovedAlike(m: Move, was: seq<Activation>, copied: seq<Activation>)
      requires AllMove(m, was) && AllMove(m, copied) && AlikeButYs(was, copied)
      ensures |AllMoved(m, copied)| == |was|
      ensures forall i | 0 <= i < |was| ::
        AllMoved(m, copied)[i] == Moved(m, was[i]).(yregs := AllMoved(m, copied)[i].yregs)
    {
      hide MovedHandlers;
    }

    /** Program counters become offsets, abstractions the replicas, and offsets program counters of the new code. */
    method Relocate(rho: map<Abstraction, Abstraction>, code': map<Abstraction, CallInfo>)
      requires Rests() && AllMove(Move(code, rho, code'), acts)
      modifies `stack, `code, `acts
      ensures Rests() && acts == AllMoved(Move(old(code), rho, code'), old(acts)) && code == code'
    {
      ghost var m := Move(code, rho, code');
      FramesRelocate(m, acts, None);
      ThreeStages(m, stack, None);
      hide Frames, OwnYs;
      BeforeGR();
      stack := Replicated(rho, stack);
      code := code';
      AfterGR();
      MovedYs(m, acts);
      acts := AllMoved(m, acts);
    }

    lemma AlsoCopied(m: Move, was: seq<Activation>, copied: seq<Activation>, replica: int -> int)
      requires AllMove(m, was) && AllMove(m, copied) && CopiedYs(was, copied, replica)
      ensures CopiedYs(was, AllMoved(m, copied), replica)
    {
    }

    lemma StillMove(m: Move, was: seq<Activation>, now: seq<Activation>)
      requires AllMove(m, was) && AlikeButYs(was, now)
      ensures AllMove(m, now)
      ensures forall i | 0 <= i < |was| :: Moved(m, now[i]) == Moved(m, was[i]).(yregs := now[i].yregs)
    {
    }

    lemma MovedYs(m: Move, was: seq<Activation>)
      requires AllMove(m, was)
      ensures Ys(AllMoved(m, was)) == Ys(was) && (OwnYs(was) ==> OwnYs(AllMoved(m, was)))
    {
      var now := AllMoved(m, was);
      forall i | 0 <= i < |was| ensures now[i].yregs == was[i].yregs {
      }
      forall y | y in Ys(was) ensures y in Ys(now) {
        var i :| 0 <= i < |was| && was[i].yregs == y;
        assert now[i] in now;
      }
      forall y | y in Ys(now) ensures y in Ys(was) {
        var i :| 0 <= i < |now| && now[i].yregs == y;
        assert was[i] in was;
      }
    }

    // ------------------------------------------------------------- runs

    ghost predicate Good()
      reads this
    {
      if running then Runs() else Rests()
    }

    /** The asserts of the code let the thread take a step. */
    predicate Possible(s: Step)
      reads this
    {
      match s
      case Allocate(count) => running && count != 0 && yregs == null
      case Setup(_) => running
      case Pop => running && stack != [] && stack[0].abstraction.None?
      case Apply(target, _, tail, _) => running && target in code &&
        (tail ==> stack == [] || stack[0].abstraction.Some?)
      case GiveBack => running && (stack == [] || stack[0].abstraction.Some?)
      case Raise(handler) => running && (handler.Some? ==> handler.value in code && code[handler.value].arity == 1)
      case Preempt => running
      case Resume => !running && stack != []
      case Collect(rho, code', _) => !running && forall a <- code :: a in rho && rho[a] in code'
    }

    /** When a step is possible, on the activations. */
    lemma WhenPossible(s: Step)
      requires Good()
      ensures running ==> acts != []
      ensures Possible(s) <==>
        match s
        case Allocate(count) => running && count != 0 && acts[0].yregs == null
        case Setup(_) => running
        case Pop => running && acts[0].handlers != []
        case Apply(target, _, tail, _) => running && target in code && (tail ==> acts[0].handlers == [])
        case GiveBack => running && acts[0].handlers == []
        case Raise(handler) => running && (handler.Some? ==> handler.value in code && code[handler.value].arity == 1)
        case Preempt => running
        case Resume => !running && acts != []
        case Collect(rho, code', _) => !running && forall a <- code :: a in rho && rho[a] in code'
    {
      if running {
        FrontIsHandler();
      }
    }

    ghost function Now(): View
      reads this
    {
      View(acts, code, running, terminated)
    }

    /** One opcode does to the activations what it should. */
    method TakeOpcode(s: Step)
      requires Good() && !terminated && Possible(s)
      requires s.Allocate? || s.Setup? || s.Pop? || s.Apply? || s.GiveBack?
      modifies this
      ensures Good() && Does(s, old(Now()), Now())
    {
      hide Runs, Rests, Ys;
      NotNone();
      FrontIsHandler();
      OwnYregs();
      match s {
        case Allocate(count) => AllocateY(count);
        case Setup(distance) => SetupHandler(distance);
        case Pop => PopHandler();
        case Apply(target, arity, tail, argc) => var ok := Call(target, arity, tail, argc);
        case GiveBack =>
          Return();
          if acts == [] { AtRest(); } else { NotNone(); }
      }
    }

    /** One step does to the activations what it should. */
    method Take(s: Step)
      requires Good() && !terminated && Possible(s)
      modifies this
      ensures Good() && Does(s, old(Now()), Now())
    {
      hide Runs, Rests, Ys, Unwound, AllMove, Moved;
      match s {
        case Raise(handler) =>
          NotNone();
          var found := ApplyRaise(handler);
          NotNone();
        case Preempt =>
          PushFrame();
          AtRest();
        case Resume =>
          FrameFirst();
          PopFrame();
          NotNone();
        case Collect(rho, code', replica) =>
          AllInCode(rho, code');
          Replicate(rho, code', replica);
          AtRest();
        case _ => TakeOpcode(s);
      }
    }

    lemma OwnYregs()
      requires Runs()
      ensures Ys(acts) <= live
    {
    }

    lemma AtRest()
      requires Rests()
      ensures !running
    {
    }

    lemma FrameFirst()
      requires Rests() && stack != []
      ensures stack[0].abstraction.Some?
    {
    }

    lemma AllInCode(rho: map<Abstraction, Abstraction>, code': map<Abstraction, CallInfo>)
      requires Rests() && forall a <- code :: a in rho && rho[a] in code'
      ensures AllMove(Move(code, rho, code'), acts) && Ys(acts) <= live
    {
    }

    /** A run: while the thread lives and the next step is possible, each does to the activations what it should. */
    method Execute(steps: seq<Step>) returns (n: nat, ghost views: seq<View>)
      requires Good()
      modifies this
      ensures Good() && n <= |steps| && (n < |steps| ==> terminated || !Possible(steps[n]))
      ensures |views| == n + 1 && views[0] == old(Now()) && views[n] == Now()
      ensures forall i | 0 <= i < n :: Does(steps[i], views[i], views[i + 1])
    {
      hide Good, Does;
      n, views := 0, [Now()];
      while n < |steps| && !terminated && Possible(steps[n])
        invariant Good() && n <= |steps| && |views| == n + 1 && views[0] == old(Now()) && views[n] == Now()
        invariant forall i | 0 <= i < n :: Does(steps[i], views[i], views[i + 1])
      {
        Take(steps[n]);
        n, views := n + 1, views + [Now()];
      }
    }
  }
}
