/** The code block a builtin gets so that it can be called as a procedure, and the emulator running it. */
module BuiltinCode {

  type ByteCode = n: int | 0 <= n < 0x1_0000

  datatype Param = In | Out

  const OP_CALL_BUILTIN_0: ByteCode := 0x20
  const OP_CALL_BUILTIN_N: ByteCode := 0x26
  const OP_RETURN: ByteCode := 0x40
  const OP_UNIFY_XX: ByteCode := 0x50

  /** A number stored as a byte code is cut at 16 bits. */
  function Cut(n: nat): ByteCode {
    n % 0x1_0000
  }

  function CallOp(arity: nat): ByteCode {
    if arity <= 5 then OP_CALL_BUILTIN_0 + arity else OP_CALL_BUILTIN_N
  }

  /** The opcode, K(0), and the arity if the opcode does not say it. */
  function Head(arity: nat): seq<ByteCode> {
    if arity <= 5 then [CallOp(arity), 0] else [CallOp(arity), 0, Cut(arity)]
  }

  /** The X register of a parameter: outputs go behind the arguments. */
  function ArgOf(params: seq<Param>, i: nat): nat
    requires i < |params|
  {
    if params[i].In? then i else i + |params|
  }

  function Args(params: seq<Param>): (args: seq<ByteCode>)
    ensures |args| == |params| && forall i | 0 <= i < |params| :: args[i] == Cut(ArgOf(params, i))
  {
    seq(|params|, i requires 0 <= i < |params| => Cut(ArgOf(params, i)))
  }

  /** The unifications of the first i parameters that are outputs. */
  function Unifies(params: seq<Param>, i: nat): seq<ByteCode>
    requires i <= |params|
  {
    if i == 0 then []
    else Unifies(params, i - 1) + if params[i - 1].Out? then [OP_UNIFY_XX, Cut(i - 1), Cut(i - 1 + |params|)] else []
  }

  function Block(params: seq<Param>): seq<ByteCode> {
    Head(|params|) + Args(params) + Unifies(params, |params|) + [OP_RETURN]
  }

  /** No register is cut. */
  predicate Fits(params: seq<Param>) {
    |params| < 0x1_0000 && forall i | 0 <= i < |params| && params[i].Out? :: i + |params| < 0x1_0000
  }

  /** The block names the registers it means exactly when they fit. */
  lemma CutExactly(params: seq<Param>)
    requires |params| < 0x1_0000
    ensures Fits(params) <==> forall i | 0 <= i < |params| :: Args(params)[i] == ArgOf(params, i)
  {
    forall i | 0 <= i < |params|
      ensures Args(params)[i] == ArgOf(params, i) <==> params[i].In? || i + |params| < 0x1_0000
    {
      assert Args(params)[i] == Cut(ArgOf(params, i));
    }
    if forall i | 0 <= i < |params| :: Args(params)[i] == ArgOf(params, i) {
      forall i | 0 <= i < |params| && params[i].Out? ensures i + |params| < 0x1_0000 {
        assert Args(params)[i] == ArgOf(params, i);
      }
    }
  }

  class BaseBuiltin {
    const params: seq<Param>
    var codeBlock: array?<ByteCode>

    constructor (params: seq<Param>)
      ensures this.params == params && codeBlock == null
    {
      this.params, codeBlock := params, null;
    }

    ghost predicate Valid()
      reads this, codeBlock
    {
      codeBlock != null ==> codeBlock[..] == Block(params)
    }

    /** The size of the code block, computed first. */
    method BlockSize() returns (count: nat)
      ensures count == |Block(params)|
    {
      count := 1 + 1 + if |params| > 5 then 1 else 0;
      count := count + |params|;
      var i := 0;
      while i < |params|
        invariant i <= |params| && count == |Head(|params|)| + |params| + |Unifies(params, i)|
      {
        if params[i].Out? {
          count := count + 1 + 2;
        }
        i := i + 1;
      }
      count := count + 1;
    }

    /** The opcode and what it takes before the arguments. */
    method FillHead(block: array<ByteCode>) returns (index: nat)
      requires block.Length >= |Head(|params|)|
      modifies block
      ensures index == |Head(|params|)| && block[..index] == Head(|params|)
    {
      block[0] := CallOp(|params|);
      block[1] := 0;
      index := 2;
      if |params| > 5 {
        block[index] := Cut(|params|);
        index := index + 1;
      }
    }

    method FillArgs(block: array<ByteCode>, start: nat) returns (index: nat)
      requires start + |params| <= block.Length
      modifies block
      ensures index == start + |params| && block[..index] == old(block[..start]) + Args(params)
    {
      index := start;
      ghost var args := Args(params);
      var i := 0;
      while i < |params|
        invariant i <= |params| && index == start + i && block[..index] == old(block[..start]) + args[..i]
      {
        block[index] := Cut(if params[i].In? then i else i + |params|);
        index := index + 1;
        i := i + 1;
      }
    }

    /** The unifications with the outputs. */
    method FillUnifies(block: array<ByteCode>, start: nat) returns (index: nat)
      requires start + |Unifies(params, |params|)| <= block.Length
      modifies block
      ensures index == start + |Unifies(params, |params|)|
      ensures block[..index] == old(block[..start]) + Unifies(params, |params|)
    {
      index := start;
      var i := 0;
      while i < |params|
        invariant i <= |params| && index == start + |Unifies(params, i)| <= block.Length
        invariant block[..index] == old(block[..start]) + Unifies(params, i)
      {
        UnifiesGrow(params, i + 1);
        if params[i].Out? {
          index := FillUnify(block, index, i);
        }
        i := i + 1;
      }
    }

    method FillUnify(block: array<ByteCode>, start: nat, i: nat) returns (index: nat)
      requires start + 3 <= block.Length
      modifies block
      ensures index == start + 3 && block[..index] == old(block[..start]) + [OP_UNIFY_XX, Cut(i), Cut(i + |params|)]
    {
      block[start] := OP_UNIFY_XX;
      block[start + 1] := Cut(i);
      block[start + 2] := Cut(i + |params|);
      index := start + 3;
    }

    /** buildCodeBlock: the block is filled from its start, and ends where its size says. */
    method BuildCodeBlock()
      requires codeBlock == null
      modifies `codeBlock
      ensures codeBlock != null && fresh(codeBlock) && Valid() && (Fits(params) ==> IsBlock(params, codeBlock[..]))
    {
      if Fits(params) { BlockIs(params); }
      hide IsBlock;
      var count := BlockSize();
      var block := new ByteCode[count];
      var index := FillHead(block);
      index := FillArgs(block, index);
      index := FillUnifies(block, index);
      block[index] := OP_RETURN;
      index := index + 1;
      assert index == count;
      assert block[..] == block[..index];
      codeBlock := block;
    }

    /** getCallInfo: the block is built when it is first needed. */
    method GetCallInfo() returns (arity: nat, start: array<ByteCode>, xcount: nat)
      requires Valid()
      modifies `codeBlock
      ensures Valid() && codeBlock == start && (old(codeBlock) != null ==> codeBlock == old(codeBlock))
      ensures arity == |params| && xcount == 2 * |params| && start[..] == Block(params)
    {
      if codeBlock == null {
        BuildCodeBlock();
      }
      arity, start, xcount := |params|, codeBlock, 2 * |params|;
    }
  }

  // --------------------------------------------------------------- the block, place by place

  /** How many of the first i parameters are outputs. */
  function Outs(params: seq<Param>, i: nat): nat
    requires i <= |params|
  {
    if i == 0 then 0 else Outs(params, i - 1) + if params[i - 1].Out? then 1 else 0
  }

  lemma {:induction false} UnifiesLength(params: seq<Param>, i: nat)
    requires i <= |params|
    ensures |Unifies(params, i)| == 3 * Outs(params, i)
  {
    if i > 0 {
      UnifiesLength(params, i - 1);
    }
  }

  /** Where the arguments begin: behind the opcode and K(0), and behind the arity if the opcode does not say it. */
  function ArgsAt(n: nat): nat {
    if n <= 5 then 2 else 3
  }

  /**
   * The block of parameters that fit: the call; x(i) for an input and x(i + arity) for an output; for each output a
   * unification of x(i) with x(i + arity), one after the other; and the return.
   */
  ghost predicate IsBlock(params: seq<Param>, code: seq<ByteCode>) {
    var (n, h) := (|params|, ArgsAt(|params|));
    && |code| == h + n + 3 * Outs(params, n) + 1
    && code[0] == (if n <= 5 then OP_CALL_BUILTIN_0 + n else OP_CALL_BUILTIN_N) && code[1] == 0 &&
       (n > 5 ==> code[2] == n)
    && (forall i | 0 <= i < n :: code[h + i] as int == if params[i].In? then i else i + n)
    && (forall i | 0 <= i < n && params[i].Out? :: UnifiesAt(code, h + n + 3 * Outs(params, i), i, i + n))
    && code[|code| - 1] == OP_RETURN
  }

  ghost predicate UnifiesAt(code: seq<ByteCode>, p: nat, i: nat, j: nat) {
    p + 3 < |code| && code[p] == OP_UNIFY_XX && code[p + 1] as int == i && code[p + 2] as int == j
  }

  function Start(params: seq<Param>, i: nat): nat
    requires i <= |params|
  {
    |Head(|params|)| + |params| + |Unifies(params, i)|
  }

  lemma UnifyAt(params: seq<Param>, i: nat)
    requires Fits(params) && i < |params| && params[i].Out?
    ensures var (p, code) := (Start(params, i), Block(params));
      && Start(params, i + 1) == p + 3 && p + 3 < |code|
      && code[p] == OP_UNIFY_XX && code[p + 1] == i && code[p + 2] == i + |params|
  {
    var n := |params|;
    UnifiesPrefix(params, i + 1);
    var (front, all) := (Head(n) + Args(params), Unifies(params, n));
    assert Block(params) == front + all + [OP_RETURN];
    assert all[..|Unifies(params, i + 1)|] == Unifies(params, i) + [OP_UNIFY_XX, Cut(i), Cut(i + n)];
    var (p, u) := (Start(params, i), |Unifies(params, i)|);
    assert Block(params)[p] == all[u] && Block(params)[p + 1] == all[u + 1] && Block(params)[p + 2] == all[u + 2];
    var first := all[..u + 3];
    assert all[u] == first[u] && all[u + 1] == first[u + 1] && all[u + 2] == first[u + 2];
  }

  lemma {:induction false} UnifiesPrefix(params: seq<Param>, i: nat)
    requires i <= |params|
    ensures Unifies(params, i) <= Unifies(params, |params|)
    decreases |params| - i
  {
    if i < |params| {
      UnifiesPrefix(params, i + 1);
    }
  }

  lemma BlockStarts(params: seq<Param>)
    requires Fits(params)
    ensures var (n, code) := (|params|, Block(params));
      && |code| == Start(params, n) + 1 && code[0] == CallOp(n) && code[1] == 0 && (n > 5 ==> code[2] == n)
      && code[Start(params, n)] == OP_RETURN && Start(params, 0) <= Start(params, n)
    ensures Start(params, 0) == |Head(|params|)| + |params| && |Head(|params|)| == if |params| > 5 then 3 else 2
  {
    UnifiesPrefix(params, 0);
  }

  lemma OperandsAre(params: seq<Param>)
    requires Fits(params)
    ensures var (n, code) := (|params|, Block(params));
      var h := |Head(n)|;
      h + n <= |code| && forall k | h <= k < h + n :: code[k] as int == ArgOf(params, k - h)
  {
    CutExactly(params);
    var (n, code) := (|params|, Block(params));
    var h := |Head(n)|;
    forall k | h <= k < h + n ensures code[k] as int == ArgOf(params, k - h) {
      assert code[k] == Args(params)[k - h];
    }
  }

  lemma BlockIs(params: seq<Param>)
    requires Fits(params)
    ensures IsBlock(params, Block(params))
  {
    hide Block, Unifies, Args, Head, Fits, UnifiesAt;
    var n := |params|;
    BlockStarts(params);
    OperandsAre(params);
    StartIs(params, n);
    forall i | 0 <= i < n && params[i].Out?
      ensures UnifiesAt(Block(params), ArgsAt(n) + n + 3 * Outs(params, i), i, i + n)
    {
      StartIs(params, i);
      UnifiesHere(params, i);
    }
  }

  lemma StartIs(params: seq<Param>, i: nat)
    requires i <= |params|
    ensures Start(params, i) == ArgsAt(|params|) + |params| + 3 * Outs(params, i)
  {
    UnifiesLength(params, i);
  }

  lemma UnifiesHere(params: seq<Param>, i: nat)
    requires Fits(params) && i < |params| && params[i].Out?
    ensures UnifiesAt(Block(params), Start(params, i), i, i + |params|)
  {
    hide Block, Start;
    UnifyAt(params, i);
  }

  lemma {:induction false} UnifiesGrow(params: seq<Param>, i: nat)
    requires i <= |params|
    ensures |Unifies(params, i)| <= |Unifies(params, |params|)|
    decreases |params| - i
  {
    if i < |params| {
      UnifiesGrow(params, i + 1);
    }
  }
}

/** The part of the emulator's loop that a builtin's code block needs. */
module BuiltinCall {
  import opened BuiltinCode

  /** How an operation on the store ends: with a new store, or in an exception or a suspension, which leave the loop. */
  datatype Reply<W, T> = Done(world: W, result: T) | Stopped(world: W)

  /** A builtin: what its entry point does with the arguments; of its results only those for outputs are stored. */
  datatype Builtin<!W, !V> = Builtin(params: seq<Param>, entry: (W, seq<V>) -> Reply<W, nat -> V>)

  datatype Outcome<W, V> = Returned(world: W, regs: seq<V>) | Left(world: W) | Stuck

  // --------------------------------------------------------------- what calling a builtin means

  /** The arguments: inputs from x(i), and the places behind them for outputs. */
  function Inputs<V>(params: seq<Param>, regs: seq<V>): (args: seq<V>)
    requires 2 * |params| <= |regs|
    ensures |args| == |params| && forall i | 0 <= i < |args| :: args[i] == regs[ArgOf(params, i)]
  {
    seq(|params|, i requires 0 <= i < |params| => regs[ArgOf(params, i)])
  }

  /** The registers after the call: the result for output i is in x(i + arity). */
  function WithOutputs<V>(params: seq<Param>, regs: seq<V>, out: nat -> V): (r: seq<V>)
    requires 2 * |params| <= |regs|
    ensures |r| == |regs|
  {
    var n := |params|;
    seq(|regs|, k requires 0 <= k < |regs| => if n <= k < 2 * n && params[k - n].Out? then out(k - n) else regs[k])
  }

  /** Each output is unified with its argument, in order. */
  function UnifyAll<W, V>(params: seq<Param>, unify: (W, V, V) -> Reply<W, bool>, world: W, regs: seq<V>,
                          i: nat): Reply<W, bool>
    requires i <= |params| && 2 * |params| <= |regs|
  {
    if i == 0 then Done(world, true)
    else
      var before := UnifyAll(params, unify, world, regs, i - 1);
      if before.Stopped? || params[i - 1].In? then before
      else
        match unify(before.world, regs[i - 1], regs[i - 1 + |params|])
        case Stopped(w) => Stopped(w)
        case Done(w, _) => Done(w, true)
  }

  /** A procedure call of a builtin. */
  function Meaning<W, V>(b: Builtin<W, V>, unify: (W, V, V) -> Reply<W, bool>, world: W, regs: seq<V>): Outcome<W, V>
    requires 2 * |b.params| <= |regs|
  {
    match b.entry(world, Inputs(b.params, regs))
    case Stopped(w) => Left(w)
    case Done(w, out) =>
      var after := WithOutputs(b.params, regs, out);
      match UnifyAll(b.params, unify, w, after, |b.params|)
      case Stopped(w') => Left(w')
      case Done(w', _) => Returned(w', after)
  }

  // --------------------------------------------------------------- the same, register by register

  /** The arguments of a call: x(i) for an input, and the place x(i + arity) for an output. */
  ghost predicate Arguments<V>(params: seq<Param>, regs: seq<V>, args: seq<V>)
    requires 2 * |params| <= |regs|
  {
    && |args| == |params|
    && forall i {:trigger args[i]} | 0 <= i < |args| :: args[i] == if params[i].In? then regs[i] else regs[i + |params|]
  }

  /** The results of a call are in x(i + arity) for the outputs, and every other register is as it was. */
  ghost predicate Stores<V>(params: seq<Param>, regs: seq<V>, out: nat -> V, after: seq<V>)
    requires 2 * |params| <= |regs|
  {
    && |after| == |regs|
    && (forall i | 0 <= i < |params| :: after[i] == regs[i])
    && (forall i | 0 <= i < |params| :: after[i + |params|] == if params[i].Out? then out(i) else regs[i + |params|])
    && (forall k | 2 * |params| <= k < |regs| :: after[k] == regs[k])
  }

  /** The stores between unifications: those of x(j) with x(j + arity) for the first i parameters that are outputs. */
  ghost predicate Unified<W, V>(params: seq<Param>, unify: (W, V, V) -> Reply<W, bool>, regs: seq<V>, i: nat,
                                ws: seq<W>)
    requires i <= |params| && 2 * |params| <= |regs|
  {
    |ws| == i + 1 && forall j | 0 <= j < i :: UnifiedOne(params, unify, regs, j, ws[j], ws[j + 1])
  }

  ghost predicate UnifiedOne<W, V>(params: seq<Param>, unify: (W, V, V) -> Reply<W, bool>, regs: seq<V>, j: nat, w: W,
                                   w': W)
    requires j < |params| && 2 * |params| <= |regs|
  {
    if params[j].In? then w' == w
    else var reply := unify(w, regs[j], regs[j + |params|]); reply.Done? && reply.world == w'
  }

  /** All outputs are unified one after the other, or the first that is not stops it. */
  lemma {:induction false} UnifyInOrder<W, V>(params: seq<Param>, unify: (W, V, V) -> Reply<W, bool>, world: W,
                                              regs: seq<V>, i: nat) returns (ws: seq<W>, j: nat)
    requires i <= |params| && 2 * |params| <= |regs|
    ensures j <= i && Unified(params, unify, regs, j, ws) && ws[0] == world
    ensures j == i ==> UnifyAll(params, unify, world, regs, i) == Done(ws[i], true)
    ensures j < i ==>
      && params[j].Out? && unify(ws[j], regs[j], regs[j + |params|]).Stopped?
      && UnifyAll(params, unify, world, regs, i) == Stopped(unify(ws[j], regs[j], regs[j + |params|]).world)
  {
    if i == 0 {
      ws, j := [world], 0;
    } else {
      ws, j := UnifyInOrder(params, unify, world, regs, i - 1);
      if j == i - 1 {
        if params[j].In? {
          ws, j := ws + [ws[j]], i;
        } else {
          var reply := unify(ws[j], regs[j], regs[j + |params|]);
          if reply.Done? { ws, j := ws + [reply.world], i; }
        }
      }
    }
  }

  /** What a call means, register by register. */
  lemma CallMeans<W, V>(b: Builtin<W, V>, unify: (W, V, V) -> Reply<W, bool>, world: W, regs: seq<V>, args: seq<V>,
                        after: seq<V>) returns (ws: seq<W>, j: nat)
    requires 2 * |b.params| <= |regs| && Arguments(b.params, regs, args)
    requires b.entry(world, args).Done? ==> Stores(b.params, regs, b.entry(world, args).result, after)
    ensures b.entry(world, args).Stopped? ==> Meaning(b, unify, world, regs) == Left(b.entry(world, args).world)
    ensures b.entry(world, args).Done? ==>
      var n := |b.params|;
      && |after| == |regs| && j <= n && Unified(b.params, unify, after, j, ws) && ws[0] == b.entry(world, args).world
      && (j == n ==> Meaning(b, unify, world, regs) == Returned(ws[n], after))
      && (j < n ==>
            && b.params[j].Out? && unify(ws[j], after[j], after[j + n]).Stopped?
            && Meaning(b, unify, world, regs) == Left(unify(ws[j], after[j], after[j + n]).world))
  {
    ws, j := [], 0;
    ArgumentsAre(b.params, regs, args);
    var reply := b.entry(world, args);
    if reply.Done? {
      StoresAre(b.params, regs, reply.result, after);
      ws, j := UnifyInOrder(b.params, unify, reply.world, after, |b.params|);
    }
  }

  lemma ArgumentsAre<V>(params: seq<Param>, regs: seq<V>, args: seq<V>)
    requires 2 * |params| <= |regs| && Arguments(params, regs, args)
    ensures args == Inputs(params, regs)
  {
    forall i | 0 <= i < |params| ensures args[i] == Inputs(params, regs)[i] {
    }
  }

  lemma StoresAre<V>(params: seq<Param>, regs: seq<V>, out: nat -> V, after: seq<V>)
    requires 2 * |params| <= |regs| && Stores(params, regs, out, after)
    ensures after == WithOutputs(params, regs, out)
  {
    var n := |params|;
    forall k | 0 <= k < |regs| ensures after[k] == WithOutputs(params, regs, out)[k] {
      if n <= k < 2 * n {
        assert after[k - n + n] == if params[k - n].Out? then out(k - n) else regs[k - n + n];
      }
    }
  }

  lemma {:induction false} StoppedStays<W, V>(params: seq<Param>, unify: (W, V, V) -> Reply<W, bool>, world: W,
                                              regs: seq<V>, i: nat)
    requires i <= |params| && 2 * |params| <= |regs| && UnifyAll(params, unify, world, regs, i).Stopped?
    ensures UnifyAll(params, unify, world, regs, |params|) == UnifyAll(params, unify, world, regs, i)
    decreases |params| - i
  {
    if i < |params| {
      StoppedStays(params, unify, world, regs, i + 1);
    }
  }

  // --------------------------------------------------------------- the emulator

  /** callBuiltin: the arguments are registers, by reference. */
  method CallBuiltin<W, V>(b: Builtin<W, V>, world: W, regs: seq<V>, args: seq<nat>) returns (outcome: Outcome<W, V>)
    requires |args| == |b.params| && forall i | 0 <= i < |args| :: args[i] < |regs|
    ensures 2 * |b.params| <= |regs| && (forall i | 0 <= i < |args| :: args[i] == ArgOf(b.params, i)) ==>
      var reply := b.entry(world, Inputs(b.params, regs));
      outcome == if reply.Stopped? then Left(reply.world)
        else Returned(reply.world, WithOutputs(b.params, regs, reply.result))
    ensures outcome.Returned? ==> |outcome.regs| == |regs|
    ensures !outcome.Stuck?
  {
    ghost var ok := 2 * |b.params| <= |regs| && forall i | 0 <= i < |args| :: args[i] == ArgOf(b.params, i);
    var values := seq(|args|, i requires 0 <= i < |args| => regs[args[i]]);
    assert ok ==> values == Inputs(b.params, regs);
    var reply := b.entry(world, values);
    if reply.Stopped? {
      return Left(reply.world);
    }
    var (after, i, n) := (regs, 0, |args|);
    while i < n
      invariant i <= n && |after| == |regs|
      invariant ok ==> forall k | 0 <= k < |regs| ::
        after[k] == if n <= k < n + i && b.params[k - n].Out? then reply.result(k - n) else regs[k]
    {
      if b.params[i].Out? {
        after := after[args[i] := reply.result(i)];
      }
      i := i + 1;
    }
    outcome := Returned(reply.world, after);
    assert ok ==> after == WithOutputs(b.params, regs, reply.result);
  }

  /** Where a run of a block is: the outputs before the i-th have been unified. */
  ghost predicate At<W, V>(b: Builtin<W, V>, unify: (W, V, V) -> Reply<W, bool>, world: W, regs: seq<V>,
                           pc: nat, now: W, after: seq<V>, i: nat)
    requires 2 * |b.params| <= |regs|
  {
    var reply := b.entry(world, Inputs(b.params, regs));
    && i <= |b.params| && pc == Start(b.params, i) && reply.Done? && after == WithOutputs(b.params, regs, reply.result)
    && UnifyAll(b.params, unify, reply.world, after, i) == Done(now, true)
  }

  /** The next parameter that is an output, or the end. */
  lemma {:induction false} NextOut<W, V>(b: Builtin<W, V>, unify: (W, V, V) -> Reply<W, bool>, world: W, regs: seq<V>,
                                         pc: nat, now: W, after: seq<V>, i: nat) returns (j: nat)
    requires 2 * |b.params| <= |regs| && At(b, unify, world, regs, pc, now, after, i)
    ensures At(b, unify, world, regs, pc, now, after, j) && (j < |b.params| ==> b.params[j].Out?)
    decreases |b.params| - i
  {
    j := i;
    if i < |b.params| && b.params[i].In? {
      j := NextOut(b, unify, world, regs, pc, now, after, i + 1);
    }
  }

  /** The operands of an OpCallBuiltin: the registers, if K is 0 and their number is the arity. */
  method Operands(code: seq<ByteCode>, pc: nat, ghost params: seq<Param>, arity: nat)
    returns (next: nat, args: seq<nat>, valid: bool)
    requires pc < |code| && OP_CALL_BUILTIN_0 <= code[pc] <= OP_CALL_BUILTIN_N
    ensures next > pc && (valid ==> |args| == arity)
    ensures Fits(params) && arity == |params| && code == Block(params) && pc == 0 ==>
      valid && next == Start(params, 0) && forall i | 0 <= i < |args| :: args[i] == ArgOf(params, i)
  {
    ghost var ok := Fits(params) && arity == |params| && code == Block(params) && pc == 0;
    if ok {
      BlockStarts(params);
      OperandsAre(params);
    }
    hide Block, Fits, ArgOf, Args, Head, Start, Unifies;
    var many := code[pc] == OP_CALL_BUILTIN_N;
    if |code| <= pc + 2 && (many || code[pc] != OP_CALL_BUILTIN_0) {
      return pc + 1, [], false;
    }
    var argc: nat := if many then code[pc + 2] else code[pc] - OP_CALL_BUILTIN_0;
    var first := if many then pc + 3 else pc + 2;
    next := first + argc;
    if |code| < next || code[pc + 1] != 0 || argc != arity {
      return next, [], false;
    }
    args, valid := seq(argc, i requires 0 <= i < argc => code[first + i] as nat), true;
  }

  /** One OpCallBuiltin: the builtin is called on the registers its operands name. */
  method CallOpcode<W, V>(b: Builtin<W, V>, code: seq<ByteCode>, pc: nat, world: W, regs: seq<V>)
    returns (next: nat, outcome: Outcome<W, V>)
    requires pc < |code| && OP_CALL_BUILTIN_0 <= code[pc] <= OP_CALL_BUILTIN_N
    ensures next > pc && (outcome.Returned? ==> |outcome.regs| == |regs|)
    ensures Fits(b.params) && 2 * |b.params| <= |regs| && code == Block(b.params) && pc == 0 ==>
      var reply := b.entry(world, Inputs(b.params, regs));
      && next == Start(b.params, 0)
      && outcome == if reply.Stopped? then Left(reply.world)
         else Returned(reply.world, WithOutputs(b.params, regs, reply.result))
  {
    hide WithOutputs, Inputs, Block, Fits, Start;
    var args, valid;
    next, args, valid := Operands(code, pc, b.params, |b.params|);
    if !valid || exists a <- args :: a >= |regs| {
      return next, Stuck;
    }
    assert forall i | 0 <= i < |args| :: args[i] in args;
    outcome := CallBuiltin(b, world, regs, args);
  }

  /** A run of a block is about to unify the i-th parameter. */
  ghost predicate AtOut<W, V>(b: Builtin<W, V>, unify: (W, V, V) -> Reply<W, bool>, code: seq<ByteCode>, world: W,
                              regs: seq<V>, pc: nat, now: W, after: seq<V>, i: nat)
  {
    && Fits(b.params) && 2 * |b.params| <= |regs| == |after| && code == Block(b.params)
    && At(b, unify, world, regs, pc, now, after, i) && i < |b.params| && b.params[i].Out?
  }

  /** One OpUnifyXX. */
  method UnifyOpcode<W, V>(b: Builtin<W, V>, unify: (W, V, V) -> Reply<W, bool>, code: seq<ByteCode>, pc: nat, now: W,
                           after: seq<V>, ghost world: W, ghost regs: seq<V>, ghost i: nat)
    returns (outcome: Outcome<W, V>)
    requires pc < |code| && code[pc] == OP_UNIFY_XX
    ensures outcome.Returned? ==> outcome.regs == after
    ensures AtOut(b, unify, code, world, regs, pc, now, after, i) ==>
      if outcome.Returned? then At(b, unify, world, regs, pc + 3, outcome.world, after, i + 1)
      else outcome == Meaning(b, unify, world, regs)
  {
    hide Block, Inputs, WithOutputs, Fits;
    ghost var ok := AtOut(b, unify, code, world, regs, pc, now, after, i);
    if ok {
      UnifyAt(b.params, i);
    }
    if |code| <= pc + 2 || code[pc + 1] >= |after| || code[pc + 2] >= |after| {
      return Stuck;
    }
    var reply := unify(now, after[code[pc + 1]], after[code[pc + 2]]);
    if reply.Stopped? {
      if ok {
        StoppedStays(b.params, unify, b.entry(world, Inputs(b.params, regs)).world, after, i + 1);
      }
      return Left(reply.world);
    }
    outcome := Returned(reply.world, after);
  }

  /** The next opcode of a block, once the builtin has been called. */
  lemma NextOpcode(params: seq<Param>, j: nat)
    requires Fits(params) && j <= |params| && (j < |params| ==> params[j].Out?)
    ensures Start(params, j) < |Block(params)|
    ensures Block(params)[Start(params, j)] == if j < |params| then OP_UNIFY_XX else OP_RETURN
  {
    if j < |params| {
      UnifyAt(params, j);
    } else {
      BlockStarts(params);
    }
  }

  /** The emulator's loop on a builtin's procedure, from the start of its code block to its return. */
  method Run<W, V>(b: Builtin<W, V>, unify: (W, V, V) -> Reply<W, bool>, code: seq<ByteCode>, world: W, regs: seq<V>)
    returns (outcome: Outcome<W, V>)
    ensures Fits(b.params) && 2 * |b.params| <= |regs| && code == Block(b.params) ==>
      outcome == Meaning(b, unify, world, regs)
  {
    ghost var ok := Fits(b.params) && 2 * |b.params| <= |regs| && code == Block(b.params);
    var pc: nat, now, after := 0, world, regs;
    ghost var i := 0;
    if ok {
      BlockStarts(b.params);
    }
    hide Fits, Block, Start, Inputs, WithOutputs;
    while pc < |code|
      invariant |after| == |regs|
      invariant ok ==> if pc == 0 then now == world && after == regs && i == 0
        else At(b, unify, world, regs, pc, now, after, i)
      decreases |code| - pc
    {
      if ok && pc > 0 {
        i := NextOut(b, unify, world, regs, pc, now, after, i);
        NextOpcode(b.params, i);
      }
      if OP_CALL_BUILTIN_0 <= code[pc] <= OP_CALL_BUILTIN_N {
        var next, called := CallOpcode(b, code, pc, now, after);
        if !called.Returned? {
          return called;
        }
        pc, now, after := next, called.world, called.regs;
      } else if code[pc] == OP_UNIFY_XX {
        var unified := UnifyOpcode(b, unify, code, pc, now, after, world, regs, i);
        if !unified.Returned? {
          return unified;
        }
        pc, now, i := pc + 3, unified.world, i + 1;
      } else if code[pc] == OP_RETURN {
        return Returned(now, after);
      } else {
        return Stuck;
      }
    }
    if ok && pc > 0 {
      i := NextOut(b, unify, world, regs, pc, now, after, i);
      NextOpcode(b.params, i);
    }
    outcome := Stuck;
  }
}
