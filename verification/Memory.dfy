/** The bump allocator with free lists. */
module Memory {

  /** The range of size_t. */
  const WORDS: int := 0x1_0000_0000_0000_0000
  const GRANULARITY: nat := 16
  const MAX_BUCKETS: nat := 65
  /** The bytes of the pointer that links a free block. */
  const LINK: nat := 8

  /** bucketFor, in the arithmetic of size_t. */
  function BucketFor(size: nat): nat {
    (size + (GRANULARITY - 1)) % WORDS / GRANULARITY
  }

  /** The chunk of a size is large enough exactly when rounding up does not leave the range of size_t. */
  lemma ChunkLargeEnough(size: nat)
    requires 0 < size < WORDS
    ensures size <= BucketFor(size) * GRANULARITY <==> size + (GRANULARITY - 1) < WORDS
    ensures size + (GRANULARITY - 1) < WORDS ==>
      0 < BucketFor(size) && BucketFor(size) * GRANULARITY < size + GRANULARITY
  {
    if size + (GRANULARITY - 1) >= WORDS {
      assert (size + (GRANULARITY - 1)) % WORDS == size + (GRANULARITY - 1) - WORDS;
    }
  }

  /** The test of getMemory, in the arithmetic of size_t. */
  predicate NeedsMore(used: nat, size: nat, blockSize: nat) {
    (used + size) % WORDS > blockSize
  }

  /** The test is right exactly when the sum does not leave the range of size_t and then come out small. */
  lemma NeedsMoreExactly(used: nat, size: nat, blockSize: nat)
    requires used <= blockSize < WORDS && size < WORDS
    ensures (NeedsMore(used, size, blockSize) <==> used + size > blockSize) <==>
      used + size < WORDS || used + size - WORDS > blockSize
  {
    if used + size >= WORDS {
      assert (used + size) % WORDS == used + size - WORDS;
    }
  }

  /** Stretches of memory, by their addresses: their lengths. */
  type Spans = map<nat, nat>

  predicate Apart(a: nat, n: nat, b: nat, m: nat) {
    a + n <= b || b + m <= a
  }

  ghost predicate AllApart(spans: Spans) {
    && (forall a <- spans :: a > 0 && spans[a] > 0)
    && forall a, b | a in spans && b in spans && a != b :: Apart(a, spans[a], b, spans[b])
  }

  ghost predicate FreshFor(spans: Spans, a: nat, n: nat) {
    a > 0 && forall b <- spans :: Apart(a, n, b, spans[b])
  }

  lemma WithSpan(spans: Spans, a: nat, n: nat)
    requires AllApart(spans) && FreshFor(spans, a, n) && n > 0
    ensures a !in spans && AllApart(spans[a := n])
  {
    if a in spans {
      assert false;
    }
  }

  function NextIn(list: seq<nat>, i: nat): nat {
    if i + 1 < |list| then list[i + 1] else 0
  }

  /** A free list, from its head. */
  ghost predicate Linked(memory: map<nat, nat>, head: nat, list: seq<nat>) {
    && head == (if list == [] then 0 else list[0])
    && forall i | 0 <= i < |list| :: list[i] in memory && memory[list[i]] == NextIn(list, i)
  }

  ghost predicate NoDuplicates(list: seq<nat>) {
    forall i, j | 0 <= i < j < |list| :: list[i] != list[j]
  }

  /** The free blocks of a bucket: chunks of its size. */
  ghost predicate BucketOk(spans: Spans, memory: map<nat, nat>, head: nat, list: seq<nat>, bucket: nat) {
    && Linked(memory, head, list) && NoDuplicates(list)
    && forall a <- list :: a in spans && spans[a] == bucket * GRANULARITY
  }

  lemma Popped(spans: Spans, memory: map<nat, nat>, head: nat, list: seq<nat>, bucket: nat)
    requires BucketOk(spans, memory, head, list, bucket) && head != 0
    ensures list != [] && head == list[0] && head in memory && head in spans && spans[head] == bucket * GRANULARITY
    ensures BucketOk(spans, memory, memory[head], list[1..], bucket) && head !in list[1..]
  {
    var rest := list[1..];
    forall i | 0 <= i < |rest| ensures rest[i] in memory && memory[rest[i]] == NextIn(rest, i) {
      assert rest[i] == list[i + 1] && NextIn(rest, i) == NextIn(list, i + 1);
    }
  }

  lemma Pushed(spans: Spans, memory: map<nat, nat>, head: nat, list: seq<nat>, bucket: nat, a: nat)
    requires BucketOk(spans, memory, head, list, bucket) && a !in list && a in spans && spans[a] == bucket * GRANULARITY
    ensures BucketOk(spans, memory[a := head], a, [a] + list, bucket)
  {
    var (m, l) := (memory[a := head], [a] + list);
    forall i | 0 <= i < |l| ensures l[i] in m && m[l[i]] == NextIn(l, i) {
      if i > 0 {
        assert l[i] == list[i - 1] && list[i - 1] in list && NextIn(l, i) == NextIn(list, i - 1);
      }
    }
  }

  /** Writing elsewhere, and spans of other blocks, leave a free list alone. */
  lemma BucketKept(spans: Spans, memory: map<nat, nat>, head: nat, list: seq<nat>, bucket: nat, spans': Spans,
                   memory': map<nat, nat>)
    requires BucketOk(spans, memory, head, list, bucket)
    requires forall a <- list :: a in spans' && spans'[a] == spans[a]
    requires forall a <- list :: a in memory ==> a in memory' && memory'[a] == memory[a]
    ensures BucketOk(spans', memory', head, list, bucket)
  {
    forall i | 0 <= i < |list| ensures list[i] in memory' && memory'[list[i]] == memory[list[i]] {
      assert list[i] in list;
    }
  }

  class MemoryManager {
    var nextBlock: nat
    var baseBlock: nat
    var blockSize: nat
    var used: nat
    var buckets: seq<nat>
    var allocatedInFreeList: nat
    var extraAllocs: seq<nat>
    var allocatedInExtra: nat

    /** The words that the free lists are threaded through. */
    var memory: map<nat, nat>

    /** All blocks, live or free; and the free ones of each bucket. */
    ghost var spans: Spans
    ghost var lists: seq<seq<nat>>

    ghost predicate IsFree(a: nat)
      reads `lists
    {
      exists b | 0 <= b < |lists| :: a in lists[b]
    }

    /** A block that has been handed out and not freed. */
    ghost predicate Live(a: nat)
      reads `spans, `lists
    {
      a in spans && !IsFree(a)
    }

    /** The rest of the base block is in no block. */
    ghost predicate RestFree()
      reads this
    {
      && nextBlock == baseBlock + used && used <= blockSize < WORDS && baseBlock > 0
      && forall a <- spans :: Apart(nextBlock, blockSize - used, a, spans[a])
    }

    ghost predicate ListsOk()
      reads this
    {
      && |lists| == |buckets| == MAX_BUCKETS
      && forall b | 0 <= b < MAX_BUCKETS :: BucketOk(spans, memory, buckets[b], lists[b], b)
    }

    ghost predicate Valid()
      reads this
    {
      AllApart(spans) && RestFree() && ListsOk() && allocatedInFreeList <= used + allocatedInExtra
    }

    /** init: everything handed out before is forgotten. The C library gives a new block if the size has changed. */
    constructor (heapSize: nat, base: nat)
      requires base > 0 && heapSize < WORDS
      ensures Valid() && spans == map[] && lists == seq(MAX_BUCKETS, _ => []) && used == 0 && blockSize == heapSize
    {
      nextBlock, baseBlock, blockSize, used := base, base, heapSize, 0;
      buckets := seq(MAX_BUCKETS, _ => 0);
      allocatedInFreeList, extraAllocs, allocatedInExtra := 0, [], 0;
      memory := map[];
      spans, lists := map[], seq(MAX_BUCKETS, _ => []);
    }

    /** What the C library's malloc gives is in no block, nor in the rest of the base block. */
    ghost predicate Outside(a: nat, n: nat)
      reads this
    {
      FreshFor(spans, a, n) && used <= blockSize && Apart(a, n, nextBlock, blockSize - used)
    }

    /** getMemory: from the rest of the base block, or from the C library; no memory is no block. */
    method GetMemory(size: nat, given: nat) returns (result: nat)
      requires Valid() && used + size < WORDS && (size > 0 ==> Outside(given, size))
      modifies this
      ensures Valid() && lists == old(lists) && memory == old(memory)
      ensures size > 0 ==> result !in old(spans) && spans == old(spans)[result := size]
      ensures size == 0 ==> spans == old(spans)
      ensures buckets == old(buckets) && allocatedInFreeList == old(allocatedInFreeList)
      ensures used + allocatedInExtra == old(used + allocatedInExtra) + size
      ensures baseBlock == old(baseBlock) && blockSize == old(blockSize)
    {
      if NeedsMore(used, size, blockSize) {
        result := GetMoreMemory(size, given);
      } else {
        result := nextBlock;
        Bump(size);
      }
    }

    /** Memory from the rest of the base block. */
    method Bump(size: nat)
      requires Valid() && size <= blockSize - used
      modifies `nextBlock, `used, `spans
      ensures Valid() && used == old(used) + size
      ensures if size == 0 then spans == old(spans) else old(nextBlock) !in old(spans)
      ensures size > 0 ==> spans == old(spans)[old(nextBlock) := size]
    {
      if size > 0 { SpanInRest(size); }
      nextBlock := nextBlock + size;
      used := used + size;
      if size > 0 { spans := spans[nextBlock - size := size]; }
      ListsKept(old(spans), memory);
    }

    lemma SpanInRest(size: nat)
      requires Valid() && 0 < size <= blockSize - used
      ensures FreshFor(spans, nextBlock, size) && nextBlock !in spans && AllApart(spans[nextBlock := size])
    {
      WithSpan(spans, nextBlock, size);
    }

    /** The lists are as they were, on other spans and words. */
    lemma ListsKept(was: Spans, had: map<nat, nat>)
      requires |lists| == |buckets| == MAX_BUCKETS
      requires forall b | 0 <= b < MAX_BUCKETS :: BucketOk(was, had, buckets[b], lists[b], b)
      requires forall b | 0 <= b < MAX_BUCKETS :: forall a <- lists[b] :: a in spans && a in was && spans[a] == was[a]
      requires forall b | 0 <= b < MAX_BUCKETS :: forall a <- lists[b] :: a in had ==>
        a in memory && memory[a] == had[a]
      ensures ListsOk()
    {
      forall b | 0 <= b < MAX_BUCKETS ensures BucketOk(spans, memory, buckets[b], lists[b], b) {
        BucketKept(was, had, buckets[b], lists[b], b, spans, memory);
      }
    }

    /** getMoreMemory. */
    method GetMoreMemory(size: nat, given: nat) returns (result: nat)
      requires Valid() && size > 0 && Outside(given, size)
      modifies `extraAllocs, `allocatedInExtra, `spans
      ensures Valid() && result == given && result !in old(spans) && spans == old(spans)[result := size]
      ensures allocatedInExtra == old(allocatedInExtra) + size
    {
      WithSpan(spans, given, size);
      extraAllocs := [given] + extraAllocs;
      allocatedInExtra := allocatedInExtra + size;
      spans := spans[given := size];
      ListsKept(old(spans), old(memory));
      result := given;
    }

    /** malloc, with what the C library's malloc would give if it is asked. */
    method Malloc(size: nat, given: nat) returns (result: nat)
      requires Valid() && size + (GRANULARITY - 1) < WORDS && used + size + GRANULARITY < WORDS
      requires Outside(given, size + GRANULARITY)
      modifies this
      ensures Valid()
      ensures size == 0 ==> result == 0 && spans == old(spans) && lists == old(lists)
      ensures size > 0 ==>
        && !old(Live(result)) && Live(result) && spans[result] >= size
        && (BucketFor(size) < MAX_BUCKETS ==> spans[result] == BucketFor(size) * GRANULARITY)
        && (forall a | a != result :: Live(a) == old(Live(a)))
        && (forall a | a in old(spans) :: a in spans && spans[a] == old(spans)[a])
      // A free block of the size is handed out again, the last freed first, and no memory is taken.
      ensures size > 0 && BucketFor(size) < MAX_BUCKETS && old(lists)[BucketFor(size)] != [] ==>
        && var b := BucketFor(size);
        && result == old(lists)[b][0] && lists == old(lists)[b := old(lists)[b][1..]]
        && spans == old(spans) && Allocated() == old(Allocated()) && allocatedInFreeList == old(allocatedInFreeList)
      // Without one a new chunk is taken, and a big block comes from the C library.
      ensures size > 0 && (BucketFor(size) < MAX_BUCKETS ==> old(lists)[BucketFor(size)] == []) ==>
        result !in old(spans) && lists == old(lists)
      ensures size > 0 && BucketFor(size) < MAX_BUCKETS && old(lists)[BucketFor(size)] == [] ==>
        && var chunk := BucketFor(size) * GRANULARITY;
        && spans == old(spans)[result := chunk] && Allocated() == old(Allocated()) + chunk
        && allocatedInFreeList == old(allocatedInFreeList) + chunk
      ensures size > 0 && BucketFor(size) >= MAX_BUCKETS ==>
        && result == given && spans == old(spans)[result := size]
        && Allocated() == old(Allocated()) && allocatedInFreeList == old(allocatedInFreeList)
    {
      if size == 0 {
        return 0;
      }
      ChunkLargeEnough(size);
      var bucket := BucketFor(size);
      HeadIs(bucket);
      if bucket < MAX_BUCKETS {
        if buckets[bucket] != 0 {
          result := TakeFree(bucket);
        } else {
          result := NewChunk(bucket, given);
        }
      } else {
        result := Foreign(size, given);
      }
    }

    /** The bytes handed out so far, from the base block and as further blocks. */
    ghost function Allocated(): nat
      reads `used, `allocatedInExtra
    {
      used + allocatedInExtra
    }

    lemma HeadIs(bucket: nat)
      requires ListsOk()
      ensures bucket < MAX_BUCKETS ==> (buckets[bucket] != 0 ==> lists[bucket] != [])
      ensures bucket < MAX_BUCKETS && AllApart(spans) ==> (lists[bucket] != [] ==> buckets[bucket] != 0)
    {
      if bucket < MAX_BUCKETS {
        assert BucketOk(spans, memory, buckets[bucket], lists[bucket], bucket);
        assert lists[bucket] != [] ==> lists[bucket][0] in lists[bucket];
      }
    }

    /** The first block of a free list. */
    method TakeFree(bucket: nat) returns (result: nat)
      requires Valid() && bucket < MAX_BUCKETS && buckets[bucket] != 0
      modifies `buckets, `lists
      ensures Valid() && old(IsFree(result)) && !IsFree(result)
      ensures result in spans && spans[result] == bucket * GRANULARITY
      ensures old(lists)[bucket] != [] && result == old(lists)[bucket][0]
      ensures lists == old(lists)[bucket := old(lists)[bucket][1..]]
      ensures forall a | a != result :: IsFree(a) == old(IsFree(a))
    {
      result := buckets[bucket];
      ghost var list := lists[bucket];
      Popped(spans, memory, result, list, bucket);
      OnlyIn(bucket, result);
      assert list == [result] + list[1..];
      buckets := buckets[bucket := memory[result]];
      lists := lists[bucket := list[1..]];
      FreeElsewhere(old(lists), bucket, result);
    }

    /** A free block is in the list of its size only. */
    lemma OnlyIn(bucket: nat, a: nat)
      requires ListsOk() && bucket < MAX_BUCKETS && a in lists[bucket]
      ensures forall b | 0 <= b < MAX_BUCKETS && a in lists[b] :: b == bucket
    {
      assert BucketOk(spans, memory, buckets[bucket], lists[bucket], bucket);
      forall b | 0 <= b < MAX_BUCKETS && a in lists[b] ensures b == bucket {
        assert BucketOk(spans, memory, buckets[b], lists[b], b);
      }
    }

    /** One list more or less by one block: what is free but for it. */
    lemma FreeElsewhere(was: seq<seq<nat>>, bucket: nat, a: nat)
      requires |was| == |lists| && bucket < |lists| && forall b | 0 <= b < |lists| && b != bucket :: lists[b] == was[b]
      requires forall x | x != a :: x in lists[bucket] <==> x in was[bucket]
      ensures forall x | x != a :: IsFree(x) <==> exists b | 0 <= b < |was| :: x in was[b]
    {
      forall x | x != a ensures IsFree(x) <==> exists b | 0 <= b < |was| :: x in was[b] {
        if IsFree(x) {
          var b :| 0 <= b < |lists| && x in lists[b];
          assert x in was[b];
        }
        if b :| 0 <= b < |was| && x in was[b] {
          assert x in lists[b];
        }
      }
    }

    /** A new chunk for a free list's size. */
    method NewChunk(bucket: nat, given: nat) returns (result: nat)
      requires Valid() && 0 < bucket < MAX_BUCKETS && used + bucket * GRANULARITY < WORDS &&
        Outside(given, bucket * GRANULARITY)
      modifies this
      ensures Valid() && result !in old(spans) && spans == old(spans)[result := bucket * GRANULARITY] &&
        lists == old(lists)
      ensures Allocated() == old(Allocated()) + bucket * GRANULARITY
      ensures allocatedInFreeList == old(allocatedInFreeList) + bucket * GRANULARITY
    {
      var chunkSize := bucket * GRANULARITY;
      result := GetMemory(chunkSize, given);
      allocatedInFreeList := allocatedInFreeList + chunkSize;
    }

    /** A big block comes from the C library. */
    method Foreign(size: nat, given: nat) returns (result: nat)
      requires Valid() && size > 0 && Outside(given, size)
      modifies `spans
      ensures Valid() && result == given && result !in old(spans) && spans == old(spans)[result := size] &&
        lists == old(lists)
    {
      WithSpan(spans, given, size);
      spans := spans[given := size];
      ListsKept(old(spans), memory);
      result := given;
    }

    /** free, of a live block with the size it was asked for. */
    method Free(ptr: nat, size: nat)
      requires Valid() && size + (GRANULARITY - 1) < WORDS
      requires size > 0 ==>
        Live(ptr) && spans[ptr] == if BucketFor(size) < MAX_BUCKETS then BucketFor(size) * GRANULARITY else size
      modifies `buckets, `lists, `memory, `spans
      ensures Valid()
      ensures size > 0 ==> !Live(ptr)
      ensures forall a | a != ptr || size == 0 :: Live(a) == old(Live(a))
      ensures forall a <- spans :: a in old(spans) && spans[a] == old(spans)[a]
      ensures size > 0 && BucketFor(size) < MAX_BUCKETS ==>
        && var b := BucketFor(size);
        && spans == old(spans) && lists == old(lists)[b := [ptr] + old(lists)[b]]
      ensures size > 0 && BucketFor(size) >= MAX_BUCKETS ==> spans == old(spans) - {ptr} && lists == old(lists)
      ensures size == 0 ==> spans == old(spans) && lists == old(lists)
    {
      if size == 0 {
        return;
      }
      var bucket := BucketFor(size);
      if bucket < MAX_BUCKETS {
        PutBack(ptr, bucket);
      } else {
        NotInLists(ptr);
        spans := spans - {ptr};
        ListsKept(old(spans), memory);
      }
    }

    lemma NotInLists(a: nat)
      requires ListsOk() && Live(a)
      ensures forall b | 0 <= b < MAX_BUCKETS :: a !in lists[b]
    {
    }

    /** A block becomes the first of its free list: its first word links it to the next. */
    method PutBack(ptr: nat, bucket: nat)
      requires Valid() && bucket < MAX_BUCKETS && Live(ptr) && spans[ptr] == bucket * GRANULARITY
      modifies `buckets, `lists, `memory
      ensures Valid() && IsFree(ptr) && forall a | a != ptr :: IsFree(a) == old(IsFree(a))
      ensures lists == old(lists)[bucket := [ptr] + old(lists)[bucket]]
    {
      NotInLists(ptr);
      ghost var (was, list) := (lists, lists[bucket]);
      Pushed(spans, memory, buckets[bucket], list, bucket, ptr);
      forall b | 0 <= b < MAX_BUCKETS && b != bucket
        ensures BucketOk(spans, memory[ptr := buckets[bucket]], buckets[b], lists[b], b)
      {
        BucketKept(spans, memory, buckets[b], lists[b], b, spans, memory[ptr := buckets[bucket]]);
      }
      memory := memory[ptr := buckets[bucket]];
      buckets := buckets[bucket := ptr];
      lists := lists[bucket := [ptr] + list];
      assert ptr in lists[bucket];
      FreeElsewhere(was, bucket, ptr);
    }

    /** The user of a live block writes a word in it: the free lists are not touched. */
    method Write(ptr: nat, at: nat, word: nat)
      requires Valid() && Live(ptr) && ptr <= at && at + LINK <= ptr + spans[ptr]
      modifies `memory
      ensures Valid() && memory == old(memory)[at := word]
    {
      memory := memory[at := word];
      WriteApart(ptr, at);
      ListsKept(spans, old(memory));
    }

    lemma WriteApart(ptr: nat, at: nat)
      requires AllApart(spans) && |lists| == MAX_BUCKETS && Live(ptr) && ptr <= at < ptr + spans[ptr]
      requires forall b | 0 <= b < MAX_BUCKETS :: forall a <- lists[b] :: a in spans
      ensures forall b | 0 <= b < MAX_BUCKETS :: at !in lists[b]
    {
      forall b, a | 0 <= b < MAX_BUCKETS && a in lists[b] ensures a != at {
        assert IsFree(a);
        assert Apart(a, spans[a], ptr, spans[ptr]);
      }
    }

    /** Two live blocks have no byte in common, nor has a live block with a free one. */
    lemma LiveApart(a: nat, b: nat)
      requires Valid() && a != b && (Live(a) || IsFree(a)) && (Live(b) || IsFree(b))
      ensures a in spans && b in spans && Apart(a, spans[a], b, spans[b])
    {
      if IsFree(a) { FreeIsSpan(a); }
      if IsFree(b) { FreeIsSpan(b); }
    }

    lemma FreeIsSpan(a: nat)
      requires ListsOk() && IsFree(a)
      ensures a in spans
    {
      var b :| 0 <= b < |lists| && a in lists[b];
      assert BucketOk(spans, memory, buckets[b], lists[b], b);
    }

    /** What the free lists have ever been given is part of what has been allocated. */
    method AllocatedOutsideFreeList() returns (bytes: nat)
      requires Valid()
      ensures bytes == used + allocatedInExtra - allocatedInFreeList
    {
      bytes := used + allocatedInExtra - allocatedInFreeList;
    }
  }
}
