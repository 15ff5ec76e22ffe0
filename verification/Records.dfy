/** Building records from fields in any order, and looking features up in them. */
module Records {
  import opened SearchOrder
  import opened Wrappers

  /** Features; of these only literals may be labels. */
  datatype Feature = SmallInt(i: int) | BigInt(j: int) | Literal(id: nat)

  /** What is given as a label or a feature. */
  datatype Term = Feat(f: Feature) | Other(node: nat)

  /** The atom '|'. */
  const PIPE := Feature.Literal(0)

  datatype Field<V> = Field(feature: Term, value: V)

  /** The representations of a record. */
  datatype Rec<V> =
    | Alone(tag: Feature)
    | Cons(head: V, tail: V)
    | Tuple(tag: Feature, elements: seq<V>)
    | Record(tag: Feature, features: seq<Feature>, elements: seq<V>)

  datatype Answer<V> = Built(r: Rec<V>) | LabelError | FeatureError(at: nat) | Duplicates(fields: seq<Field<V>>)

  /** compareFeatures: a total order that has the small integers in theirs. */
  ghost predicate Orders(cmp: (Feature, Feature) -> int) {
    IsTotalOrder(cmp) && forall a, b :: Less(cmp, SmallInt(a), SmallInt(b)) <==> a < b
  }

  predicate AllFeatures<V>(fs: seq<Field<V>>) {
    forall i | 0 <= i < |fs| :: fs[i].feature.Feat?
  }

  ghost predicate Distinct<V>(fs: seq<Field<V>>) {
    forall i, j | 0 <= i < j < |fs| :: fs[i].feature != fs[j].feature
  }

  ghost predicate Sorted<V>(cmp: (Feature, Feature) -> int, fs: seq<Field<V>>) {
    AllFeatures(fs) && forall i, j | 0 <= i < j < |fs| :: !Less(cmp, fs[j].feature.f, fs[i].feature.f)
  }

  /** In order, and no feature twice. */
  ghost predicate Rising(cmp: (Feature, Feature) -> int, fs: seq<Feature>) {
    forall i, j | 0 <= i < j < |fs| :: Less(cmp, fs[i], fs[j])
  }

  function FeaturesOf<V>(fs: seq<Field<V>>): (r: seq<Feature>)
    requires AllFeatures(fs)
    ensures |r| == |fs| && forall i | 0 <= i < |fs| :: r[i] == fs[i].feature.f
  {
    seq(|fs|, i requires 0 <= i < |fs| => fs[i].feature.f)
  }

  function ValuesOf<V>(fs: seq<Field<V>>): (r: seq<V>)
    ensures |r| == |fs| && forall i | 0 <= i < |fs| :: r[i] == fs[i].value
  {
    seq(|fs|, i requires 0 <= i < |fs| => fs[i].value)
  }

  // --------------------------------------------------------------- looking up

  function Find(fs: seq<Feature>, f: Feature): (r: Option<nat>)
    ensures r.Some? ==> r.value < |fs| && fs[r.value] == f
    ensures r.None? ==> f !in fs
  {
    if fs == [] then None
    else if fs[|fs| - 1] == f then Some(|fs| - 1)
    else
      assert fs == fs[..|fs| - 1] + [fs[|fs| - 1]];
      Find(fs[..|fs| - 1], f)
  }

  lemma FindIs(cmp: (Feature, Feature) -> int, fs: seq<Feature>, f: Feature, i: nat)
    requires IsTotalOrder(cmp) && Rising(cmp, fs) && i < |fs| && fs[i] == f
    ensures Find(fs, f) == Some(i)
  {
    assert cmp(f, f) == 0;
  }

  ghost predicate ValidRec<V>(cmp: (Feature, Feature) -> int, r: Rec<V>) {
    r.Record? ==> |r.features| == |r.elements| && Rising(cmp, r.features)
  }

  /** The value of a feature. */
  function Lookup<V>(r: Rec<V>, f: Feature): Option<V>
    requires r.Record? ==> |r.features| == |r.elements|
  {
    match r
    case Alone(_) => None
    case Cons(h, t) => if f == SmallInt(1) then Some(h) else if f == SmallInt(2) then Some(t) else None
    case Tuple(_, es) => if f.SmallInt? && 1 <= f.i <= |es| then Some(es[f.i - 1]) else None
    case Record(_, fs, es) => if Find(fs, f).Some? then Some(es[Find(fs, f).value]) else None
  }

  /** Arity::lookupFeature: a binary search. */
  method ArityLookup(cmp: (Feature, Feature) -> int, fs: seq<Feature>, f: Feature) returns (offset: Option<nat>)
    requires IsTotalOrder(cmp) && Rising(cmp, fs)
    ensures offset == Find(fs, f)
    ensures offset.Some? ==> offset.value < |fs| && fs[offset.value] == f
    ensures offset.Some? <==> f in fs
  {
    var lo, hi := 0, |fs|;
    while lo < hi
      invariant 0 <= lo <= hi <= |fs|
      invariant forall i | 0 <= i < lo :: Less(cmp, fs[i], f)
      invariant forall i | hi <= i < |fs| :: Less(cmp, f, fs[i])
    {
      var mid := (lo + hi) / 2;
      var comparison := cmp(f, fs[mid]);
      if comparison == 0 {
        FindIs(cmp, fs, f, mid);
        return Some(mid);
      } else if comparison < 0 {
        forall i | mid <= i < |fs| ensures Less(cmp, f, fs[i]) {
          assert i > mid ==> Less(cmp, fs[mid], fs[i]);
        }
        hi := mid;
      } else {
        forall i | 0 <= i <= mid ensures Less(cmp, fs[i], f) {
          assert i < mid ==> Less(cmp, fs[i], fs[mid]);
        }
        lo := mid + 1;
      }
    }
    assert forall i | 0 <= i < |fs| :: fs[i] != f by {
      assert cmp(f, f) == 0;
    }
    offset := None;
  }

  /** lookupFeature of each representation. */
  method LookupFeature<V>(cmp: (Feature, Feature) -> int, r: Rec<V>, f: Feature) returns (value: Option<V>)
    requires IsTotalOrder(cmp) && ValidRec(cmp, r)
    ensures value == Lookup(r, f)
  {
    match r
    case Alone(_) =>
      value := None;
    case Cons(head, tail) =>
      value := if f.SmallInt? && (f.i == 1 || f.i == 2) then Some([head, tail][f.i - 1]) else None;
    case Tuple(_, elements) =>
      value := if f.SmallInt? && f.i > 0 && f.i <= |elements| then Some(elements[f.i - 1]) else None;
    case Record(_, features, elements) =>
      var offset := ArityLookup(cmp, features, f);
      value := if offset.Some? then Some(elements[offset.value]) else None;
  }

  // --------------------------------------------------------------- sorting

  function Insert<V>(cmp: (Feature, Feature) -> int, s: seq<Field<V>>, x: Field<V>): seq<Field<V>>
    requires AllFeatures(s) && x.feature.Feat?
  {
    if s == [] then [x]
    else
      var last := s[|s| - 1];
      if Less(cmp, x.feature.f, last.feature.f) then Insert(cmp, s[..|s| - 1], x) + [last] else s + [x]
  }

  /** What std::sort makes of the fields. */
  function Sort<V>(cmp: (Feature, Feature) -> int, s: seq<Field<V>>): (r: seq<Field<V>>)
    requires AllFeatures(s)
    ensures AllFeatures(r) && multiset(r) == multiset(s)
  {
    if s == [] then []
    else
      var (front, last) := (s[..|s| - 1], s[|s| - 1]);
      assert s == front + [last];
      InsertSame(cmp, Sort(cmp, front), last);
      Insert(cmp, Sort(cmp, front), last)
  }

  lemma {:induction false} InsertSame<V>(cmp: (Feature, Feature) -> int, s: seq<Field<V>>, x: Field<V>)
    requires AllFeatures(s) && x.feature.Feat?
    ensures AllFeatures(Insert(cmp, s, x)) && multiset(Insert(cmp, s, x)) == multiset(s) + multiset{x}
    decreases |s|
  {
    if s != [] {
      var (front, last) := (s[..|s| - 1], s[|s| - 1]);
      assert s == front + [last];
      InsertSame(cmp, front, x);
    }
  }

  lemma {:induction false} InsertSorted<V>(cmp: (Feature, Feature) -> int, s: seq<Field<V>>, x: Field<V>)
    requires IsTotalOrder(cmp) && Sorted(cmp, s) && x.feature.Feat?
    ensures Sorted(cmp, Insert(cmp, s, x))
    decreases |s|
  {
    var r := Insert(cmp, s, x);
    InsertSame(cmp, s, x);
    if s != [] {
      var (front, last) := (s[..|s| - 1], s[|s| - 1]);
      assert s == front + [last];
      assert Sorted(cmp, front);
      InsertSorted(cmp, front, x);
      InsertSame(cmp, front, x);
      if Less(cmp, x.feature.f, last.feature.f) {
        var t := Insert(cmp, front, x);
        forall i | 0 <= i < |t| ensures t[i].feature.Feat? && !Less(cmp, last.feature.f, t[i].feature.f) {
          assert t[i] in multiset(t);
          if t[i] != x {
            assert t[i] in front;
          }
        }
      } else {
        forall i | 0 <= i < |s| ensures s[i].feature.Feat? && !Less(cmp, x.feature.f, s[i].feature.f) {
          assert s[i] in s;
        }
      }
    }
  }

  lemma {:induction false} SortSorts<V>(cmp: (Feature, Feature) -> int, s: seq<Field<V>>)
    requires IsTotalOrder(cmp) && AllFeatures(s)
    ensures Sorted(cmp, Sort(cmp, s))
    decreases |s|
  {
    if s != [] {
      var front := s[..|s| - 1];
      SortSorts(cmp, front);
      InsertSorted(cmp, Sort(cmp, front), s[|s| - 1]);
    }
  }

  // --------------------------------------------------------------- what is built

  /** The representation for sorted fields: a literal, a pair, a tuple, or a record. */
  function RecOf<V>(tag: Feature, fs: seq<Field<V>>): Rec<V>
    requires AllFeatures(fs)
  {
    if IsTupleArray(fs) then TupleOf(tag, ValuesOf(fs)) else Record(tag, FeaturesOf(fs), ValuesOf(fs))
  }

  /** buildTupleDynamic. */
  function TupleOf<V>(tag: Feature, vs: seq<V>): Rec<V> {
    if vs == [] then Alone(tag)
    else if |vs| == 2 && tag == PIPE then Cons(vs[0], vs[1])
    else Tuple(tag, vs)
  }

  /** The fields are for 1 to their number, in order. */
  predicate IsTupleArray<V>(fs: seq<Field<V>>) {
    forall i | 0 <= i < |fs| :: fs[i].feature == Feat(SmallInt(i + 1))
  }

  /** Which representation it is: a literal without fields, a pair for the features 1 and 2 under the label '|', a tuple
      for the features 1 to another number, or these under another label, and a record for all others. */
  ghost predicate Represents<V>(r: Rec<V>, tag: Feature, fs: seq<Field<V>>) {
    && (r.Alone? <==> fs == [])
    && (r.Cons? <==> OneToN(fs) && |fs| == 2 && tag == PIPE)
    && (r.Tuple? <==> OneToN(fs) && fs != [] && !(|fs| == 2 && tag == PIPE))
    && (r.Record? <==> !OneToN(fs))
    && (!r.Cons? ==> r.tag == tag)
  }

  function TagOf<V>(r: Rec<V>): Feature {
    match r
    case Alone(t) => t
    case Cons(_, _) => PIPE
    case Tuple(t, _) => t
    case Record(t, _, _) => t
  }

  lemma SortedDistinct<V>(cmp: (Feature, Feature) -> int, fs: seq<Field<V>>)
    requires IsTotalOrder(cmp) && Sorted(cmp, fs) && Distinct(fs)
    ensures Rising(cmp, FeaturesOf(fs))
  {
    var r := FeaturesOf(fs);
    forall i, j | 0 <= i < j < |r| ensures Less(cmp, r[i], r[j]) {
      assert fs[i].feature != fs[j].feature && cmp(r[i], r[j]) != 0;
    }
  }

  lemma FieldAt<V>(fs: seq<Field<V>>, f: Feature, v: V)
    requires AllFeatures(fs)
    ensures Field(Feat(f), v) in fs <==> exists i :: 0 <= i < |fs| && FeaturesOf(fs)[i] == f && ValuesOf(fs)[i] == v
  {
    var (names, values) := (FeaturesOf(fs), ValuesOf(fs));
    if Field(Feat(f), v) in fs {
      var i :| 0 <= i < |fs| && fs[i] == Field(Feat(f), v);
      assert names[i] == f && values[i] == v;
    }
    if i :| 0 <= i < |fs| && names[i] == f && values[i] == v {
      assert fs[i] == Field(Feat(f), v);
    }
  }

  /** What is built holds the fields: a feature has a value exactly when a field gives it that value. */
  lemma Holds<V>(cmp: (Feature, Feature) -> int, tag: Feature, fs: seq<Field<V>>, f: Feature, v: V)
    requires Orders(cmp) && Sorted(cmp, fs) && Distinct(fs)
    ensures TagOf(RecOf(tag, fs)) == tag && ValidRec(cmp, RecOf(tag, fs))
    ensures Lookup(RecOf(tag, fs), f) == Some(v) <==> Field(Feat(f), v) in fs
  {
    SortedDistinct(cmp, fs);
    FieldAt(fs, f, v);
    hide Sorted, Distinct, Orders, Lookup, FeaturesOf, ValuesOf, TupleOf, Rising, Find;
    if IsTupleArray(fs) {
      TupleHolds(tag, FeaturesOf(fs), ValuesOf(fs), f, v);
    } else {
      RecordHolds(cmp, tag, FeaturesOf(fs), ValuesOf(fs), f, v);
    }
    TagKept(tag, fs);
  }

  lemma TagKept<V>(tag: Feature, fs: seq<Field<V>>)
    requires AllFeatures(fs)
    ensures TagOf(RecOf(tag, fs)) == tag &&
      (RecOf(tag, fs).Record? ==> RecOf(tag, fs) == Record(tag, FeaturesOf(fs), ValuesOf(fs)))
  {
  }

  lemma TupleHolds<V>(tag: Feature, names: seq<Feature>, values: seq<V>, f: Feature, v: V)
    requires |names| == |values| && forall i | 0 <= i < |names| :: names[i] == SmallInt(i + 1)
    ensures !TupleOf(tag, values).Record?
    ensures Lookup(TupleOf(tag, values), f) == Some(v) <==>
      exists i :: 0 <= i < |names| && names[i] == f && values[i] == v
  {
    if Lookup(TupleOf(tag, values), f) == Some(v) {
      assert names[f.i - 1] == f && values[f.i - 1] == v;
    }
  }

  lemma RecordHolds<V>(cmp: (Feature, Feature) -> int, tag: Feature, names: seq<Feature>, values: seq<V>, f: Feature,
                       v: V)
    requires Orders(cmp) && Rising(cmp, names) && |names| == |values|
    ensures Lookup(Record(tag, names, values), f) == Some(v) <==>
      exists i :: 0 <= i < |names| && names[i] == f && values[i] == v
  {
    if i :| 0 <= i < |names| && names[i] == f && values[i] == v {
      FindIs(cmp, names, f, i);
    }
  }

  // --------------------------------------------------------------- one representation

  /** The features are 1 to their number. */
  ghost predicate OneToN<V>(fs: seq<Field<V>>) {
    (forall i | 0 <= i < |fs| :: fs[i].feature.Feat? && fs[i].feature.f.SmallInt? && 1 <= fs[i].feature.f.i <= |fs|) &&
      Distinct(fs)
  }

  /** Rising integers from 1 to their number can only be 1, 2 and so on. */
  lemma {:induction false} RisingInts<V>(cmp: (Feature, Feature) -> int, fs: seq<Field<V>>, i: nat)
    requires Orders(cmp) && Sorted(cmp, fs) && OneToN(fs) && i < |fs|
    ensures fs[i].feature.f.i >= i + 1
  {
    if i > 0 {
      RisingInts(cmp, fs, i - 1);
      RisesAt(cmp, fs, i - 1);
    }
  }

  lemma {:induction false} RisingIntsAbove<V>(cmp: (Feature, Feature) -> int, fs: seq<Field<V>>, i: nat)
    requires Orders(cmp) && Sorted(cmp, fs) && OneToN(fs) && i < |fs|
    ensures fs[i].feature.f.i <= i + 1
    decreases |fs| - i
  {
    if i < |fs| - 1 {
      RisingIntsAbove(cmp, fs, i + 1);
      RisesAt(cmp, fs, i);
    }
  }

  lemma RisesAt<V>(cmp: (Feature, Feature) -> int, fs: seq<Field<V>>, i: nat)
    requires Orders(cmp) && Sorted(cmp, fs) && OneToN(fs) && i + 1 < |fs|
    ensures fs[i].feature.f.i < fs[i + 1].feature.f.i
  {
    SortedDistinct(cmp, fs);
    var r := FeaturesOf(fs);
    assert Less(cmp, r[i], r[i + 1]) && r[i] == SmallInt(r[i].i) && r[i + 1] == SmallInt(r[i + 1].i);
  }

  /** A literal, pair or tuple is chosen exactly when the features are 1 to their number. */
  lemma TupleExactly<V>(cmp: (Feature, Feature) -> int, tag: Feature, fs: seq<Field<V>>)
    requires Orders(cmp) && Sorted(cmp, fs) && Distinct(fs)
    ensures !RecOf(tag, fs).Record? <==> OneToN(fs)
  {
    if OneToN(fs) {
      forall i | 0 <= i < |fs| ensures fs[i].feature == Feat(SmallInt(i + 1)) {
        RisingInts(cmp, fs, i);
        RisingIntsAbove(cmp, fs, i);
      }
    }
  }

  /** Sorted fields with distinct features are determined by what is in them. */
  lemma {:induction false} OneOrder<V>(cmp: (Feature, Feature) -> int, a: seq<Field<V>>, b: seq<Field<V>>)
    requires IsTotalOrder(cmp) && Sorted(cmp, a) && Sorted(cmp, b) && Distinct(a) && multiset(a) == multiset(b)
    ensures a == b
    decreases |a|
  {
    assert |a| == |multiset(a)| == |multiset(b)| == |b|;
    if a != [] {
      LeastFirst(cmp, a, b);
      RestSorted(cmp, a);
      RestSorted(cmp, b);
      hide Sorted, Distinct, IsTotalOrder;
      OneOrder(cmp, a[1..], b[1..]);
    }
  }

  lemma RestSorted<V>(cmp: (Feature, Feature) -> int, a: seq<Field<V>>)
    requires Sorted(cmp, a) && a != []
    ensures a == [a[0]] + a[1..] && multiset(a[1..]) == multiset(a) - multiset{a[0]}
    ensures Sorted(cmp, a[1..]) && (Distinct(a) ==> Distinct(a[1..]))
  {
    assert a == [a[0]] + a[1..];
  }

  lemma LeastFirst<V>(cmp: (Feature, Feature) -> int, a: seq<Field<V>>, b: seq<Field<V>>)
    requires IsTotalOrder(cmp) && Sorted(cmp, a) && Sorted(cmp, b) && Distinct(a) && multiset(a) == multiset(b) &&
      |a| == |b| > 0
    ensures a[0] == b[0]
  {
    assert a[0] in multiset(b) && b[0] in multiset(a);
    var i :| 0 <= i < |b| && b[i] == a[0];
    var j :| 0 <= j < |a| && a[j] == b[0];
    assert cmp(a[0].feature.f, b[0].feature.f) == 0 by {
      assert i > 0 ==> !Less(cmp, a[0].feature.f, b[0].feature.f);
      assert j > 0 ==> !Less(cmp, b[0].feature.f, a[0].feature.f);
    }
  }

  /** Fields in any order make one record. */
  lemma AnyOrder<V>(cmp: (Feature, Feature) -> int, tag: Feature, a: seq<Field<V>>, b: seq<Field<V>>)
    requires IsTotalOrder(cmp) && AllFeatures(a) && AllFeatures(b) && Distinct(a) && multiset(a) == multiset(b)
    ensures RecOf(tag, Sort(cmp, a)) == RecOf(tag, Sort(cmp, b))
  {
    SortSorts(cmp, a);
    SortSorts(cmp, b);
    DistinctSorted(cmp, a, Sort(cmp, a));
    OneOrder(cmp, Sort(cmp, a), Sort(cmp, b));
  }

  lemma DistinctSorted<V>(cmp: (Feature, Feature) -> int, a: seq<Field<V>>, b: seq<Field<V>>)
    requires multiset(a) == multiset(b)
    ensures Distinct(a) <==> Distinct(b)
  {
    if Distinct(a) {
      DistinctCarries(a, b);
    }
    if Distinct(b) {
      DistinctCarries(b, a);
    }
  }

  lemma DistinctCarries<V>(a: seq<Field<V>>, b: seq<Field<V>>)
    requires multiset(a) == multiset(b) && Distinct(a)
    ensures Distinct(b)
  {
    forall i, j | 0 <= i < j < |b| ensures b[i].feature != b[j].feature {
      TwoIn(b, i, j);
      var p, q := TwoOf(a, b[i], b[j]);
    }
  }

  lemma TwoIn<T>(s: seq<T>, i: nat, j: nat)
    requires i < j < |s|
    ensures multiset{s[i], s[j]} <= multiset(s)
  {
    assert s == s[..i] + [s[i]] + s[i + 1..j] + [s[j]] + s[j + 1..];
  }

  lemma InRest<T>(rest: multiset<T>, x: T, y: T)
    requires multiset{x, y} <= rest + multiset{x}
    ensures y in rest
  {
    assert multiset{x, y}[y] == if x == y then 2 else 1;
    assert (rest + multiset{x})[y] == rest[y] + if x == y then 1 else 0;
  }

  lemma TwoOf<T>(s: seq<T>, x: T, y: T) returns (p: nat, q: nat)
    requires multiset{x, y} <= multiset(s)
    ensures p < |s| && q < |s| && p != q && s[p] == x && s[q] == y
  {
    assert x in multiset(s);
    p :| 0 <= p < |s| && s[p] == x;
    var rest := s[..p] + s[p + 1..];
    assert s == s[..p] + [x] + s[p + 1..];
    assert multiset(s) == multiset(rest) + multiset{x};
    InRest(multiset(rest), x, y);
    var k :| 0 <= k < |rest| && rest[k] == y;
    q := if k < p then k else k + 1;
  }

  // --------------------------------------------------------------- building, in the caller's array

  datatype ArityAnswer<V> = ArityOf(features: seq<Feature>) | UnitArity | NoArity(error: Answer<V>)

  /** sortFeatures, in place. */
  method SortFeatures<V>(cmp: (Feature, Feature) -> int, elements: array<Field<V>>)
    requires AllFeatures(elements[..])
    modifies elements
    ensures elements[..] == Sort(cmp, old(elements[..]))
  {
    var sorted := Sort(cmp, elements[..]);
    assert |sorted| == |multiset(sorted)| == |multiset(elements[..])| == elements.Length;
    var i := 0;
    while i < elements.Length
      invariant i <= elements.Length && elements[..i] == sorted[..i]
    {
      elements[i] := sorted[i];
      i := i + 1;
    }
  }

  /** findDuplicateFeature: in sorted fields, equal features are neighbours. */
  method FindDuplicate<V>(cmp: (Feature, Feature) -> int, elements: array<Field<V>>) returns (found: bool)
    requires IsTotalOrder(cmp) && Sorted(cmp, elements[..])
    ensures found == !Distinct(elements[..])
  {
    ghost var fs := elements[..];
    var i := 0;
    while i + 1 < elements.Length
      invariant i <= elements.Length
      invariant forall j | 0 <= j < i && j + 1 < |fs| :: Less(cmp, fs[j].feature.f, fs[j + 1].feature.f)
    {
      assert fs[i] == elements[i] && fs[i + 1] == elements[i + 1];
      if cmp(elements[i].feature.f, elements[i + 1].feature.f) == 0 {
        return true;
      }
      i := i + 1;
    }
    found := false;
    forall i, j | 0 <= i < j < |fs| ensures fs[i].feature != fs[j].feature {
      Chain(cmp, fs, i, j);
      assert cmp(fs[i].feature.f, fs[i].feature.f) == 0;
    }
  }

  lemma {:induction false} Chain<V>(cmp: (Feature, Feature) -> int, fs: seq<Field<V>>, i: nat, j: nat)
    requires IsTotalOrder(cmp) && AllFeatures(fs) && i < j < |fs|
    requires forall k | 0 <= k && k + 1 < |fs| :: Less(cmp, fs[k].feature.f, fs[k + 1].feature.f)
    ensures Less(cmp, fs[i].feature.f, fs[j].feature.f)
    decreases j
  {
    assert Less(cmp, fs[j - 1].feature.f, fs[j - 1 + 1].feature.f);
    if i < j - 1 {
      Chain(cmp, fs, i, j - 1);
    }
  }

  /** isTupleFeatureArray. */
  method CheckTupleArray<V>(elements: array<Field<V>>) returns (tuple: bool)
    requires AllFeatures(elements[..])
    ensures tuple == IsTupleArray(elements[..])
  {
    var i := 0;
    while i < elements.Length
      invariant i <= elements.Length && forall j | 0 <= j < i :: elements[j].feature == Feat(SmallInt(j + 1))
    {
      if !(elements[i].feature.f.SmallInt? && elements[i].feature.f.i == i + 1) {
        assert elements[..][i].feature != Feat(SmallInt(i + 1));
        return false;
      }
      i := i + 1;
    }
    tuple := true;
  }

  /** The first element that is no feature. */
  method CheckFeatures<V>(elements: array<Field<V>>) returns (bad: Option<nat>)
    ensures bad.None? <==> AllFeatures(elements[..])
    ensures bad.Some? ==>
      bad.value < elements.Length && elements[bad.value].feature.Other? && AllFeatures(elements[..bad.value])
  {
    var i := 0;
    while i < elements.Length
      invariant i <= elements.Length && AllFeatures(elements[..i])
    {
      if elements[i].feature.Other? {
        assert elements[..][i].feature.Other?;
        return Some(i);
      }
      i := i + 1;
    }
    assert elements[..i] == elements[..];
    bad := None;
  }

  predicate IsLiteral(t: Term) {
    t.Feat? && t.f.Literal?
  }

  /** The error names the first field whose feature is none. */
  ghost predicate FirstBad<V>(fs: seq<Field<V>>, error: Answer<V>) {
    error.FeatureError? && error.at < |fs| && fs[error.at].feature.Other? && AllFeatures(fs[..error.at])
  }

  /** buildArityDynamic: no arity, but unit, for what is to be a tuple. */
  method BuildArity<V>(cmp: (Feature, Feature) -> int, name: Term, elements: array<Field<V>>)
    returns (answer: ArityAnswer<V>)
    requires Orders(cmp)
    modifies elements
    ensures !IsLiteral(name) ==> answer == NoArity(LabelError) && elements[..] == old(elements[..])
    ensures IsLiteral(name) && !AllFeatures(old(elements[..])) ==>
      answer.NoArity? && FirstBad(old(elements[..]), answer.error) && elements[..] == old(elements[..])
    ensures IsLiteral(name) && AllFeatures(old(elements[..])) ==>
      && elements[..] == Sort(cmp, old(elements[..]))
      && answer == if !Distinct(old(elements[..])) then NoArity(Duplicates(elements[..]))
                   else if IsTupleArray(elements[..]) then UnitArity
                   else ArityOf(FeaturesOf(elements[..]))
  {
    if !IsLiteral(name) {
      return NoArity(LabelError);
    }
    var bad := CheckFeatures(elements);
    if bad.Some? {
      return NoArity(FeatureError(bad.value));
    }
    ghost var was := elements[..];
    SortFeatures(cmp, elements);
    SortSorts(cmp, was);
    DistinctSorted(cmp, was, elements[..]);
    var duplicate := FindDuplicate(cmp, elements);
    if duplicate {
      return NoArity(Duplicates(elements[..]));
    }
    var tuple := CheckTupleArray(elements);
    if tuple {
      return UnitArity;
    }
    answer := ArityOf(FeaturesOf(elements[..]));
  }

  /** buildTupleDynamic. */
  method BuildTuple<V>(tag: Feature, elements: array<Field<V>>) returns (r: Rec<V>)
    ensures r == TupleOf(tag, ValuesOf(elements[..]))
  {
    if elements.Length == 0 {
      r := Alone(tag);
    } else if elements.Length == 2 && tag == PIPE {
      r := Cons(elements[0].value, elements[1].value);
    } else {
      var values := Values(elements);
      r := Tuple(tag, values);
    }
  }

  method Values<V>(elements: array<Field<V>>) returns (values: seq<V>)
    ensures values == ValuesOf(elements[..])
  {
    values := [];
    var i := 0;
    while i < elements.Length
      invariant i <= elements.Length && values == ValuesOf(elements[..])[..i]
    {
      values := values + [elements[i].value];
      i := i + 1;
    }
  }

  /**
   * buildRecordDynamic: the fields are sorted in place; a label that is no literal, a feature that is none, and a
   * feature given twice are errors; otherwise looking up finds exactly the fields given, and the representation is
   * that of a tuple exactly when the features are 1 to their number.
   */
  method BuildRecord<V>(cmp: (Feature, Feature) -> int, name: Term, elements: array<Field<V>>)
    returns (answer: Answer<V>)
    requires Orders(cmp)
    modifies elements
    ensures multiset(elements[..]) == multiset(old(elements[..]))
    ensures answer.LabelError? <==> !IsLiteral(name)
    ensures answer.FeatureError? <==> IsLiteral(name) && !AllFeatures(old(elements[..]))
    ensures answer.FeatureError? ==> FirstBad(old(elements[..]), answer)
    ensures answer.Duplicates? <==> IsLiteral(name) && AllFeatures(old(elements[..])) && !Distinct(old(elements[..]))
    ensures answer.Built? ==>
      && TagOf(answer.r) == name.f && ValidRec(cmp, answer.r) && (answer.r.Record? <==> !OneToN(old(elements[..])))
      && answer.r == RecOf(name.f, Sort(cmp, old(elements[..])))
      && forall f, v :: Lookup(answer.r, f) == Some(v) <==> Field(Feat(f), v) in old(elements[..])
    ensures answer.Built? ==> IsLiteral(name) && Represents(answer.r, name.f, old(elements[..]))
    ensures answer.Duplicates? ==>
      Sorted(cmp, answer.fields) && multiset(answer.fields) == multiset(old(elements[..]))
  {
    hide Sort, Sorted, Represents, OneToN, ValidRec, Lookup, TagOf, RecOf, IsTupleArray, TupleOf, IsTotalOrder;
    ghost var was := elements[..];
    if AllFeatures(was) { SortSorts(cmp, was); }
    var arity := BuildArity(cmp, name, elements);
    match arity
    case NoArity(error) =>
      answer := error;
    case UnitArity =>
      var r := BuildTuple(name.f, elements);
      answer := Built(r);
      RecIs(name.f, elements[..]);
      BuiltHolds(cmp, name.f, was, elements[..]);
    case ArityOf(features) =>
      var values := Values(elements);
      answer := Built(Record(name.f, features, values));
      RecIs(name.f, elements[..]);
      BuiltHolds(cmp, name.f, was, elements[..]);
  }

  lemma RecIs<V>(tag: Feature, fs: seq<Field<V>>)
    requires AllFeatures(fs)
    ensures RecOf(tag, fs) ==
            if IsTupleArray(fs) then TupleOf(tag, ValuesOf(fs)) else Record(tag, FeaturesOf(fs), ValuesOf(fs))
  {
  }

  lemma BuiltHolds<V>(cmp: (Feature, Feature) -> int, tag: Feature, was: seq<Field<V>>, fs: seq<Field<V>>)
    requires Orders(cmp) && AllFeatures(was) && Distinct(was) && fs == Sort(cmp, was)
    ensures TagOf(RecOf(tag, fs)) == tag && ValidRec(cmp, RecOf(tag, fs)) && (RecOf(tag, fs).Record? <==> !OneToN(was))
    ensures forall f, v :: Lookup(RecOf(tag, fs), f) == Some(v) <==> Field(Feat(f), v) in was
    ensures Represents(RecOf(tag, fs), tag, was)
  {
    SortSorts(cmp, was);
    DistinctSorted(cmp, was, fs);
    TupleExactly(cmp, tag, fs);
    SameOneToN(was, fs);
    forall f, v ensures Lookup(RecOf(tag, fs), f) == Some(v) <==> Field(Feat(f), v) in was {
      Holds(cmp, tag, fs, f, v);
      assert Field(Feat(f), v) in multiset(fs) <==> Field(Feat(f), v) in multiset(was);
    }
    TagKept(tag, fs);
    SortedDistinct(cmp, fs);
    assert |was| == |multiset(was)| == |multiset(fs)| == |fs|;
    RightRepresentation(tag, fs, was);
  }

  lemma RightRepresentation<V>(tag: Feature, fs: seq<Field<V>>, was: seq<Field<V>>)
    requires AllFeatures(fs) && |was| == |fs| && (RecOf(tag, fs).Record? <==> !OneToN(was))
    ensures Represents(RecOf(tag, fs), tag, was)
  {
    hide OneToN;
  }

  lemma SameOneToN<V>(a: seq<Field<V>>, b: seq<Field<V>>)
    requires multiset(a) == multiset(b) && (Distinct(a) <==> Distinct(b))
    ensures OneToN(a) <==> OneToN(b)
  {
    assert |a| == |multiset(a)| == |b|;
    forall i | 0 <= i < |a| ensures a[i] in b {
      assert a[i] in multiset(b);
    }
    forall i | 0 <= i < |b| ensures b[i] in a {
      assert b[i] in multiset(a);
    }
  }
}
