/** The dictionaries and the redirections of the write phases. */
module PickleRedirection {
  import opened PickleFormat
  import opened PickleNumbering
  import opened PickleMerging
  import opened Wrappers

  /** What the first pass has left. */
  datatype Plan = Plan(h: Heap, root: Ref, num: map<Ref, nat>, nodes: seq<PickleNode>, bound: map<Place, nat>)
  {
    ghost predicate Ok() {
      Ready(h, root, num, nodes, bound)
    }

    /** The first pass has numbered a well-formed store. */
    ghost predicate Counted() {
      WellFormed(h) && Numbering(h, root, num, nodes, bound)
    }

    ghost function Phi(): map<Ref, nat>
      requires Ok()
    {
      PickleMerging.Phi(h, nodes, num)
    }
  }

  lemma CountedIs(g: Plan)
    requires g.Counted()
    ensures g.Ok() && Reaches(g.h, g.root, g.num.Keys) && g.root in g.num && g.num.Keys <= g.h.Keys && In(g.h, g.nodes)
    ensures g.Phi().Keys == g.num.Keys
    ensures Top in g.bound && g.bound[Top] == g.num[g.root]
  {
    NumberingReady(g.h, g.root, g.num, g.nodes, g.bound);
  }

  /** The written nodes are faithful, and the root is written under its own number. */
  lemma CountedWrites(g: Plan)
    requires g.Counted()
    ensures g.Ok() && g.root in g.Phi() && g.root in g.num && g.Phi()[g.root] == g.num[g.root]
    ensures Covered(g.h, g.Phi()) && Within(g.nodes, g.Phi()) && WellFormed(g.h)
    ensures Faithful(g.h, g.root, g.Phi(), AllItems(g.h, g.Phi(), g.nodes)) &&
      AritiesLater(AllItems(g.h, g.Phi(), g.nodes))
  {
    hide PickleMerging.Phi, AllItems, Faithful, AritiesLater, WellFormed, Numbering, Ready, Covered, Within;
    WritesFaithfully(g.h, g.root, g.num, g.nodes, g.bound);
    ReadyIs(g.h, g.root, g.num, g.nodes, g.bound);
  }

  /** The indices are 1 to the number of nodes. */
  lemma CountedDense(g: Plan)
    requires g.Counted()
    ensures g.Ok() && |g.Phi()| == |g.nodes| && forall r <- g.Phi() :: 1 <= g.Phi()[r] <= |g.Phi()|
  {
    CountedIs(g);
    AsManyNumbers(g.h, g.root, g.num, g.nodes, g.bound);
    assert |g.Phi().Keys| == |g.num.Keys|;
    forall r <- g.Phi() ensures 1 <= g.Phi()[r] <= |g.Phi()| {
      var j := PhiIs(g.h, g.root, g.num, g.nodes, g.bound, r);
    }
  }

  /** The nodes that are done are redirected, and the others stand for themselves. */
  ghost predicate Redirects(g: Plan, done: set<Ref>, redirections: seq<nat>)
    requires g.Ok()
  {
    && |redirections| == |g.nodes| + 1
    && forall r <- g.num :: redirections[g.num[r]] == if r in done then g.Phi()[r] else g.num[r]
  }

  lemma NothingRedirected(g: Plan, redirections: seq<nat>)
    requires g.Ok() && |redirections| == |g.nodes| + 1
    requires forall k | 1 <= k <= |g.nodes| :: redirections[k] == k
    ensures Redirects(g, {}, redirections)
  {
  }

  /** A node of the list that is done. */
  lemma OneRedirected(g: Plan, done: set<Ref>, r: Ref, before: seq<nat>)
    requires g.Ok() && Redirects(g, done, before) && r in g.num
    ensures g.num[r] < |before| && Redirects(g, done + {r}, before[g.num[r] := g.Phi()[r]])
    ensures g.Phi()[r] == g.num[r] && r !in done ==> Redirects(g, done + {r}, before)
  {
    hide Ready, PickleMerging.Phi;
    Injective(g, r, r);
    forall s <- g.num ensures 1 <= g.num[s] <= |g.nodes| && (s != r ==> g.num[s] != g.num[r]) {
      Injective(g, s, r);
    }
  }

  lemma Injective(g: Plan, r: Ref, s: Ref)
    requires g.Ok() && r in g.num && s in g.num
    ensures 1 <= g.num[r] <= |g.nodes| && g.Phi().Keys == g.num.Keys
    ensures g.num[r] == g.num[s] ==> r == s
  {
  }

  /** A list of nodes of a plan, in its order. */
  lemma NodeOf(g: Plan, x: PickleNode)
    requires g.Ok() && x in g.nodes
    ensures x.node in g.num && x.node in g.h && g.num[x.node] == x.index && x.refs == Placed(x.index, g.h[x.node])
    ensures g.Phi().Keys == g.num.Keys && WellFormedAt(g.h, x.node)
  {
    hide PickleMerging.Phi, Covered, Within, Led, Reaches, Placed, PickleMerging.Apart, Children;
    var j :| 0 <= j < |g.nodes| && g.nodes[j] == x;
    assert g.num[x.node] == |g.nodes| - j;
    Injective(g, x.node, x.node);
  }

  // --------------------------------------------------------------- who leads a list

  /** A sub-list of the nodes of a plan in which everything is led as in the plan. */
  ghost predicate Leads(g: Plan, list: seq<PickleNode>) {
    && g.Ok() && In(g.h, list)
    && (forall x <- list :: x in g.nodes)
    && Apart(list)
    && (forall x <- list :: x.node in g.h && Leader(g.h, list, x.node) == Some(g.Phi()[x.node]))
  }

  lemma PlanLeads(g: Plan)
    requires g.Ok()
    ensures Leads(g, g.nodes)
  {
  }

  lemma LeftLeads(g: Plan, n: nat)
    requires g.Ok()
    ensures Leads(g, Left(g.h, g.nodes, n))
  {
    var left := Left(g.h, g.nodes, n);
    forall x <- left ensures x.node in g.h && Leader(g.h, left, x.node) == Some(g.Phi()[x.node]) {
      NodeOf(g, x);
      LeaderLeft(g.h, g.nodes, x.node, n);
    }
    LeftDiffer(g.h, g.nodes, n);
  }

  lemma {:induction false} LeftDiffer(h: Heap, list: seq<PickleNode>, n: nat)
    requires In(h, list) && Apart(list)
    ensures Apart(Left(h, list, n))
  {
    if list != [] {
      var (left, rest) := (Left(h, list, n), Left(h, list[1..], n));
      assert list[0] in list;
      LeftDiffer(h, list[1..], n);
      forall i, j | 0 <= i < j < |left| ensures left[i].index != left[j].index {
        if Phase(h[list[0].node]) > n {
          assert left[j] == rest[j - 1];
          assert rest[j - 1] in list[1..];
          if i > 0 {
            assert left[i] == rest[i - 1];
          }
        }
      }
    }
  }

  /** A node leads exactly when no node before it is the same. */
  lemma LeadsWhen(g: Plan, list: seq<PickleNode>, p: nat)
    requires Leads(g, list) && p < |list|
    ensures list[p].node in g.num
    ensures g.Phi()[list[p].node] == list[p].index <==>
      forall j | 0 <= j < p :: list[j].node in g.h && !Same(g.h, list[j].node, list[p].node)
    ensures forall j | 0 <= j < p ::
      && list[j].node in g.num
      && (Same(g.h, list[j].node, list[p].node) ==> g.Phi()[list[j].node] == g.Phi()[list[p].node])
  {
    var r := list[p].node;
    forall j | 0 <= j <= p ensures list[j].node in g.h && list[j].node in g.num && list[j] in list {
      NodeOf(g, list[j]);
    }
    hide Ready, PickleMerging.Phi, Same, WellFormed;
    PlanIs(g);
    if j :| 0 <= j < p && Same(g.h, list[j].node, r) {
      var i := LeaderFound(g.h, list, r, j);
      assert list[i].index != list[p].index;
    } else {
      SameItself(g.h, r);
      LeaderIs(g.h, list, r, p);
    }
    forall j | 0 <= j < p && Same(g.h, list[j].node, r) ensures g.Phi()[list[j].node] == g.Phi()[r] {
      LeaderSame(g.h, list, list[j].node, r);
    }
  }

  lemma PlanIs(g: Plan)
    requires g.Ok()
    ensures WellFormed(g.h) && g.Phi().Keys == g.num.Keys
  {
  }

  lemma SameItself(h: Heap, r: Ref)
    requires WellFormed(h) && r in h
    ensures Same(h, r, r)
  {
  }

  // --------------------------------------------------------------- the dictionaries

  /** existingFeatures, after some nodes. */
  ghost predicate KnownFeatures(h: Heap, phi: map<Ref, nat>, seen: seq<PickleNode>, m: map<Value<Ref>, nat>) {
    && (forall y <- seen ::
          y.node in h && y.node in phi && (IsFeature(h[y.node]) ==> h[y.node] in m && m[h[y.node]] == phi[y.node]))
    && (forall v <- m :: exists y <- seen :: y.node in h && h[y.node] == v && IsFeature(v))
  }

  predicate HasBuiltin(m: map<Text, map<Text, nat>>, a: Text, b: Text, k: nat) {
    a in m && b in m[a] && m[a][b] == k
  }

  /** existingBuiltins: a dictionary of dictionaries. */
  ghost predicate KnownBuiltins(h: Heap, phi: map<Ref, nat>, seen: seq<PickleNode>, m: map<Text, map<Text, nat>>) {
    && (forall y <- seen :: y.node in h && y.node in phi)
    && (forall y <- seen :: h[y.node].Builtin? ==> HasBuiltin(m, h[y.node].moduleName, h[y.node].name, phi[y.node]))
    && (forall a, b | a in m && b in m[a] :: exists y <- seen :: y.node in h && h[y.node] == Builtin(a, b))
  }

  function Label(h: Heap, r: Ref): Ref
    requires r in h && IsArity(h[r])
  {
    h[r].last
  }

  /** existingsArities: by the index of the label, the arities written, the last one first. */
  ghost predicate KnownArities(h: Heap, phi: map<Ref, nat>, seen: seq<PickleNode>, m: map<nat, seq<(nat, Ref)>>) {
    AritiesThere(h, phi, seen, m) && AritiesOnly(h, phi, seen, m)
  }

  ghost predicate AritiesThere(h: Heap, phi: map<Ref, nat>, seen: seq<PickleNode>, m: map<nat, seq<(nat, Ref)>>) {
    forall y <- seen :: y.node in phi && WellFormedAt(h, y.node) && (IsArity(h[y.node]) ==> HasArity(h, phi, m, y.node))
  }

  ghost predicate AritiesOnly(h: Heap, phi: map<Ref, nat>, seen: seq<PickleNode>, m: map<nat, seq<(nat, Ref)>>) {
    forall k, e | k in m && e in m[k] :: exists y <- seen :: IsListed(h, phi, y, k, e)
  }

  ghost predicate IsListed(h: Heap, phi: map<Ref, nat>, y: PickleNode, k: nat, e: (nat, Ref)) {
    && y.node == e.1 && y.node in phi && WellFormedAt(h, y.node) && IsArity(h[y.node])
    && Label(h, y.node) in phi && k == phi[Label(h, y.node)] && e.0 == phi[e.1]
  }

  ghost predicate HasArity(h: Heap, phi: map<Ref, nat>, m: map<nat, seq<(nat, Ref)>>, r: Ref)
    requires WellFormedAt(h, r) && IsArity(h[r])
  {
    && Label(h, r) in phi && phi[Label(h, r)] in m
    && exists e <- m[phi[Label(h, r)]] :: WellFormedAt(h, e.1) && SameArity(h, e.1, r)
  }

  /** A feature is in the dictionary exactly when it does not lead. */
  lemma FeatureKnown(g: Plan, list: seq<PickleNode>, p: nat, m: map<Value<Ref>, nat>)
    requires Leads(g, list) && p < |list| && KnownFeatures(g.h, g.Phi(), list[..p], m) && list[p].node in g.num
    requires IsFeature(g.h[list[p].node])
    ensures g.h[list[p].node] in m <==> g.Phi()[list[p].node] != list[p].index
    ensures g.h[list[p].node] in m ==> m[g.h[list[p].node]] == g.Phi()[list[p].node]
  {
    var v := g.h[list[p].node];
    LeadsWhen(g, list, p);
    hide Ready, PickleMerging.Phi, Leads;
    if v in m {
      var y :| y in list[..p] && y.node in g.h && g.h[y.node] == v;
      var j :| 0 <= j < p && list[j] == y;
      assert SameFeature(g, y.node, list[p].node);
    } else {
      forall j | 0 <= j < p && list[j].node in g.h ensures !SameFeature(g, list[j].node, list[p].node) {
        assert list[j] in list[..p];
        if SameFeature(g, list[j].node, list[p].node) {
          FeatureOnly(g, list[j].node, list[p].node);
          assert false;
        }
      }
    }
  }

  ghost predicate SameFeature(g: Plan, a: Ref, b: Ref)
    requires g.Ok() && a in g.h && b in g.h
  {
    PlanIs(g);
    Same(g.h, a, b)
  }

  lemma FeatureOnly(g: Plan, a: Ref, b: Ref)
    requires g.Ok() && a in g.h && b in g.h && SameFeature(g, a, b) && Mergeable(g.h[b])
    ensures g.h[a] == g.h[b]
  {
  }

  lemma BuiltinKnown(g: Plan, list: seq<PickleNode>, p: nat, m: map<Text, map<Text, nat>>)
    requires Leads(g, list) && p < |list| && KnownBuiltins(g.h, g.Phi(), list[..p], m) && list[p].node in g.num
    requires g.h[list[p].node].Builtin?
    ensures var v := g.h[list[p].node];
      && (g.Phi()[list[p].node] != list[p].index ==> HasBuiltin(m, v.moduleName, v.name, g.Phi()[list[p].node]))
      && (g.Phi()[list[p].node] == list[p].index ==> !(v.moduleName in m && v.name in m[v.moduleName]))
  {
    var v := g.h[list[p].node];
    LeadsWhen(g, list, p);
    hide Ready, PickleMerging.Phi, Leads;
    if v.moduleName in m && v.name in m[v.moduleName] {
      var y :| y in list[..p] && y.node in g.h && g.h[y.node] == Builtin(v.moduleName, v.name);
      var j :| 0 <= j < p && list[j] == y;
      assert SameFeature(g, y.node, list[p].node);
    } else {
      forall j | 0 <= j < p && list[j].node in g.h ensures !SameFeature(g, list[j].node, list[p].node) {
        assert list[j] in list[..p];
        if SameFeature(g, list[j].node, list[p].node) {
          FeatureOnly(g, list[j].node, list[p].node);
          assert false;
        }
      }
    }
  }

  /** A node that is neither merged by value nor an arity leads. */
  lemma OtherLeads(g: Plan, list: seq<PickleNode>, p: nat)
    requires Leads(g, list) && p < |list| && list[p].node in g.num
    requires !Mergeable(g.h[list[p].node]) && !IsArity(g.h[list[p].node])
    ensures g.Phi()[list[p].node] == list[p].index
  {
    LeadsWhen(g, list, p);
    forall j | 0 <= j < p ensures list[j].node in g.h && !Same(g.h, list[j].node, list[p].node) {
      assert list[j] in list && list[j].node != list[p].node by { NodeOf(g, list[j]); NodeOf(g, list[p]); }
    }
  }

  /** Equal arities have one index for their label. */
  lemma LabelsAgree(g: Plan, a: Ref, b: Ref)
    requires g.Ok() && a in g.num && b in g.num && WellFormedAt(g.h, a) && WellFormedAt(g.h, b) && SameArity(g.h, a, b)
    ensures Label(g.h, a) in g.num && Label(g.h, b) in g.num && g.Phi()[Label(g.h, a)] == g.Phi()[Label(g.h, b)]
  {
    var (cs, ds) := (Children(g.h[a]), Children(g.h[b]));
    var i := |cs| - 1;
    assert cs[i] == Label(g.h, a) && ds[i] == Label(g.h, b);
    assert cs[i] in cs && ds[i] in ds;
    ReadyIs(g.h, g.root, g.num, g.nodes, g.bound);
    assert Same(g.h, cs[i], ds[i]);
    PhiSame(g.h, g.root, g.num, g.nodes, g.bound, cs[i], ds[i]);
  }

  /** An arity that does not lead is in the dictionary under its label. */
  lemma ArityKnown(g: Plan, list: seq<PickleNode>, p: nat, m: map<nat, seq<(nat, Ref)>>)
    requires Leads(g, list) && p < |list| && KnownArities(g.h, g.Phi(), list[..p], m)
    requires list[p].node in g.num && WellFormedAt(g.h, list[p].node) && IsArity(g.h[list[p].node])
    requires g.Phi()[list[p].node] != list[p].index
    ensures HasArity(g.h, g.Phi(), m, list[p].node)
  {
    LeadsWhen(g, list, p);
    ReadyIs(g.h, g.root, g.num, g.nodes, g.bound);
    hide Ready, PickleMerging.Phi, Leads, HasArity, Same, WellFormed, SameArity;
    var j :| 0 <= j < p && list[j].node in g.h && Same(g.h, list[j].node, list[p].node);
    assert list[j] in list[..p];
    ArityFound(g, m, list[j].node, list[p].node);
  }

  /** One that is there is the one it is written as. */
  lemma ArityListed(g: Plan, list: seq<PickleNode>, p: nat, m: map<nat, seq<(nat, Ref)>>, k: nat, e: (nat, Ref))
    requires Leads(g, list) && p < |list| && KnownArities(g.h, g.Phi(), list[..p], m)
    requires list[p].node in g.num && WellFormedAt(g.h, list[p].node)
    requires k in m && e in m[k]
    ensures WellFormedAt(g.h, e.1) &&
      (SameArity(g.h, e.1, list[p].node) ==> e.0 == g.Phi()[list[p].node] != list[p].index)
  {
    var r := list[p].node;
    LeadsWhen(g, list, p);
    PlanIs(g);
    hide Ready, PickleMerging.Phi, Leads, HasArity;
    var y :| y in list[..p] && IsListed(g.h, g.Phi(), y, k, e);
    var j :| 0 <= j < p && list[j] == y;
    if SameArity(g.h, e.1, r) {
      assert Same(g.h, list[j].node, r);
    }
  }

  lemma ArityFound(g: Plan, m: map<nat, seq<(nat, Ref)>>, a: Ref, r: Ref)
    requires g.Ok() && a in g.num && r in g.num && WellFormedAt(g.h, a) && WellFormedAt(g.h, r) && IsArity(g.h[r]) &&
      WellFormed(g.h)
    requires Same(g.h, a, r) && IsArity(g.h[a]) ==> HasArity(g.h, g.Phi(), m, a)
    requires Same(g.h, a, r)
    ensures HasArity(g.h, g.Phi(), m, r)
  {
    assert a != r ==> SameArity(g.h, a, r);
    if a != r {
      LabelsAgree(g, a, r);
      var e :| e in m[g.Phi()[Label(g.h, a)]] && WellFormedAt(g.h, e.1) && SameArity(g.h, e.1, a);
      assert SameArity(g.h, e.1, r);
    }
  }

  // --------------------------------------------------------------- one node more

  lemma FeaturesSeen(h: Heap, phi: map<Ref, nat>, seen: seq<PickleNode>, x: PickleNode, m: map<Value<Ref>, nat>)
    requires KnownFeatures(h, phi, seen, m) && x.node in h && x.node in phi
    ensures !IsFeature(h[x.node]) || (h[x.node] in m && m[h[x.node]] == phi[x.node]) ==>
      KnownFeatures(h, phi, seen + [x], m)
    ensures IsFeature(h[x.node]) && h[x.node] !in m ==> KnownFeatures(h, phi, seen + [x], m[h[x.node] := phi[x.node]])
  {
    assert x in seen + [x];
    forall v <- m ensures exists y <- seen + [x] :: y.node in h && h[y.node] == v && IsFeature(v) {
      var y :| y in seen && y.node in h && h[y.node] == v && IsFeature(v);
      assert y in seen + [x];
    }
    if IsFeature(h[x.node]) && h[x.node] !in m {
      var n := m[h[x.node] := phi[x.node]];
      forall v <- n ensures exists y <- seen + [x] :: y.node in h && h[y.node] == v && IsFeature(v) {
        if v in m {
          var y :| y in seen + [x] && y.node in h && h[y.node] == v && IsFeature(v);
        } else {
          assert h[x.node] == v && IsFeature(v);
        }
      }
    }
  }

  /** existingBuiltins with one more. */
  function WithBuiltin(m: map<Text, map<Text, nat>>, a: Text, b: Text, k: nat): map<Text, map<Text, nat>> {
    var names: map<Text, nat> := if a in m then m[a] else map[];
    m[a := names[b := k]]
  }

  lemma BuiltinsSeen(h: Heap, phi: map<Ref, nat>, seen: seq<PickleNode>, x: PickleNode, m: map<Text, map<Text, nat>>)
    requires KnownBuiltins(h, phi, seen, m) && x.node in h && x.node in phi
    ensures var v := h[x.node];
      !v.Builtin? || HasBuiltin(m, v.moduleName, v.name, phi[x.node]) ==> KnownBuiltins(h, phi, seen + [x], m)
    ensures var v := h[x.node];
      v.Builtin? && !(v.moduleName in m && v.name in m[v.moduleName]) ==>
        KnownBuiltins(h, phi, seen + [x], WithBuiltin(m, v.moduleName, v.name, phi[x.node]))
  {
    assert x in seen + [x];
    forall a, b | a in m && b in m[a] ensures exists y <- seen + [x] :: y.node in h && h[y.node] == Builtin(a, b) {
      var y :| y in seen && y.node in h && h[y.node] == Builtin(a, b);
      assert y in seen + [x];
    }
  }

  /** existingsArities with one more. */
  function WithArity(m: map<nat, seq<(nat, Ref)>>, key: nat, k: nat, r: Ref): map<nat, seq<(nat, Ref)>> {
    m[key := [(k, r)] + if key in m then m[key] else []]
  }

  lemma AritiesSeen(h: Heap, phi: map<Ref, nat>, seen: seq<PickleNode>, x: PickleNode, m: map<nat, seq<(nat, Ref)>>)
    requires KnownArities(h, phi, seen, m) && WellFormedAt(h, x.node) && IsArity(h[x.node]) &&
      HasArity(h, phi, m, x.node)
    requires x.node in phi
    ensures KnownArities(h, phi, seen + [x], m)
  {
    hide HasArity, IsListed, WellFormedAt, IsArity;
    forall k, e | k in m && e in m[k] ensures exists y <- seen + [x] :: IsListed(h, phi, y, k, e) {
      var y :| y in seen && IsListed(h, phi, y, k, e);
      assert y in seen + [x];
    }
  }

  lemma ArityAdded(h: Heap, phi: map<Ref, nat>, seen: seq<PickleNode>, x: PickleNode, m: map<nat, seq<(nat, Ref)>>)
    requires KnownArities(h, phi, seen, m) && WellFormedAt(h, x.node) && IsArity(h[x.node])
    requires x.node in phi && Label(h, x.node) in phi
    ensures KnownArities(h, phi, seen + [x], WithArity(m, phi[Label(h, x.node)], phi[x.node], x.node))
  {
    hide IsArity, SameArity, Children, AritiesOnly, HasArity;
    ArityIn(h, phi, x, m);
    ListedMore(h, phi, seen, x, m);
    forall y <- seen | y.node in h && IsArity(h[y.node])
      ensures HasArity(h, phi, WithArity(m, phi[Label(h, x.node)], phi[x.node], x.node), y.node)
    {
      StillHas(h, phi, m, phi[Label(h, x.node)], phi[x.node], x.node, y.node);
    }
  }

  lemma ListedMore(h: Heap, phi: map<Ref, nat>, seen: seq<PickleNode>, x: PickleNode, m: map<nat, seq<(nat, Ref)>>)
    requires AritiesOnly(h, phi, seen, m) && WellFormedAt(h, x.node) && IsArity(h[x.node])
    requires x.node in phi && Label(h, x.node) in phi
    ensures AritiesOnly(h, phi, seen + [x], WithArity(m, phi[Label(h, x.node)], phi[x.node], x.node))
  {
    ArityIn(h, phi, x, m);
    var key := phi[Label(h, x.node)];
    hide IsListed, IsArity, Label, WellFormedAt, HasArity;
    var n := WithArity(m, key, phi[x.node], x.node);
    assert x in seen + [x];
    forall k, e | k in n && e in n[k] ensures exists y <- seen + [x] :: IsListed(h, phi, y, k, e) {
      if k == key && e == (phi[x.node], x.node) {
        assert IsListed(h, phi, x, k, e);
      } else {
        assert k in m && e in m[k];
        var y :| y in seen && IsListed(h, phi, y, k, e);
        assert y in seen + [x];
      }
    }
  }

  lemma ArityIn(h: Heap, phi: map<Ref, nat>, x: PickleNode, m: map<nat, seq<(nat, Ref)>>)
    requires WellFormedAt(h, x.node) && IsArity(h[x.node])
    requires x.node in phi && Label(h, x.node) in phi
    ensures var key := phi[Label(h, x.node)];
      && IsListed(h, phi, x, key, (phi[x.node], x.node))
      && HasArity(h, phi, WithArity(m, key, phi[x.node], x.node), x.node)
  {
    var key := phi[Label(h, x.node)];
    var n := WithArity(m, key, phi[x.node], x.node);
    assert n[key][0] == (phi[x.node], x.node) && SameArity(h, x.node, x.node);
  }

  lemma StillHas(h: Heap, phi: map<Ref, nat>, m: map<nat, seq<(nat, Ref)>>, key: nat, k: nat, r: Ref, a: Ref)
    requires WellFormedAt(h, a) && IsArity(h[a]) && HasArity(h, phi, m, a)
    ensures HasArity(h, phi, WithArity(m, key, k, r), a)
  {
    var l := phi[Label(h, a)];
    var e :| e in m[l] && WellFormedAt(h, e.1) && SameArity(h, e.1, a);
    assert e in WithArity(m, key, k, r)[l];
  }

  // --------------------------------------------------------------- what a node is written as

  function Redirected(ps: seq<Place>, bound: map<Place, nat>, redirections: seq<nat>): (ks: seq<nat>)
    requires forall p <- ps :: p in bound && bound[p] < |redirections|
    ensures |ks| == |ps| && forall i | 0 <= i < |ps| :: ks[i] == redirections[bound[ps[i]]]
  {
    seq(|ps|, i requires 0 <= i < |ps| => redirections[bound[ps[i]]])
  }

  /** What a node refers to is done. */
  ghost predicate Settled(g: Plan, done: set<Ref>, x: PickleNode) {
    && g.Ok() && x in g.nodes && x.node in g.num && x.node in g.h && Stateless(g.h[x.node])
    && forall c <- Children(g.h[x.node]) :: c in g.num && (c in done || g.Phi()[c] == g.num[c])
  }

  ghost function ItemFor(g: Plan, x: PickleNode): Item
    requires g.Ok() && x.node in g.num
  {
    Item(x.index, Renamed(g.h[x.node], g.Phi()))
  }

  /** Once what a node refers to is done, its record is written as the node with the final indices. */
  lemma WrittenAs(g: Plan, done: set<Ref>, redirections: seq<nat>, x: PickleNode)
    requires g.Ok() && Redirects(g, done, redirections) && x in g.nodes && x.node in g.num
    requires forall c <- Children(g.h[x.node]) :: c in g.num && (c in done || g.Phi()[c] == g.num[c])
    ensures forall p <- Children(x.refs) :: p in g.bound && g.bound[p] < |redirections|
    ensures WithChildren(x.refs, Redirected(Children(x.refs), g.bound, redirections)) == Renamed(g.h[x.node], g.Phi())
  {
    NodeOf(g, x);
    var (v, cs, phi) := (g.h[x.node], Children(g.h[x.node]), g.Phi());
    var ps := Places(x.index, |cs|);
    assert Children(x.refs) == ps;
    forall i | 0 <= i < |cs|
      ensures ps[i] in g.bound && g.bound[ps[i]] < |redirections| && redirections[g.bound[ps[i]]] == phi[cs[i]]
    {
      assert cs[i] in cs;
      PlaceBound(g, x.node, i);
    }
    assert Redirected(ps, g.bound, redirections) == Mapped(cs, phi);
    ChildrenTwice(v, ps, Mapped(cs, phi));
  }

  lemma PlaceBound(g: Plan, r: Ref, i: nat)
    requires g.Ok() && r in g.num && r in g.h && i < |Children(g.h[r])|
    ensures Field(g.num[r], i) in g.bound && Children(g.h[r])[i] in g.num
    ensures g.bound[Field(g.num[r], i)] == g.num[Children(g.h[r])[i]] <= |g.nodes|
  {
  }
}
