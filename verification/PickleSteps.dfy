/** The steps of the write phases, on their dictionaries and redirections. */
module PickleSteps {
  import opened PickleFormat
  import opened PickleNumbering
  import opened PickleMerging
  import opened PickleRedirection
  import opened Wrappers

  /** The nodes of a phase in a list. */
  ghost function SeenIn(h: Heap, seen: seq<PickleNode>, n: nat): set<Ref> {
    set y <- seen | y.node in h && Phase(h[y.node]) == n :: y.node
  }

  lemma SeenMore(h: Heap, seen: seq<PickleNode>, x: PickleNode, n: nat)
    requires x.node in h
    ensures SeenIn(h, seen + [x], n) == SeenIn(h, seen, n) + if Phase(h[x.node]) == n then {x.node} else {}
  {
    hide Phase;
    assert x in seen + [x];
    forall r <- SeenIn(h, seen, n) ensures r in SeenIn(h, seen + [x], n) {
      var y :| y in seen && y.node in h && Phase(h[y.node]) == n && y.node == r;
      assert y in seen + [x];
    }
  }

  /** A node of a list is not among those before it. */
  lemma SeenOnce(g: Plan, list: seq<PickleNode>, p: nat, n: nat)
    requires Leads(g, list) && p < |list|
    ensures list[p].node !in SeenIn(g.h, list[..p], n)
    ensures list[p] in g.nodes && list[p].node in g.h && list[p].node in g.num && WellFormedAt(g.h, list[p].node)
    ensures g.num[list[p].node] == list[p].index && list[p].refs == Placed(list[p].index, g.h[list[p].node])
    ensures list[..p + 1] == list[..p] + [list[p]]
  {
    hide Ready, Leads, Placed, PickleMerging.Phi, PickleMerging.Phase, WellFormedAt, SeenIn;
    LeadsIs(g, list);
    NodeOf(g, list[p]);
    NotBefore(g, list, p, n);
  }

  lemma NotBefore(g: Plan, list: seq<PickleNode>, p: nat, n: nat)
    requires g.Ok() && Apart(list) && (forall j | 0 <= j < |list| :: list[j] in g.nodes) && p < |list|
    ensures list[p].node !in SeenIn(g.h, list[..p], n)
  {
    hide Ready, PickleMerging.Phi, PickleMerging.Phase;
    forall y <- list[..p] ensures y.node != list[p].node {
      var j :| 0 <= j < p && list[j] == y;
      IndexOf(g, y);
      IndexOf(g, list[p]);
    }
  }

  lemma IndexOf(g: Plan, x: PickleNode)
    requires g.Ok() && x in g.nodes
    ensures x.node in g.num && g.num[x.node] == x.index
  {
    NodeOf(g, x);
  }

  lemma LeadsIs(g: Plan, list: seq<PickleNode>)
    requires Leads(g, list)
    ensures g.Ok() && Apart(list) && forall j | 0 <= j < |list| :: list[j] in g.nodes
  {
  }

  /** Where the first phase is. */
  ghost predicate ValuesAt(g: Plan, p: nat, redirections: seq<nat>, features: map<Value<Ref>, nat>,
                           builtins: map<Text, map<Text, nat>>) {
    && Leads(g, g.nodes) && p <= |g.nodes|
    && Redirects(g, SeenIn(g.h, g.nodes[..p], 0), redirections)
    && KnownFeatures(g.h, g.Phi(), g.nodes[..p], features)
    && KnownBuiltins(g.h, g.Phi(), g.nodes[..p], builtins)
  }

  lemma ValuesAtStart(g: Plan, redirections: seq<nat>)
    requires g.Ok() && Redirects(g, {}, redirections)
    ensures ValuesAt(g, 0, redirections, map[], map[])
  {
    PlanLeads(g);
  }

  ghost predicate NextIs(g: Plan, list: seq<PickleNode>, p: nat, x: PickleNode) {
    g.Ok() && Leads(g, list) && p < |list| && x == list[p] && x in g.nodes && x.node in g.h && x.node in g.num &&
      WellFormedAt(g.h, x.node)
  }

  lemma Next(g: Plan, list: seq<PickleNode>, p: nat)
    requires Leads(g, list) && p < |list|
    ensures NextIs(g, list, p, list[p])
  {
    SeenOnce(g, list, p, 0);
  }

  /** The redirection of one node that is done. */
  lemma RedirectOne(g: Plan, base: set<Ref>, list: seq<PickleNode>, p: nat, n: nat, x: PickleNode, before: seq<nat>)
    requires NextIs(g, list, p, x) && x.node !in base && Phase(g.h[x.node]) == n
    requires Redirects(g, base + SeenIn(g.h, list[..p], n), before)
    ensures x.index < |before| && Redirects(g, base + SeenIn(g.h, list[..p + 1], n), before[x.index := g.Phi()[x.node]])
    ensures g.Phi()[x.node] == x.index ==> Redirects(g, base + SeenIn(g.h, list[..p + 1], n), before)
  {
    SeenOnce(g, list, p, n);
    SeenMore(g.h, list[..p], x, n);
    var done := base + SeenIn(g.h, list[..p], n);
    assert base + SeenIn(g.h, list[..p + 1], n) == done + {x.node};
    OneRedirected(g, done, x.node, before);
  }

  lemma RedirectNone(g: Plan, list: seq<PickleNode>, p: nat, n: nat, x: PickleNode)
    requires NextIs(g, list, p, x) && Phase(g.h[x.node]) != n
    ensures SeenIn(g.h, list[..p + 1], n) == SeenIn(g.h, list[..p], n)
  {
    SeenOnce(g, list, p, n);
    SeenMore(g.h, list[..p], x, n);
  }

  /** What a phase writes of a node. */
  lemma OneKept(g: Plan, x: PickleNode, n: nat)
    requires g.Ok() && x in g.nodes && x.node in g.h && x.node in g.num
    ensures Covered(g.h, g.Phi()) && x.node in g.Phi()
    ensures KeptOne(g.h, g.Phi(), x, n) ==
            if Phase(g.h[x.node]) == n && g.Phi()[x.node] == x.index then [ItemFor(g, x)] else []
  {
  }

  lemma EarlyAlone(v: Value<Ref>)
    requires IsEarly(v)
    ensures Phase(v) == 0 && Children(v) == []
  {
  }

  /** A node that the dictionaries do not know of passes them by. */
  lemma PassesBy(g: Plan, p: nat, x: PickleNode, features: map<Value<Ref>, nat>, builtins: map<Text, map<Text, nat>>)
    requires NextIs(g, g.nodes, p, x) && !Mergeable(g.h[x.node])
    requires KnownFeatures(g.h, g.Phi(), g.nodes[..p], features) && KnownBuiltins(g.h, g.Phi(), g.nodes[..p], builtins)
    ensures KnownFeatures(g.h, g.Phi(), g.nodes[..p + 1], features) &&
      KnownBuiltins(g.h, g.Phi(), g.nodes[..p + 1], builtins)
  {
    SeenOnce(g, g.nodes, p, 0);
    PlanIs(g);
    FeaturesSeen(g.h, g.Phi(), g.nodes[..p], x, features);
    BuiltinsSeen(g.h, g.Phi(), g.nodes[..p], x, builtins);
  }

  /** A feature: it is redirected if it is known, and else written and known. */
  lemma FeatureStep(g: Plan, p: nat, x: PickleNode, redirections: seq<nat>, features: map<Value<Ref>, nat>,
                    builtins: map<Text, map<Text, nat>>)
    requires ValuesAt(g, p, redirections, features, builtins) && NextIs(g, g.nodes, p, x) && IsFeature(g.h[x.node])
    ensures x.index < |redirections|
    ensures var v := g.h[x.node];
      if v in features then
        && g.Phi()[x.node] != x.index && ValuesAt(g, p + 1, redirections[x.index := features[v]], features, builtins)
      else
        && g.Phi()[x.node] == x.index && ValuesAt(g, p + 1, redirections, features[v := x.index], builtins)
  {
    hide Ready, PickleMerging.Phi, Leads, Redirects, KnownFeatures, KnownBuiltins, Mergeable, IsFeature, SeenIn,
         PickleMerging.Phase;
    var v := g.h[x.node];
    FeatureIs(v);
    EarlyAlone(v);
    FeatureKnown(g, g.nodes, p, features);
    SeenOnce(g, g.nodes, p, 0);
    PlanIs(g);
    FeaturesSeen(g.h, g.Phi(), g.nodes[..p], x, features);
    BuiltinsSeen(g.h, g.Phi(), g.nodes[..p], x, builtins);
    assert {} + SeenIn(g.h, g.nodes[..p], 0) == SeenIn(g.h, g.nodes[..p], 0);
    assert {} + SeenIn(g.h, g.nodes[..p + 1], 0) == SeenIn(g.h, g.nodes[..p + 1], 0);
    RedirectOne(g, {}, g.nodes, p, 0, x, redirections);
  }

  lemma FeatureIs(v: Value<Ref>)
    requires IsFeature(v)
    ensures IsEarly(v) && !v.Builtin? && Mergeable(v)
  {
  }

  /** A builtin, likewise. */
  lemma BuiltinStep(g: Plan, p: nat, x: PickleNode, redirections: seq<nat>, features: map<Value<Ref>, nat>,
                    builtins: map<Text, map<Text, nat>>)
    requires ValuesAt(g, p, redirections, features, builtins) && NextIs(g, g.nodes, p, x) && g.h[x.node].Builtin?
    ensures x.index < |redirections|
    ensures var (a, b) := (g.h[x.node].moduleName, g.h[x.node].name);
      if a in builtins && b in builtins[a] then
        && g.Phi()[x.node] != x.index && ValuesAt(g, p + 1, redirections[x.index := builtins[a][b]], features, builtins)
      else
        && g.Phi()[x.node] == x.index &&
           ValuesAt(g, p + 1, redirections, features, WithBuiltin(builtins, a, b, x.index))
  {
    hide Ready, PickleMerging.Phi, Leads, Redirects, KnownFeatures, KnownBuiltins, SeenIn, PickleMerging.Phase,
         WithBuiltin;
    EarlyAlone(g.h[x.node]);
    BuiltinKnown(g, g.nodes, p, builtins);
    SeenOnce(g, g.nodes, p, 0);
    PlanIs(g);
    FeaturesSeen(g.h, g.Phi(), g.nodes[..p], x, features);
    BuiltinsSeen(g.h, g.Phi(), g.nodes[..p], x, builtins);
    assert {} + SeenIn(g.h, g.nodes[..p], 0) == SeenIn(g.h, g.nodes[..p], 0);
    assert {} + SeenIn(g.h, g.nodes[..p + 1], 0) == SeenIn(g.h, g.nodes[..p + 1], 0);
    RedirectOne(g, {}, g.nodes, p, 0, x, redirections);
  }

  /** Another value is written. */
  lemma ValueStep(g: Plan, p: nat, x: PickleNode, redirections: seq<nat>, features: map<Value<Ref>, nat>,
                  builtins: map<Text, map<Text, nat>>)
    requires ValuesAt(g, p, redirections, features, builtins) && NextIs(g, g.nodes, p, x) && !Mergeable(g.h[x.node])
    ensures ValuesAt(g, p + 1, redirections, features, builtins)
    ensures IsEarly(g.h[x.node]) ==> g.Phi()[x.node] == x.index
  {
    var v := g.h[x.node];
    if IsEarly(v) { EarlyAlone(v); }
    NotEarly(v);
    hide Ready, PickleMerging.Phi, Leads, Redirects, KnownFeatures, KnownBuiltins, SeenIn, PickleMerging.Phase, IsEarly;
    PassesBy(g, p, x, features, builtins);
    if IsEarly(v) {
      OtherLeads(g, g.nodes, p);
      assert {} + SeenIn(g.h, g.nodes[..p], 0) == SeenIn(g.h, g.nodes[..p], 0);
      assert {} + SeenIn(g.h, g.nodes[..p + 1], 0) == SeenIn(g.h, g.nodes[..p + 1], 0);
      RedirectOne(g, {}, g.nodes, p, 0, x, redirections);
    } else {
      RedirectNone(g, g.nodes, p, 0, x);
    }
  }

  lemma NotEarly(v: Value<Ref>)
    ensures !IsEarly(v) ==> Phase(v) != 0
    ensures IsEarly(v) ==> !IsArity(v)
  {
  }

  // --------------------------------------------------------------- arities, and the others

  /** Where the second phase is, in the list the first one left. */
  ghost predicate AritiesAt(g: Plan, list: seq<PickleNode>, p: nat, redirections: seq<nat>,
                            arities: map<nat, seq<(nat, Ref)>>) {
    && Leads(g, list) && p <= |list|
    && Redirects(g, SeenIn(g.h, g.nodes, 0) + SeenIn(g.h, list[..p], 1), redirections)
    && KnownArities(g.h, g.Phi(), list[..p], arities)
  }

  lemma AritiesAtStart(g: Plan, redirections: seq<nat>, features: map<Value<Ref>, nat>,
                       builtins: map<Text, map<Text, nat>>)
    requires ValuesAt(g, |g.nodes|, redirections, features, builtins)
    ensures In(g.h, g.nodes) && AritiesAt(g, Left(g.h, g.nodes, 0), 0, redirections, map[])
  {
    hide Ready, Leads, Left, KnownArities, Redirects, PickleMerging.Phi, ValuesAt, SeenIn, PickleMerging.Phase;
    ValuesEnd(g, redirections, features, builtins);
    LeftLeads(g, 0);
    NoneKnown(g);
    NoneSeen(g.h, SeenIn(g.h, g.nodes, 0));
  }

  lemma ValuesEnd(g: Plan, redirections: seq<nat>, features: map<Value<Ref>, nat>, builtins: map<Text, map<Text, nat>>)
    requires ValuesAt(g, |g.nodes|, redirections, features, builtins)
    ensures Leads(g, g.nodes) && g.Ok() && In(g.h, g.nodes) && Redirects(g, SeenIn(g.h, g.nodes, 0), redirections)
  {
    hide Ready, KnownFeatures, KnownBuiltins, Redirects, PickleMerging.Phi;
    assert g.nodes[..|g.nodes|] == g.nodes;
  }

  lemma NoneKnown(g: Plan)
    requires g.Ok()
    ensures KnownArities(g.h, g.Phi(), [], map[])
  {
  }

  lemma NoneSeen(h: Heap, done: set<Ref>)
    ensures done + SeenIn(h, [], 1) == done
  {
  }

  /** The features an arity lists are done. */
  lemma AritySettled(g: Plan, list: seq<PickleNode>, p: nat, x: PickleNode, redirections: seq<nat>,
                     arities: map<nat, seq<(nat, Ref)>>)
    requires AritiesAt(g, list, p, redirections, arities) && NextIs(g, list, p, x) && IsArity(g.h[x.node])
    ensures Settled(g, SeenIn(g.h, g.nodes, 0) + SeenIn(g.h, list[..p], 1), x)
    ensures x.refs.Compound? && x.refs.last in g.bound && g.bound[x.refs.last] < |redirections|
    ensures Label(g.h, x.node) in g.num && redirections[g.bound[x.refs.last]] == g.Phi()[Label(g.h, x.node)]
  {
    hide PickleMerging.Phi, Ready, Leads, SeenIn, KnownArities, Placed, Children, WellFormed, WellFormedAt;
    LeadsIs(g, list);
    PlanIs(g);
    SeenOnce(g, list, p, 0);
    ArityFeatures(g, x.node);
    ArityPlace(x.index, g.h[x.node]);
    PlaceBound(g, x.node, |Children(g.h[x.node])| - 1);
  }

  /** The features and the label of an arity are done, or stand for themselves. */
  lemma ArityFeatures(g: Plan, r: Ref)
    requires g.Ok() && r in g.num && r in g.h && IsArity(g.h[r])
    ensures forall c <- Children(g.h[r]) :: c in g.num && c in SeenIn(g.h, g.nodes, 0)
    ensures Label(g.h, r) in Children(g.h[r])
  {
    hide PickleMerging.Phi, SeenIn, Led, Covered, Within, Listed;
    ReadyIs(g.h, g.root, g.num, g.nodes, g.bound);
    var cs := Children(g.h[r]);
    assert cs[|cs| - 1] == Label(g.h, r);
    forall c <- cs ensures c in g.num && c in SeenIn(g.h, g.nodes, 0) {
      FeatureDone(g, c);
    }
  }

  lemma ArityPlace(k: nat, v: Value<Ref>)
    requires IsArity(v)
    ensures |Children(v)| > 0 && Children(v)[|Children(v)| - 1] == v.last && Stateless(v)
    ensures Placed(k, v).Compound? && Placed(k, v).last == Field(k, |Children(v)| - 1)
  {
  }

  lemma FeatureDone(g: Plan, c: Ref)
    requires g.Ok() && c in g.num && c in g.h && IsFeature(g.h[c])
    ensures c in SeenIn(g.h, g.nodes, 0)
  {
    FeatureIs(g.h[c]);
    EarlyAlone(g.h[c]);
    InList(g, c);
  }

  lemma InList(g: Plan, c: Ref)
    requires g.Ok() && c in g.num
    ensures exists y <- g.nodes :: y.node == c
  {
    assert g.nodes[|g.nodes| - g.num[c]] in g.nodes;
  }

  /** An arity that is equal to one known under its label is redirected to it. */
  lemma ArityStep(g: Plan, list: seq<PickleNode>, p: nat, x: PickleNode, redirections: seq<nat>,
                  arities: map<nat, seq<(nat, Ref)>>, key: nat, e: (nat, Ref))
    requires AritiesAt(g, list, p, redirections, arities) && NextIs(g, list, p, x) && IsArity(g.h[x.node])
    requires Label(g.h, x.node) in g.num && key == g.Phi()[Label(g.h, x.node)] && key in arities && e in arities[key]
    requires WellFormedAt(g.h, e.1) && SameArity(g.h, e.1, x.node)
    ensures x.index < |redirections|
    ensures g.Phi()[x.node] != x.index && AritiesAt(g, list, p + 1, redirections[x.index := e.0], arities)
  {
    hide Ready, PickleMerging.Phi, Leads, Redirects, SeenIn, PickleMerging.Phase, WithArity, SameArity, WellFormedAt,
         Settled, KnownArities, IsArity, Label;
    ArityPhase(g, x);
    PlanIs(g);
    SeenOnce(g, list, p, 1);
    RedirectOne(g, SeenIn(g.h, g.nodes, 0), list, p, 1, x, redirections);
    ArityListed(g, list, p, arities, key, e);
    HasOne(g, arities, x.node, key, e);
    AritiesSeen(g.h, g.Phi(), list[..p], x, arities);
  }

  /** One that is not leads, and is known from now on. */
  lemma NewArityStep(g: Plan, list: seq<PickleNode>, p: nat, x: PickleNode, redirections: seq<nat>,
                     arities: map<nat, seq<(nat, Ref)>>, key: nat)
    requires AritiesAt(g, list, p, redirections, arities) && NextIs(g, list, p, x) && IsArity(g.h[x.node])
    requires Label(g.h, x.node) in g.num && key == g.Phi()[Label(g.h, x.node)]
    requires key in arities ==> forall e <- arities[key] :: WellFormedAt(g.h, e.1) && !SameArity(g.h, e.1, x.node)
    ensures g.Phi()[x.node] == x.index
    ensures AritiesAt(g, list, p + 1, redirections, WithArity(arities, key, x.index, x.node))
  {
    NotHas(g, arities, x.node, key);
    hide Ready, PickleMerging.Phi, Leads, Redirects, SeenIn, PickleMerging.Phase, WithArity, SameArity, WellFormedAt,
         Settled, KnownArities, IsArity, Label, HasArity;
    ArityPhase(g, x);
    PlanIs(g);
    SeenOnce(g, list, p, 1);
    if g.Phi()[x.node] != x.index {
      ArityKnown(g, list, p, arities);
      assert false;
    }
    RedirectOne(g, SeenIn(g.h, g.nodes, 0), list, p, 1, x, redirections);
    ArityAdded(g.h, g.Phi(), list[..p], x, arities);
  }

  /** What is known under the label of an arity are arities. */
  lemma KnownAre(g: Plan, list: seq<PickleNode>, p: nat, redirections: seq<nat>, arities: map<nat, seq<(nat, Ref)>>,
                 key: nat)
    requires AritiesAt(g, list, p, redirections, arities) && key in arities
    ensures forall e <- arities[key] :: WellFormedAt(g.h, e.1)
  {
    forall e <- arities[key] ensures WellFormedAt(g.h, e.1) {
      var y :| y in list[..p] && IsListed(g.h, g.Phi(), y, key, e);
    }
  }

  lemma ArityPhase(g: Plan, x: PickleNode)
    requires g.Ok() && x in g.nodes && x.node in g.h && IsArity(g.h[x.node])
    ensures Phase(g.h[x.node]) == 1 && x.node !in SeenIn(g.h, g.nodes, 0)
  {
  }

  lemma HasOne(g: Plan, m: map<nat, seq<(nat, Ref)>>, r: Ref, key: nat, e: (nat, Ref))
    requires g.Ok() && WellFormedAt(g.h, r) && IsArity(g.h[r]) && Label(g.h, r) in g.num &&
      key == g.Phi()[Label(g.h, r)]
    requires key in m && e in m[key] && WellFormedAt(g.h, e.1) && SameArity(g.h, e.1, r)
    ensures HasArity(g.h, g.Phi(), m, r)
  {
  }

  lemma NotHas(g: Plan, m: map<nat, seq<(nat, Ref)>>, r: Ref, key: nat)
    requires g.Ok() && WellFormedAt(g.h, r) && IsArity(g.h[r]) && Label(g.h, r) in g.num &&
      key == g.Phi()[Label(g.h, r)]
    requires key in m ==> forall e <- m[key] :: WellFormedAt(g.h, e.1) && !SameArity(g.h, e.1, r)
    ensures !HasArity(g.h, g.Phi(), m, r)
  {
  }

  /** A node that is no arity waits. */
  lemma OtherStep(g: Plan, list: seq<PickleNode>, p: nat, x: PickleNode, redirections: seq<nat>,
                  arities: map<nat, seq<(nat, Ref)>>)
    requires AritiesAt(g, list, p, redirections, arities) && NextIs(g, list, p, x) && !IsArity(g.h[x.node])
    ensures AritiesAt(g, list, p + 1, redirections, arities)
  {
    hide Ready, PickleMerging.Phi, Leads, Redirects, SeenIn, PickleMerging.Phase, IsArity, KnownArities, WellFormedAt;
    NoArity(g.h[x.node]);
    PlanIs(g);
    SeenOnce(g, list, p, 1);
    RedirectNone(g, list, p, 1, x);
    ArityPassed(g.h, g.Phi(), list[..p], x, arities);
  }

  lemma ArityPassed(h: Heap, phi: map<Ref, nat>, seen: seq<PickleNode>, x: PickleNode, m: map<nat, seq<(nat, Ref)>>)
    requires KnownArities(h, phi, seen, m) && WellFormedAt(h, x.node) && !IsArity(h[x.node]) && x.node in phi
    ensures KnownArities(h, phi, seen + [x], m)
  {
    hide HasArity, IsListed, IsArity;
    forall k, e | k in m && e in m[k] ensures exists y <- seen + [x] :: IsListed(h, phi, y, k, e) {
      var y :| y in seen && IsListed(h, phi, y, k, e);
      assert y in seen + [x];
    }
  }

  lemma NoArity(v: Value<Ref>)
    requires !IsArity(v)
    ensures Phase(v) != 1
  {
  }

  /** What the first two phases leave for the last. */
  ghost predicate LastAt(g: Plan, left: seq<PickleNode>, redirections: seq<nat>, arities: map<nat, seq<(nat, Ref)>>) {
    && g.Ok() && In(g.h, g.nodes)
    && var list := Left(g.h, g.nodes, 0);
      left == Left(g.h, list, 1) && AritiesAt(g, list, |list|, redirections, arities)
  }

  /** Nothing that is reached is a future or a resource. */
  ghost predicate AllStateless(g: Plan) {
    forall r <- g.num :: r in g.h && Stateless(g.h[r])
  }

  /** In the last phase every node leads, and everything is done. */
  lemma LastSettled(g: Plan, list: seq<PickleNode>, redirections: seq<nat>, arities: map<nat, seq<(nat, Ref)>>,
                    x: PickleNode)
    requires In(g.h, g.nodes) && list == Left(g.h, g.nodes, 0) && AritiesAt(g, list, |list|, redirections, arities)
    requires x in g.nodes && x.node in g.h && Phase(g.h[x.node]) == 2 && Stateless(g.h[x.node])
    ensures Settled(g, SeenIn(g.h, g.nodes, 0) + SeenIn(g.h, list, 1), x) && g.Phi()[x.node] == x.index
  {
    ReadyIs(g.h, g.root, g.num, g.nodes, g.bound);
    NodeOf(g, x);
    OthersLead(g, x.node);
    forall c <- Children(g.h[x.node])
      ensures c in g.num && (c in SeenIn(g.h, g.nodes, 0) + SeenIn(g.h, list, 1) || g.Phi()[c] == g.num[c])
    {
      InList(g, c);
      if Phase(g.h[c]) == 2 {
        OthersLead(g, c);
      }
    }
  }

  lemma OthersLead(g: Plan, r: Ref)
    requires g.Ok() && r in g.num && r in g.h && Phase(g.h[r]) == 2
    ensures g.Phi()[r] == g.num[r]
  {
    PlanLeads(g);
    InList(g, r);
    var p :| 0 <= p < |g.nodes| && g.nodes[p].node == r;
    NodeOf(g, g.nodes[p]);
    OtherLeads(g, g.nodes, p);
  }

  // --------------------------------------------------------------- the output

  /** What a phase writes of a node. */
  ghost function Out(g: Plan, x: PickleNode, n: nat): seq<Byte>
    requires g.Ok() && x.node in g.num && x.node in g.h
  {
    if Phase(g.h[x.node]) == n && g.Phi()[x.node] == x.index then Items([ItemFor(g, x)]) else []
  }

  /** What a phase has written of a list. */
  ghost predicate HasWritten(g: Plan, list: seq<PickleNode>, n: nat, bytes: seq<Byte>) {
    g.Ok() && Covered(g.h, g.Phi()) && Within(list, g.Phi()) && bytes == Items(Kept(g.h, g.Phi(), list, n))
  }

  lemma WrittenNone(g: Plan, n: nat)
    requires g.Ok()
    ensures HasWritten(g, [], n, [])
  {
  }

  lemma WrittenOne(g: Plan, list: seq<PickleNode>, x: PickleNode, n: nat, bytes: seq<Byte>)
    requires g.Ok() && x in g.nodes && x.node in g.h && x.node in g.num && HasWritten(g, list, n, bytes)
    ensures HasWritten(g, list + [x], n, bytes + Out(g, x, n))
  {
    hide Ready, PickleMerging.Phi, Covered, Within, Kept, KeptOne, ItemFor, PickleMerging.Phase;
    OneKept(g, x, n);
    KeptMore(g.h, g.Phi(), list, x, n);
    var (kept, one) := (Kept(g.h, g.Phi(), list, n), KeptOne(g.h, g.Phi(), x, n));
    ItemsJoin(kept, one);
    if one == [] {
      assert kept + [] == kept;
    }
  }

  lemma WrittenMore(g: Plan, list: seq<PickleNode>, p: nat, x: PickleNode, n: nat, bytes: seq<Byte>)
    requires NextIs(g, list, p, x) && HasWritten(g, list[..p], n, bytes)
    ensures HasWritten(g, list[..p + 1], n, bytes + Out(g, x, n))
  {
    hide Ready, PickleMerging.Phi, Leads, HasWritten, WellFormedAt, PickleMerging.Phase;
    SeenOnce(g, list, p, n);
    WrittenOne(g, list[..p], x, n, bytes);
  }

  lemma EarlySettled(g: Plan, x: PickleNode, done: set<Ref>)
    requires g.Ok() && x in g.nodes && x.node in g.h && x.node in g.num && IsEarly(g.h[x.node])
    ensures Stateless(g.h[x.node]) && Settled(g, done, x)
  {
    EarlyAlone(g.h[x.node]);
  }

  // --------------------------------------------------------------- a list that is iterated, with removal

  /** A phase has gone through p nodes of a list: those it leaves are before the iterator, and the others after it. */
  ghost predicate Splits(g: Plan, list: seq<PickleNode>, p: nat, nodes: seq<PickleNode>, iter: nat, n: nat) {
    && In(g.h, list) && p <= |list| && In(g.h, list[..p]) && iter <= |nodes|
    && nodes[..iter] == Left(g.h, list[..p], n) && nodes[iter..] == list[p..]
  }

  lemma StartLeft(g: Plan, list: seq<PickleNode>, n: nat)
    requires In(g.h, list)
    ensures Splits(g, list, 0, list, 0, n)
  {
  }

  lemma Spliced<T>(list: seq<T>, p: nat, nodes: seq<T>, iter: nat)
    requires p <= |list| && iter < |nodes| && nodes[iter..] == list[p..]
    ensures p < |list| && nodes[iter] == list[p] && list[..p + 1] == list[..p] + [list[p]]
    ensures nodes[iter + 1..] == list[p + 1..] && nodes[..iter + 1] == nodes[..iter] + [list[p]]
    ensures var cut := nodes[..iter] + nodes[iter + 1..];
      cut[iter..] == list[p + 1..] && cut[..iter] == nodes[..iter]
  {
    assert nodes[iter..][0] == list[p..][0];
    assert nodes[iter + 1..] == nodes[iter..][1..] == list[p..][1..] == list[p + 1..];
  }

  lemma NextOf(g: Plan, list: seq<PickleNode>, p: nat, nodes: seq<PickleNode>, iter: nat, n: nat)
    requires Splits(g, list, p, nodes, iter, n) && Leads(g, list) && iter < |nodes|
    ensures p < |list| && NextIs(g, list, p, nodes[iter]) && nodes[iter] == list[p]
    ensures Splits(g, list, p + 1, if Phase(g.h[list[p].node]) > n then nodes else nodes[..iter] + nodes[iter + 1..],
                   if Phase(g.h[list[p].node]) > n then iter + 1 else iter, n)
  {
    hide Leads, Ready, Left, PickleMerging.Phase, WellFormedAt;
    Spliced(list, p, nodes, iter);
    Next(g, list, p);
    LeftMore(g.h, list[..p], list[p], n);
  }

  lemma SplitsDone(g: Plan, list: seq<PickleNode>, p: nat, nodes: seq<PickleNode>, iter: nat, n: nat)
    requires Splits(g, list, p, nodes, iter, n) && iter == |nodes|
    ensures p == |list| && In(g.h, list) && nodes == Left(g.h, list, n) && list[..p] == list
  {
    hide Left;
    assert |list[p..]| == |nodes[iter..]| == 0;
    assert nodes[..iter] == nodes && list[..p] == list;
  }
}
