/**
 * Modules of module.rs and the app build of app.rs: nested mounts flattened into one list of
 * routes, each with its effective environment and middleware, then registered in the trie.
 */
module AppModule {
  import opened Basics
  import opened Paths
  import opened RouteTrie
  import opened Deps
  import opened Router

  datatype MethodRouter = MethodRouter(
    handlers: seq<(string, Handler)>, bodyLimit: Option<nat>, streamBody: bool,
    handlerTimeout: Option<nat>, bodyReadTimeout: Option<nat>)

  datatype Module = Module(
    name: string, routes: seq<(string, MethodRouter)>, mounts: seq<(string, Module)>, env: DepEnv, middleware: seq<int>)

  datatype FlatRoute = FlatRoute(path: string, methods: MethodRouter, env: DepEnv, middleware: seq<int>)

  // ---------- flattening ----------

  function FlatRoutes(routes: seq<(string, MethodRouter)>, prefix: string, env: DepEnv, mw: seq<int>): seq<FlatRoute> {
    seq(|routes|, i requires 0 <= i < |routes| => FlatRoute(JoinPaths(prefix, routes[i].0), routes[i].1, env, mw))
  }

  /** The module's own routes, then each mounted module's in turn. */
  function Flat(m: Module, prefix: string, env: DepEnv, mw: seq<int>): seq<FlatRoute>
    decreases m, |m.mounts| + 1
  {
    FlatRoutes(m.routes, prefix, Merged(env, m.env), mw + m.middleware)
    + FlatMounts(m, |m.mounts|, prefix, Merged(env, m.env), mw + m.middleware)
  }

  /** The routes of the first `k` mounted modules. */
  function FlatMounts(m: Module, k: nat, prefix: string, env: DepEnv, mw: seq<int>): seq<FlatRoute>
    requires k <= |m.mounts|
    decreases m, k
  {
    if k == 0 then []
    else FlatMounts(m, k - 1, prefix, env, mw) + Flat(m.mounts[k - 1].1, JoinPaths(prefix, m.mounts[k - 1].0), env, mw)
  }

  method Flatten(m: Module, prefix: string, parentEnv: DepEnv, parentMw: seq<int>) returns (out: seq<FlatRoute>)
    ensures out == Flat(m, prefix, parentEnv, parentMw)
    decreases m
  {
    hide JoinPaths, Merged;
    var merged := MergeFrom(parentEnv, m.env);
    var mw := parentMw + m.middleware;
    out := [];
    var i := 0;
    while i < |m.routes|
      invariant 0 <= i <= |m.routes|
      invariant out == FlatRoutes(m.routes[..i], prefix, merged, mw)
    {
      out := out + [FlatRoute(JoinPaths(prefix, m.routes[i].0), m.routes[i].1, merged, mw)];
      i := i + 1;
    }
    assert m.routes[..i] == m.routes;
    ghost var own := out;
    i := 0;
    while i < |m.mounts|
      invariant 0 <= i <= |m.mounts|
      invariant out == own + FlatMounts(m, i, prefix, merged, mw)
    {
      var childPrefix := JoinPaths(prefix, m.mounts[i].0);
      var child := Flatten(m.mounts[i].1, childPrefix, merged, mw);
      assert own + FlatMounts(m, i, prefix, merged, mw) + child == own + (FlatMounts(m, i, prefix, merged, mw) + child);
      out := out + child;
      i := i + 1;
    }
  }

  // ---------- what flattening means ----------

  /** A route seen from the outside: its segments, and the modules around it, outermost first. */
  datatype Leaf = Leaf(segs: seq<string>, chain: seq<Module>, methods: MethodRouter)

  function Own(m: Module): seq<Leaf> {
    seq(|m.routes|, i requires 0 <= i < |m.routes| => Leaf(Segments(m.routes[i].0), [m], m.routes[i].1))
  }

  /** Every route of the module tree, by concatenating segment lists and nothing else. */
  function Leaves(m: Module): seq<Leaf>
    decreases m, |m.mounts| + 1
  {
    Own(m) + MountedLeaves(m, |m.mounts|)
  }

  function MountedLeaves(m: Module, k: nat): seq<Leaf>
    requires k <= |m.mounts|
    decreases m, k
  {
    if k == 0 then []
    else MountedLeaves(m, k - 1) + Beneath(m, Segments(m.mounts[k - 1].0), Leaves(m.mounts[k - 1].1))
  }

  function Beneath(m: Module, segs: seq<string>, ls: seq<Leaf>): seq<Leaf> {
    seq(|ls|, i requires 0 <= i < |ls| => Leaf(segs + ls[i].segs, [m] + ls[i].chain, ls[i].methods))
  }

  /** The provider of the innermost module that has one, else the app's. */
  function Provided(outer: DepEnv, chain: seq<Module>, id: TypeId): Option<Provider> {
    if chain == [] then ProviderOf(outer, id)
    else
      var inner := ProviderOf(chain[|chain| - 1].env, id);
      if inner.Some? then inner else Provided(outer, chain[..|chain| - 1], id)
  }

  /** The middleware of every module on the way in, outermost first. */
  function ChainMiddleware(chain: seq<Module>): seq<int> {
    if chain == [] then [] else chain[0].middleware + ChainMiddleware(chain[1..])
  }

  /** Registration keeps one provider a type, in this module and those mounted in it. */
  predicate WellBuilt(m: Module) {
    Sound(m.env) && forall i :: 0 <= i < |m.mounts| ==> WellBuilt(m.mounts[i].1)
  }

  ghost predicate Agrees(f: FlatRoute, l: Leaf, prefix: string, env: DepEnv, mw: seq<int>) {
    && Segments(f.path) == Segments(prefix) + l.segs
    && f.methods == l.methods
    && (forall id :: ProviderOf(f.env, id) == Provided(env, l.chain, id))
    && f.middleware == mw + ChainMiddleware(l.chain)
  }

  ghost predicate AllAgree(fs: seq<FlatRoute>, ls: seq<Leaf>, prefix: string, env: DepEnv, mw: seq<int>) {
    |fs| == |ls| && forall i :: 0 <= i < |fs| ==> Agrees(fs[i], ls[i], prefix, env, mw)
  }

  lemma {:induction false} ProvidedThrough(env: DepEnv, m: Module, chain: seq<Module>, id: TypeId)
    requires Sound(env) && Sound(m.env)
    ensures Provided(Merged(env, m.env), chain, id) == Provided(env, [m] + chain, id)
    decreases |chain|
  {
    hide Merged, ProviderOf, Sound;
    if chain == [] {
      InnerWins(env, m.env, id);
      assert [m] + chain == [m] && [m][..0] == [];
    } else {
      var all := [m] + chain;
      ProvidedThrough(env, m, chain[..|chain| - 1], id);
      assert all[..|all| - 1] == [m] + chain[..|chain| - 1] && all[|all| - 1] == chain[|chain| - 1];
    }
  }

  /** A route that agrees with its place in a mounted module agrees with its place around it. */
  lemma AgreesOutside(f: FlatRoute, l: Leaf, m: Module, rel: string, prefix: string, env: DepEnv, mw: seq<int>)
    requires Sound(env) && Sound(m.env)
    requires Agrees(f, l, JoinPaths(prefix, rel), Merged(env, m.env), mw + m.middleware)
    ensures Agrees(f, Leaf(Segments(rel) + l.segs, [m] + l.chain, l.methods), prefix, env, mw)
  {
    hide Segments, JoinPaths, Merged, ProviderOf, Provided, Sound;
    JoinConcatenates(prefix, rel);
    forall id ensures ProviderOf(f.env, id) == Provided(env, [m] + l.chain, id) {
      ProvidedThrough(env, m, l.chain, id);
    }
    assert ([m] + l.chain)[1..] == l.chain;
  }

  lemma OwnAgree(m: Module, prefix: string, env: DepEnv, mw: seq<int>)
    requires Sound(env) && Sound(m.env)
    ensures AllAgree(FlatRoutes(m.routes, prefix, Merged(env, m.env), mw + m.middleware), Own(m), prefix, env, mw)
  {
    hide Segments, JoinPaths, Merged, ProviderOf, Sound;
    forall i | 0 <= i < |m.routes|
      ensures Agrees(FlatRoutes(m.routes, prefix, Merged(env, m.env), mw + m.middleware)[i], Own(m)[i], prefix, env, mw)
    {
      JoinConcatenates(prefix, m.routes[i].0);
      forall id ensures ProviderOf(Merged(env, m.env), id) == Provided(env, [m], id) {
        ProvidedThrough(env, m, [], id);
        assert [m] + [] == [m];
      }
      assert [m][1..] == [] && ChainMiddleware([m]) == m.middleware;
    }
  }

  lemma AllAgreeConcat(a: seq<FlatRoute>, b: seq<FlatRoute>, la: seq<Leaf>, lb: seq<Leaf>, prefix: string, env: DepEnv,
                       mw: seq<int>)
    requires AllAgree(a, la, prefix, env, mw) && AllAgree(b, lb, prefix, env, mw)
    ensures AllAgree(a + b, la + lb, prefix, env, mw)
  {
    hide Agrees;
  }

  /**
   * Nested mounts are concatenated segment lists: the flat list has one route per leaf of the
   * module tree, in order, at the concatenation of the segments on the way to it, with the
   * innermost provider of each type and the middleware from the outside in.
   */
  lemma {:induction false} FlattenMeans(m: Module, prefix: string, env: DepEnv, mw: seq<int>)
    requires WellBuilt(m) && Sound(env)
    ensures AllAgree(Flat(m, prefix, env, mw), Leaves(m), prefix, env, mw)
    decreases m, |m.mounts| + 1
  {
    hide AllAgree, FlatRoutes, Own, FlatMounts, MountedLeaves, Merged, Sound;
    OwnAgree(m, prefix, env, mw);
    MountsMean(m, |m.mounts|, prefix, env, mw);
    AllAgreeConcat(FlatRoutes(m.routes, prefix, Merged(env, m.env), mw + m.middleware),
                   FlatMounts(m, |m.mounts|, prefix, Merged(env, m.env), mw + m.middleware),
                   Own(m), MountedLeaves(m, |m.mounts|), prefix, env, mw);
  }

  lemma {:induction false} MountsMean(m: Module, k: nat, prefix: string, env: DepEnv, mw: seq<int>)
    requires WellBuilt(m) && Sound(env) && k <= |m.mounts|
    ensures AllAgree(FlatMounts(m, k, prefix, Merged(env, m.env), mw + m.middleware), MountedLeaves(m, k),
                     prefix, env, mw)
    decreases m, k
  {
    hide Agrees, Flat, Leaves, Segments, JoinPaths, Merged, Sound;
    if k > 0 {
      var (rel, child) := m.mounts[k - 1];
      var env', mw' := Merged(env, m.env), mw + m.middleware;
      MergedIsSound(env, m.env);
      MountsMean(m, k - 1, prefix, env, mw);
      FlattenMeans(child, JoinPaths(prefix, rel), env', mw');
      var fs, ls := Flat(child, JoinPaths(prefix, rel), env', mw'), Leaves(child);
      var out := Beneath(m, Segments(rel), ls);
      forall i | 0 <= i < |fs| ensures Agrees(fs[i], out[i], prefix, env, mw) {
        AgreesOutside(fs[i], ls[i], m, rel, prefix, env, mw);
      }
      AllAgreeConcat(FlatMounts(m, k - 1, prefix, env', mw'), fs, MountedLeaves(m, k - 1), out, prefix, env, mw);
    }
  }

  lemma MergedIsSound(a: DepEnv, b: DepEnv)
    requires Sound(a) && Sound(b)
    ensures Sound(Merged(a, b))
  {
    InnerWins(a, b, 0);
  }

  // ---------- building the app ----------

  function MethodTable(handlers: seq<(string, Handler)>): map<string, Handler> {
    if handlers == [] then map[]
    else MethodTable(handlers[..|handlers| - 1])[handlers[|handlers| - 1].0 := handlers[|handlers| - 1].1]
  }

  /** Registered once each, every method has its own handler, and no other method has any. */
  lemma {:induction false} TableIsExact(handlers: seq<(string, Handler)>)
    requires DistinctMethods(handlers)
    ensures forall i :: 0 <= i < |handlers| ==>
              handlers[i].0 in MethodTable(handlers) && MethodTable(handlers)[handlers[i].0] == handlers[i].1
    ensures forall verb :: verb in MethodTable(handlers) ==> exists i :: 0 <= i < |handlers| && handlers[i].0 == verb
  {
    if handlers != [] {
      var n := |handlers| - 1;
      var front := handlers[..n];
      TableIsExact(front);
      assert forall i :: 0 <= i < n ==> front[i] == handlers[i];
      forall verb | verb in MethodTable(handlers) ensures exists i :: 0 <= i < |handlers| && handlers[i].0 == verb {
        if verb == handlers[n].0 {
          assert handlers[n].0 == verb;
        } else {
          assert verb in MethodTable(front);
          var i :| 0 <= i < n && front[i].0 == verb;
          assert handlers[i].0 == verb;
        }
      }
    }
  }

  predicate DistinctMethods(handlers: seq<(string, Handler)>) {
    forall i, j :: 0 <= i < j < |handlers| ==> handlers[i].0 != handlers[j].0
  }

  function EndpointOf(f: FlatRoute): Endpoint {
    Endpoint(MethodTable(f.methods.handlers), f.env, f.middleware, f.methods.bodyLimit, f.methods.streamBody,
             f.methods.handlerTimeout, f.methods.bodyReadTimeout)
  }

  function RoutesOf(fs: seq<FlatRoute>): Routes<Endpoint> {
    seq(|fs|, i requires 0 <= i < |fs| => (PatternOf(fs[i].path), EndpointOf(fs[i])))
  }

  method TableOf(handlers: seq<(string, Handler)>) returns (r: Option<map<string, Handler>>)
    ensures r == if DistinctMethods(handlers) then Some(MethodTable(handlers)) else None
  {
    var methods: map<string, Handler> := map[];
    var i := 0;
    while i < |handlers|
      invariant 0 <= i <= |handlers| && DistinctMethods(handlers[..i])
      invariant methods == MethodTable(handlers[..i])
      invariant forall v :: v in methods <==> exists j :: 0 <= j < i && handlers[j].0 == v
    {
      var (verb, h) := handlers[i];
      if verb in methods { return None; }
      assert handlers[..i + 1][..i] == handlers[..i];
      methods := methods[verb := h];
      i := i + 1;
    }
    assert handlers[..i] == handlers;
    r := Some(methods);
  }

  predicate TablesAreSound(fs: seq<FlatRoute>) {
    forall i :: 0 <= i < |fs| ==> DistinctMethods(fs[i].methods.handlers)
  }

  /** The whole build: it succeeds exactly on distinct methods and compatible patterns. */
  method BuildTrie(fs: seq<FlatRoute>) returns (trie: Trie, ok: bool)
    ensures ok <==> TablesAreSound(fs) && Compatible(RoutesOf(fs))
    ensures ok ==> Build(RoutesOf(fs)) == Ok(trie.root)
    ensures fresh(trie)
  {
    hide PatternOf, MethodTable, DistinctMethods, Inserted, Compatible;
    BuildIsExact(RoutesOf(fs));
    trie := new Trie();
    var i := 0;
    while i < |fs|
      invariant 0 <= i <= |fs| && fresh(trie)
      invariant TablesAreSound(fs[..i]) && Build(RoutesOf(fs)[..i]) == Ok(trie.root)
    {
      var table := TableOf(fs[i].methods.handlers);
      if table.None? { return trie, false; }
      ghost var rs := RoutesOf(fs);
      var r := trie.Insert(fs[i].path, EndpointOf(fs[i]).(methods := table.value));
      assert rs[..i + 1][..i] == rs[..i] && rs[..i + 1][i] == rs[i];
      if r.Some? {
        FailureSticks(rs, i + 1);
        return trie, false;
      }
      i := i + 1;
    }
    assert fs[..i] == fs && RoutesOf(fs)[..i] == RoutesOf(fs);
    ok := true;
  }

  lemma {:induction false} FailureSticks(rs: Routes<Endpoint>, k: nat)
    requires k <= |rs| && Build(rs[..k]).Err?
    ensures Build(rs).Err?
    decreases |rs| - k
  {
    if k == |rs| {
      assert rs[..k] == rs;
    } else {
      assert rs[..k + 1][..k] == rs[..k];
      FailureSticks(rs, k + 1);
    }
  }

  /** Where a leaf's route stands below `prefix`. */
  function LeafPattern(prefix: string, l: Leaf): Pattern { PatternFrom(Segments(prefix) + l.segs) }

  /** Leaf `i` fits, and beats every other leaf that does. */
  ghost predicate LeafWins(ls: seq<Leaf>, prefix: string, i: int, segs: seq<string>) {
    && 0 <= i < |ls| && Matches(LeafPattern(prefix, ls[i]), segs)
    && forall j :: 0 <= j < |ls| && j != i && Matches(LeafPattern(prefix, ls[j]), segs) ==>
         Prefers(LeafPattern(prefix, ls[i]), LeafPattern(prefix, ls[j]))
  }

  /** What a leaf answers with: its own table, its captures, the innermost providers, the middleware on the way in. */
  ghost predicate AnswersAs(r: RouteMatch, l: Leaf, prefix: string, env: DepEnv, mw: seq<int>, segs: seq<string>,
                            verb: string)
    requires |LeafPattern(prefix, l)| == |segs|
  {
    if verb !in MethodTable(l.methods.handlers) then r == MethodMissing
    else
      && r.Found? && r.params == Captures(LeafPattern(prefix, l), segs)
      && r.endpoint.methods == MethodTable(l.methods.handlers)
      && r.endpoint.middleware == mw + ChainMiddleware(l.chain)
      && r.endpoint.bodyLimit == l.methods.bodyLimit && r.endpoint.streamBody == l.methods.streamBody
      && r.endpoint.handlerTimeout == l.methods.handlerTimeout
      && r.endpoint.bodyReadTimeout == l.methods.bodyReadTimeout
      && forall id :: ProviderOf(r.endpoint.env, id) == Provided(env, l.chain, id)
  }

  /** The flat routes are the leaves, route by route. */
  lemma FlatIsLeaves(m: Module, prefix: string, env: DepEnv, mw: seq<int>, segs: seq<string>)
    requires WellBuilt(m) && Sound(env)
    ensures var fs, ls := Flat(m, prefix, env, mw), Leaves(m);
            && |fs| == |ls|
            && (forall i :: 0 <= i < |ls| ==>
                 RoutesOf(fs)[i].0 == LeafPattern(prefix, ls[i]) && Agrees(fs[i], ls[i], prefix, env, mw))
            && (forall i :: Wins(RoutesOf(fs), i, segs) <==> LeafWins(ls, prefix, i, segs))
  {
    hide WellBuilt, Sound, Flat, Leaves, Matches, Prefers, Segments, MethodTable, Provided, ProviderOf, ChainMiddleware,
         PatternFrom;
    FlattenMeans(m, prefix, env, mw);
    var fs, ls := Flat(m, prefix, env, mw), Leaves(m);
    assert forall i :: 0 <= i < |ls| ==> RoutesOf(fs)[i].0 == LeafPattern(prefix, ls[i]);
  }

  /**
   * From modules to answers: a path in a mounted module tree is not found exactly when it fits no
   * leaf; otherwise some leaf wins, by its place at the concatenation of its mounts' segments, and
   * the answer is that leaf's.
   */
  lemma MountedRoutesResolve(m: Module, prefix: string, env: DepEnv, mw: seq<int>, segs: seq<string>, verb: string)
    requires WellBuilt(m) && Sound(env) && Build(RoutesOf(Flat(m, prefix, env, mw))).Ok?
    ensures var r := Resolve(Build(RoutesOf(Flat(m, prefix, env, mw))).value, segs, verb);
            && (r == NotFound <==> forall i :: 0 <= i < |Leaves(m)| ==>
                 !Matches(LeafPattern(prefix, Leaves(m)[i]), segs))
            && (r != NotFound ==> exists i :: LeafWins(Leaves(m), prefix, i, segs))
            && forall i :: LeafWins(Leaves(m), prefix, i, segs) ==>
                AnswersAs(r, Leaves(m)[i], prefix, env, mw, segs, verb)
  {
    hide WellBuilt, Sound, Flat, Leaves, Prefers, Captures, Segments, Build, Resolve, MethodTable, Provided, ProviderOf,
         ChainMiddleware, LeafPattern, Wins;
    var fs, ls := Flat(m, prefix, env, mw), Leaves(m);
    FlatIsLeaves(m, prefix, env, mw, segs);
    RouterAgreesWithList(RoutesOf(fs), segs, verb);
    forall i | LeafWins(ls, prefix, i, segs)
      ensures AnswersAs(Resolve(Build(RoutesOf(fs)).value, segs, verb), ls[i], prefix, env, mw, segs, verb)
    {
      assert Wins(RoutesOf(fs), i, segs) && Agrees(fs[i], ls[i], prefix, env, mw);
    }
  }
}
