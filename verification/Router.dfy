/** The router of router.rs: registration, lookup with percent-decoding, and the method table. */
module Router {
  import opened Basics
  import opened Paths
  import opened RouteTrie
  import opened Deps

  type Handler = int

  datatype Endpoint = Endpoint(
    methods: map<string, Handler>, env: DepEnv, middleware: seq<int>, bodyLimit: Option<nat>,
    streamBody: bool, handlerTimeout: Option<nat>, bodyReadTimeout: Option<nat>)

  datatype RouteMatch =
    | Found(endpoint: Endpoint, params: seq<(string, string)>)
    | MethodMissing
    | Malformed
    | NotFound

  /** A segment in braces is a parameter; a lone brace is text. */
  function SegOf(s: string): Seg {
    if |s| >= 2 && s[0] == '{' && s[|s| - 1] == '}' then Param(s[1..|s| - 1]) else Lit(s)
  }

  function PatternFrom(segs: seq<string>): Pattern { seq(|segs|, i requires 0 <= i < |segs| => SegOf(segs[i])) }

  function PatternOf(path: string): Pattern { PatternFrom(Segments(path)) }

  // ---------- lookup, as values ----------

  function Resolve(root: Node<Endpoint>, segs: seq<string>, verb: string): RouteMatch {
    match Winner(root, segs)
    case None => NotFound
    case Some(p) =>
      match At(root, p)
      case None => NotFound
      case Some(ep) => if verb in ep.methods then Found(ep, Captures(p, segs)) else MethodMissing
  }

  function Routed(root: Node<Endpoint>, path: string, verb: string): RouteMatch {
    match DecodedAll(Segments(path))
    case None => Malformed
    case Some(segs) => Resolve(root, segs, verb)
  }

  function Methods(root: Node<Endpoint>, path: string): Option<set<string>> {
    match DecodedAll(Segments(path))
    case None => None
    case Some(segs) =>
      match Winner(root, segs)
      case None => None
      case Some(p) => match At(root, p) case None => None case Some(ep) => Some(ep.methods.Keys)
  }

  /** Route `i` fits, and beats every other route that does. */
  ghost predicate Wins(rs: Routes<Endpoint>, i: int, segs: seq<string>) {
    && 0 <= i < |rs| && Matches(rs[i].0, segs)
    && forall j :: 0 <= j < |rs| && j != i && Matches(rs[j].0, segs) ==> Prefers(rs[i].0, rs[j].0)
  }

  /**
   * The trie built from a list of routes answers as the list does: not found exactly when no
   * pattern fits; otherwise by the one pattern that beats all others that fit, with its captures
   * in order, or method-missing if that pattern's table lacks the method.
   */
  lemma RouterAgreesWithList(rs: Routes<Endpoint>, segs: seq<string>, verb: string)
    requires Build(rs).Ok?
    ensures Resolve(Build(rs).value, segs, verb) == NotFound <==>
            forall i :: 0 <= i < |rs| ==> !Matches(rs[i].0, segs)
    ensures Resolve(Build(rs).value, segs, verb) != NotFound ==> exists i :: Wins(rs, i, segs)
    ensures forall i :: Wins(rs, i, segs) ==>
              Resolve(Build(rs).value, segs, verb) ==
              if verb in rs[i].1.methods then Found(rs[i].1, Captures(rs[i].0, segs)) else MethodMissing
  {
    hide At, Matches, Prefers, Winner, Build, ParamAt, Through, Clash;
    var root := Build(rs).value;
    BuildIsExact(rs);
    WinnerIsBest(root, segs);
    var w := Winner(root, segs);
    forall i | 0 <= i < |rs| ensures At(root, rs[i].0) == Some(rs[i].1) {
      assert rs[i] == (rs[i].0, rs[i].1);
    }
    if w.Some? {
      var e := At(root, w.value).value;
      var i :| 0 <= i < |rs| && rs[i] == (w.value, e);
      DistinctPatterns(rs);
      assert Wins(rs, i, segs);
      forall k | Wins(rs, k, segs) ensures k == i {
        if k != i {
          assert Prefers(rs[k].0, rs[i].0) && Prefers(rs[i].0, rs[k].0);
          PrefersIsOneWay(rs[i].0, rs[k].0);
        }
      }
    } else {
      forall i | 0 <= i < |rs| ensures !Matches(rs[i].0, segs) {}
    }
  }

  lemma DistinctPatterns(rs: Routes<Endpoint>)
    requires Compatible(rs)
    ensures forall i, j :: 0 <= i < |rs| && 0 <= j < |rs| && i != j ==> rs[i].0 != rs[j].0
  {
    hide Through;
    forall i, j | 0 <= i < |rs| && 0 <= j < |rs| && i != j ensures rs[i].0 != rs[j].0 {
      assert i < j ==> !Clash(rs[i].0, rs[j].0);
      assert j < i ==> !Clash(rs[j].0, rs[i].0);
    }
  }

  /** The advertised methods are exactly those that are found. */
  lemma MethodsAreThoseFound(root: Node<Endpoint>, path: string, verb: string)
    ensures Routed(root, path, verb).Found? <==> Methods(root, path).Some? && verb in Methods(root, path).value
    ensures Methods(root, path).None? <==> Routed(root, path, verb).Malformed? || Routed(root, path, verb).NotFound?
  {
    hide At, Winner, DecodedAll, Segments;
  }

  // ---------- the search, with its shared stack of parameters ----------

  /** A failed branch leaves the parameters as they were; a successful one adds its captures. */
  method FindNode<E>(n: Node<E>, segs: seq<string>, params: seq<(string, string)>)
    returns (found: Option<E>, params': seq<(string, string)>)
    ensures Winner(n, segs).None? ==> found == None && params' == params
    ensures Winner(n, segs).Some? ==>
              && found.Some? && found == At(n, Winner(n, segs).value)
              && params' == params + Captures(Winner(n, segs).value, segs)
    decreases segs
  {
    hide At, Captures;
    params' := params;
    if segs == [] {
      AtRoot(n);
      CapturesOfNothing(params);
      return n.endpoint, params';
    }
    var head, rest := segs[0], segs[1..];
    if head in n.statics {
      found, params' := FindNode(n.statics[head], rest, params');
      if found.Some? {
        WinnerVia(n, segs, Lit(head), params);
        return;
      }
    }
    if n.param.Some? {
      var (name, child) := n.param.value;
      params' := params' + [(name, head)];
      found, params' := FindNode(child, rest, params');
      if found.Some? {
        WinnerVia(n, segs, Param(name), params);
        return;
      }
      params' := params'[..|params'| - 1];
    }
    found := None;
  }

  lemma CapturesOfNothing(params: seq<(string, string)>)
    ensures params + Captures([], []) == params
  {
  }

  lemma WinnerVia<E>(n: Node<E>, segs: seq<string>, s: Seg, params: seq<(string, string)>)
    requires segs != [] && Child(n, s).Some? && Winner(Child(n, s).value, segs[1..]).Some?
    ensures var p := Winner(Child(n, s).value, segs[1..]).value;
            && At(n, [s] + p) == At(Child(n, s).value, p)
            && params + Captures([s] + p, segs) ==
               (if s.Param? then params + [(s.name, segs[0])] else params) + Captures(p, segs[1..])
  {
    var p := Winner(Child(n, s).value, segs[1..]).value;
    assert ([s] + p)[1..] == p;
    StepDown(n, [s] + p);
  }

  // ---------- updates in place ----------

  /** The trie with the node at `p` replaced. */
  function Plug<E>(n: Node<E>, p: Pattern, c: Node<E>): Node<E>
    decreases p
  {
    if p == [] then c else WithChild(n, p[0], Plug(ChildOrBare(n, p[0]), p[1..], c))
  }

  lemma {:induction false} PlugSame<E>(n: Node<E>, p: Pattern, c: Node<E>)
    requires NodeAt(n, p) == Some(c)
    ensures Plug(n, p, c) == n
    decreases p
  {
    if p != [] { PlugSame(ChildOrBare(n, p[0]), p[1..], c); }
  }

  /** Replacing a node and then one of its children is replacing it once. */
  lemma {:induction false} PlugTwice<E>(n: Node<E>, p: Pattern, focus: Node<E>, s: Seg, c: Node<E>, x: Node<E>)
    requires NodeAt(n, p) == Some(focus) && !Refuses(focus, s)
    ensures var grown := Plug(n, p, WithChild(focus, s, c));
            NodeAt(grown, p + [s]) == Some(c) && Plug(grown, p + [s], x) == Plug(n, p, WithChild(focus, s, x))
    decreases p
  {
    var grown := Plug(n, p, WithChild(focus, s, c));
    if p == [] {
      ChildOfWithChild(focus, s, c, s);
      assert (p + [s])[1..] == [];
      assert Plug(grown, p + [s], x) == WithChild(grown, s, x);
    } else {
      var d := ChildOrBare(n, p[0]);
      PlugTwice(d, p[1..], focus, s, c, x);
      assert (p + [s])[0] == p[0] && (p + [s])[1..] == p[1..] + [s];
      ChildOfWithChild(n, p[0], Plug(d, p[1..], WithChild(focus, s, c)), p[0]);
    }
  }

  class Trie {
    var root: Node<Endpoint>

    constructor ()
      ensures root == Bare()
    {
      root := Bare();
    }

    /** The walk of the source: each missing node is created in place on the way down. */
    method Insert(path: string, endpoint: Endpoint) returns (r: Option<RouteError>)
      modifies this
      ensures (root, r) == Inserted(old(root), PatternOf(path), endpoint)
    {
      var segs := Segments(path);
      ghost var p := PatternOf(path);
      var focus := root;
      var i := 0;
      assert p[0..] == p && p[..0] == [];
      while i < |segs|
        invariant 0 <= i <= |segs| == |p|
        invariant NodeAt(root, p[..i]) == Some(focus)
        invariant Inserted(old(root), p, endpoint) ==
                  (Plug(root, p[..i], Inserted(focus, p[i..], endpoint).0), Inserted(focus, p[i..], endpoint).1)
      {
        hide Plug, NodeAt, Segments;
        var s := SegOf(segs[i]);
        ghost var done, rest := p[..i], p[i..];
        assert rest[0] == s && rest[1..] == p[i + 1..] && p[..i + 1] == done + [s];
        if Refuses(focus, s) {
          PlugSame(root, done, focus);
          return Some(ParamConflict);
        }
        var child := ChildOrBare(focus, s);
        PlugTwice(root, done, focus, s, child, Inserted(child, p[i + 1..], endpoint).0);
        assert PatternFrom(segs[..i]) == done;
        root := Plug(root, PatternFrom(segs[..i]), WithChild(focus, s, child));
        focus := child;
        i := i + 1;
      }
      assert p[i..] == [] && p[..i] == p;
      if focus.endpoint.Some? {
        PlugSame(root, p, focus);
        return Some(DuplicateRoute);
      }
      root := Plug(root, PatternFrom(segs), focus.(endpoint := Some(endpoint)));
      r := None;
    }

    /** The source's lookup: a path without '%' skips decoding. */
    method Find(path: string, verb: string) returns (r: RouteMatch)
      ensures r == Routed(root, path, verb)
    {
      hide Segments, DecodedAll, Resolve;
      if '%' !in path {
        PlainPathDecodes(path);
        r := FindIn(Segments(path), verb);
        return;
      }
      var segs := DecodePath(path);
      if segs.None? { return Malformed; }
      r := FindIn(segs.value, verb);
    }

    method FindIn(segs: seq<string>, verb: string) returns (r: RouteMatch)
      ensures r == Resolve(root, segs, verb)
    {
      hide At, Winner;
      var found, params := FindNode(root, segs, []);
      if found.None? { return NotFound; }
      assert params == Captures(Winner(root, segs).value, segs);
      r := if verb in found.value.methods then Found(found.value, params) else MethodMissing;
    }

    /** The path's methods in ascending order, each once. */
    method MethodsFor(path: string) returns (r: Option<seq<string>>)
      ensures r.Some? <==> Methods(root, path).Some?
      ensures r.Some? ==> InOrder(r.value) && forall x :: x in r.value <==> x in Methods(root, path).value
    {
      hide At, Winner, Segments, DecodedAll;
      var segs := Some(Segments(path));
      if '%' in path {
        segs := DecodePath(path);
        if segs.None? { return None; }
      } else {
        PlainPathDecodes(path);
      }
      var found, _ := FindNode(root, segs.value, []);
      if found.None? { return None; }
      var names := Sorted(found.value.methods.Keys);
      r := Some(names);
    }
  }

  // ---------- the order of method names ----------

  /** Lexicographic order. */
  predicate Before(a: string, b: string) {
    b != "" && (a == "" || a[0] < b[0] || (a[0] == b[0] && Before(a[1..], b[1..])))
  }

  lemma {:induction false} BeforeIsTotal(a: string, b: string)
    requires a != b
    ensures Before(a, b) || Before(b, a)
  {
    if a != "" && b != "" && a[0] == b[0] {
      assert a == [a[0]] + a[1..] && b == [b[0]] + b[1..];
      BeforeIsTotal(a[1..], b[1..]);
    }
  }

  lemma {:induction false} BeforeIsTransitive(a: string, b: string, c: string)
    requires Before(a, b) && Before(b, c)
    ensures Before(a, c)
  {
    if a != "" && a[0] == b[0] == c[0] { BeforeIsTransitive(a[1..], b[1..], c[1..]); }
  }

  ghost predicate InOrder(s: seq<string>) { forall i, j :: 0 <= i < j < |s| ==> Before(s[i], s[j]) }

  function Insert(v: string, s: seq<string>): seq<string> {
    if s == [] || Before(v, s[0]) then [v] + s else [s[0]] + Insert(v, s[1..])
  }

  lemma {:induction false} InsertKeepsOrder(v: string, s: seq<string>)
    requires InOrder(s) && v !in s
    ensures InOrder(Insert(v, s)) && forall x :: x in Insert(v, s) <==> x == v || x in s
  {
    if s != [] {
      var r, rest := Insert(v, s), s[1..];
      assert forall i :: 0 <= i < |rest| ==> rest[i] == s[i + 1];
      assert s == [s[0]] + rest;
      if Before(v, s[0]) {
        forall j | 0 <= j < |s| ensures Before(v, s[j]) { if j > 0 { BeforeIsTransitive(v, s[0], s[j]); } }
      } else {
        InsertKeepsOrder(v, rest);
        BeforeIsTotal(v, s[0]);
        var t := Insert(v, rest);
        forall j | 0 <= j < |t| ensures Before(s[0], t[j]) {
          assert t[j] in t;
          if t[j] != v {
            var k :| 0 <= k < |rest| && rest[k] == t[j];
            assert Before(s[0], s[k + 1]);
          }
        }
      }
    }
  }

  method Sorted(names: set<string>) returns (r: seq<string>)
    ensures InOrder(r) && forall x :: x in r <==> x in names
  {
    hide Insert, InOrder;
    r := [];
    assert InOrder(r) by { NothingIsInOrder(); }
    var todo := names;
    while todo != {}
      invariant todo <= names && InOrder(r) && forall x :: x in r <==> x in names && x !in todo
      decreases todo
    {
      SetHasMember(todo);
      var v :| v in todo;
      InsertKeepsOrder(v, r);
      r := Insert(v, r);
      todo := todo - {v};
    }
  }

  lemma NothingIsInOrder()
    ensures InOrder([])
  {
  }

  method DecodePath(path: string) returns (r: Option<seq<string>>)
    ensures r == DecodedAll(Segments(path))
  {
    hide Segments, Decoded;
    var raw := Segments(path);
    var decoded: seq<string> := [];
    var i := 0;
    assert raw[0..] == raw;
    AfterNone(DecodedAll(raw));
    while i < |raw|
      invariant 0 <= i <= |raw|
      invariant DecodedAll(raw) == Following(decoded, DecodedAll(raw[i..]))
    {
      assert raw[i..][0] == raw[i] && raw[i..][1..] == raw[i + 1..];
      var d := DecodeSegment(raw[i]);
      if d.None? { return None; }
      FollowingStep(decoded, d.value, DecodedAll(raw[i + 1..]));
      decoded := decoded + [d.value];
      i := i + 1;
    }
    assert raw[i..] == [] && decoded + [] == decoded;
    r := Some(decoded);
  }

  function Following(done: seq<string>, r: Option<seq<string>>): Option<seq<string>> {
    match r case None => None case Some(s) => Some(done + s)
  }

  lemma AfterNone(r: Option<seq<string>>)
    ensures Following([], r) == r
  {
    if r.Some? { assert [] + r.value == r.value; }
  }

  lemma FollowingStep(done: seq<string>, x: string, r: Option<seq<string>>)
    ensures r.Some? ==> Following(done, Some([x] + r.value)) == Following(done + [x], r)
  {
    if r.Some? { assert done + ([x] + r.value) == done + [x] + r.value; }
  }
}
