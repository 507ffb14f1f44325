/**
 * The segment trie of router.rs against the list of patterns it was built from: what is
 * accepted, what matches, and which pattern wins.
 */
module RouteTrie {
  import opened Basics

  datatype Seg = Lit(text: string) | Param(name: string)

  type Pattern = seq<Seg>

  datatype Node<E> = Node(statics: map<string, Node<E>>, param: Option<(string, Node<E>)>, endpoint: Option<E>)

  function Bare<E>(): Node<E> { Node(map[], None, None) }

  datatype RouteError = ParamConflict | DuplicateRoute

  // ---------- following a pattern through the trie ----------

  function Child<E>(n: Node<E>, s: Seg): Option<Node<E>> {
    match s
    case Lit(t) => if t in n.statics then Some(n.statics[t]) else None
    case Param(x) => if n.param.Some? && n.param.value.0 == x then Some(n.param.value.1) else None
  }

  function ChildOrBare<E>(n: Node<E>, s: Seg): Node<E> {
    match Child(n, s) case None => Bare() case Some(c) => c
  }

  function WithChild<E>(n: Node<E>, s: Seg, c: Node<E>): Node<E> {
    match s
    case Lit(t) => n.(statics := n.statics[t := c])
    case Param(x) => n.(param := Some((x, c)))
  }

  /** The node already has a parameter of another name. */
  predicate Refuses<E>(n: Node<E>, s: Seg) { s.Param? && n.param.Some? && n.param.value.0 != s.name }

  function NodeAt<E>(n: Node<E>, p: Pattern): Option<Node<E>>
    decreases p
  {
    if p == [] then Some(n)
    else match Child(n, p[0]) case None => None case Some(c) => NodeAt(c, p[1..])
  }

  /** The endpoint registered under exactly this pattern. */
  function At<E>(n: Node<E>, p: Pattern): Option<E> {
    match NodeAt(n, p) case None => None case Some(c) => c.endpoint
  }

  /** The parameter name taken at the end of this pattern. */
  function ParamAt<E>(n: Node<E>, p: Pattern): Option<string> {
    match NodeAt(n, p) case None => None case Some(c) => if c.param.Some? then Some(c.param.value.0) else None
  }

  /** What insertion makes of the trie: on an error, the nodes made on the way stay. */
  function Inserted<E>(n: Node<E>, p: Pattern, e: E): (Node<E>, Option<RouteError>)
    decreases p
  {
    if p == [] then
      if n.endpoint.Some? then (n, Some(DuplicateRoute)) else (n.(endpoint := Some(e)), None)
    else if Refuses(n, p[0]) then (n, Some(ParamConflict))
    else
      var (c, r) := Inserted(ChildOrBare(n, p[0]), p[1..], e);
      (WithChild(n, p[0], c), r)
  }

  lemma ChildOfWithChild<E>(n: Node<E>, s: Seg, c: Node<E>, s': Seg)
    requires !Refuses(n, s)
    ensures Child(WithChild(n, s, c), s') == if s' == s then Some(c) else Child(n, s')
  {
  }

  lemma NothingInBare<E>(p: Pattern)
    ensures At(Bare<E>(), p) == None && ParamAt(Bare<E>(), p) == None
  {
  }

  /** The rest of `q` beyond its first segment, seen from a child. */
  lemma StepDown<E>(n: Node<E>, q: Pattern)
    requires q != []
    ensures At(n, q) == At(ChildOrBare(n, q[0]), q[1..])
    ensures ParamAt(n, q) == ParamAt(ChildOrBare(n, q[0]), q[1..])
  {
    NothingInBare<E>(q[1..]);
  }

  /** An accepted insertion registers its own pattern and disturbs no other; a refused one registers nothing. */
  lemma {:induction false} InsertedAt<E>(n: Node<E>, p: Pattern, e: E, q: Pattern)
    ensures var (n', r) := Inserted(n, p, e); At(n', q) == if r.None? && q == p then Some(e) else At(n, q)
    decreases p
  {
    hide At;
    var (n', r) := Inserted(n, p, e);
    AtRoot(n);
    AtRoot(n');
    if p == [] {
      if q != [] { StepDown(n, q); StepDown(n', q); SameChildren(n, n', q[0]); }
    } else if !Refuses(n, p[0]) {
      var c := ChildOrBare(n, p[0]);
      if q != [] {
        StepDown(n, q);
        StepDown(n', q);
        ChildOfWithChild(n, p[0], Inserted(c, p[1..], e).0, q[0]);
        if q[0] == p[0] {
          InsertedAt(c, p[1..], e, q[1..]);
          assert q == [q[0]] + q[1..] && p == [p[0]] + p[1..];
        }
      }
    }
  }

  lemma AtRoot<E>(n: Node<E>)
    ensures At(n, []) == n.endpoint
  {
  }

  lemma SameChildren<E>(a: Node<E>, b: Node<E>, s: Seg)
    requires a.statics == b.statics && a.param == b.param
    ensures ChildOrBare(a, s) == ChildOrBare(b, s)
  {
  }

  /** Pattern `p` has parameter `x` right after `q`. */
  predicate Through(p: Pattern, q: Pattern, x: string) { |q| < |p| && p[..|q|] == q && p[|q|] == Param(x) }

  lemma ThroughTail(p: Pattern, q: Pattern, x: string)
    requires p != [] && q != []
    ensures Through(p, q, x) <==> p[0] == q[0] && Through(p[1..], q[1..], x)
  {
    if |q| < |p| {
      assert p[1..][..|q| - 1] == p[..|q|][1..];
      assert p[..|q|] == [p[0]] + p[1..|q|] && q == [q[0]] + q[1..];
    }
  }

  /** An accepted insertion takes exactly the parameter names on its way. */
  lemma {:induction false} InsertedParamAt<E>(n: Node<E>, p: Pattern, e: E, q: Pattern, x: string)
    requires Inserted(n, p, e).1.None?
    ensures ParamAt(Inserted(n, p, e).0, q) == Some(x) <==> ParamAt(n, q) == Some(x) || Through(p, q, x)
    decreases p
  {
    hide ParamAt, Through;
    var n' := Inserted(n, p, e).0;
    ParamAtRoot(n);
    ParamAtRoot(n');
    if p == [] {
      NotThroughEmpty(q, x);
      if q != [] { StepDown(n, q); StepDown(n', q); SameChildren(n, n', q[0]); }
    } else if q == [] {
      ThroughRoot(p, x);
    } else {
      var c := ChildOrBare(n, p[0]);
      StepDown(n, q);
      StepDown(n', q);
      ThroughTail(p, q, x);
      ChildOfWithChild(n, p[0], Inserted(c, p[1..], e).0, q[0]);
      if q[0] == p[0] { InsertedParamAt(c, p[1..], e, q[1..], x); }
    }
  }

  lemma ParamAtRoot<E>(n: Node<E>)
    ensures ParamAt(n, []) == if n.param.Some? then Some(n.param.value.0) else None
  {
  }

  lemma NotThroughEmpty(q: Pattern, x: string)
    ensures !Through([], q, x)
  {
  }

  lemma ThroughRoot(p: Pattern, x: string)
    requires p != []
    ensures Through(p, [], x) <==> p[0] == Param(x)
  {
  }

  /** The pattern is taken, or wants a parameter where the trie has another. */
  ghost predicate Blocked<E>(n: Node<E>, p: Pattern) {
    At(n, p).Some? || exists q, x, y :: Through(p, q, x) && ParamAt(n, q) == Some(y) && x != y
  }

  lemma {:induction false} AcceptedUnlessBlocked<E>(n: Node<E>, p: Pattern, e: E)
    ensures Inserted(n, p, e).1.None? <==> !Blocked(n, p)
    decreases p
  {
    hide At, ParamAt, Through;
    AtRoot(n);
    ParamAtRoot(n);
    if p == [] {
      forall q, x ensures !Through(p, q, x) { NotThroughEmpty(q, x); }
    } else {
      var c, tail := ChildOrBare(n, p[0]), p[1..];
      StepDown(n, p);
      forall x ensures Through(p, [], x) <==> p[0] == Param(x) { ThroughRoot(p, x); }
      if Refuses(n, p[0]) {
        assert Through(p, [], p[0].name) && ParamAt(n, []) == Some(n.param.value.0);
      } else {
        AcceptedUnlessBlocked(c, tail, e);
        forall q, x, y | Through(p, q, x) && ParamAt(n, q) == Some(y) && x != y
          ensures Blocked(c, tail)
        {
          if q != [] {
            ThroughTail(p, q, x);
            StepDown(n, q);
            assert Through(tail, q[1..], x) && ParamAt(c, q[1..]) == Some(y);
          }
        }
        forall q, x, y | Through(tail, q, x) && ParamAt(c, q) == Some(y) && x != y
          ensures Blocked(n, p)
        {
          var q' := [p[0]] + q;
          assert q'[1..] == q;
          ThroughTail(p, q', x);
          StepDown(n, q');
          assert Through(p, q', x) && ParamAt(n, q') == Some(y);
        }
      }
    }
  }

  // ---------- the list of routes ----------

  /** Two patterns cannot be registered together: equal, or two names for one parameter. */
  ghost predicate Clash(p: Pattern, q: Pattern) {
    p == q || exists r, x, y :: Through(p, r, x) && Through(q, r, y) && x != y
  }

  lemma ClashIsSymmetric(p: Pattern, q: Pattern)
    ensures Clash(p, q) <==> Clash(q, p)
  {
  }

  type Routes<E> = seq<(Pattern, E)>

  ghost predicate Compatible<E>(rs: Routes<E>) {
    forall i, j :: 0 <= i < j < |rs| ==> !Clash(rs[i].0, rs[j].0)
  }

  /** Registration in order, up to the first error. */
  function Build<E>(rs: Routes<E>): Result<Node<E>, RouteError> {
    if rs == [] then Ok(Bare())
    else
      match Build(rs[..|rs| - 1])
      case Err(e) => Err(e)
      case Ok(t) =>
        var (t', r) := Inserted(t, rs[|rs| - 1].0, rs[|rs| - 1].1);
        if r.Some? then Err(r.value) else Ok(t')
  }

  /** The trie holds the routes and the parameter names they use, and nothing else. */
  ghost predicate Holds<E(!new)>(t: Node<E>, rs: Routes<E>) {
    && (forall p, e :: At(t, p) == Some(e) <==> exists i :: 0 <= i < |rs| && rs[i] == (p, e))
    && (forall q, x :: ParamAt(t, q) == Some(x) <==> exists i :: 0 <= i < |rs| && Through(rs[i].0, q, x))
  }

  lemma BlockedMeans<E(!new)>(t: Node<E>, rs: Routes<E>, p: Pattern)
    requires Holds(t, rs)
    ensures Blocked(t, p) <==> exists i :: 0 <= i < |rs| && Clash(rs[i].0, p)
  {
    hide At, ParamAt, Through;
    if Blocked(t, p) {
      if At(t, p).Some? {
        var i :| 0 <= i < |rs| && rs[i] == (p, At(t, p).value);
        assert Clash(rs[i].0, p);
      } else {
        var q, x, y :| Through(p, q, x) && ParamAt(t, q) == Some(y) && x != y;
        var i :| 0 <= i < |rs| && Through(rs[i].0, q, y);
        assert Clash(rs[i].0, p);
      }
    }
    if i :| 0 <= i < |rs| && Clash(rs[i].0, p) {
      if rs[i].0 == p {
        assert At(t, p) == Some(rs[i].1);
      } else {
        var r, x, y :| Through(rs[i].0, r, x) && Through(p, r, y) && x != y;
        assert ParamAt(t, r) == Some(x);
      }
    }
  }

  lemma InsertedHolds<E(!new)>(t: Node<E>, rs: Routes<E>, p: Pattern, e: E)
    requires Holds(t, rs) && Inserted(t, p, e).1.None?
    ensures Holds(Inserted(t, p, e).0, rs + [(p, e)])
  {
    hide Inserted, At, ParamAt, Through;
    var t', rs' := Inserted(t, p, e).0, rs + [(p, e)];
    assert rs'[|rs|] == (p, e) && forall i :: 0 <= i < |rs| ==> rs'[i] == rs[i];
    AcceptedUnlessBlocked(t, p, e);
    forall q, d ensures At(t', q) == Some(d) <==> exists i :: 0 <= i < |rs'| && rs'[i] == (q, d) {
      InsertedAt(t, p, e, q);
      if i :| 0 <= i < |rs| && rs[i] == (q, d) { assert rs'[i] == (q, d); }
    }
    forall q, x ensures ParamAt(t', q) == Some(x) <==> exists i :: 0 <= i < |rs'| && Through(rs'[i].0, q, x) {
      InsertedParamAt(t, p, e, q, x);
      if i :| 0 <= i < |rs| && Through(rs[i].0, q, x) { assert Through(rs'[i].0, q, x); }
    }
  }

  /** A list of routes is accepted exactly when no two of its patterns clash; the trie then holds the list. */
  lemma {:induction false} BuildIsExact<E(!new)>(rs: Routes<E>)
    ensures Build(rs).Ok? <==> Compatible(rs)
    ensures Build(rs).Ok? ==> Holds(Build(rs).value, rs)
  {
    hide Inserted, Clash, Blocked, Holds;
    if rs == [] {
      BareHoldsNothing<E>();
    } else {
      var front, last := rs[..|rs| - 1], rs[|rs| - 1];
      BuildIsExact(front);
      assert rs == front + [last];
      if Build(front).Ok? {
        var t := Build(front).value;
        AcceptedUnlessBlocked(t, last.0, last.1);
        BlockedMeans(t, front, last.0);
        assert forall i :: 0 <= i < |front| ==> rs[i] == front[i];
        if Inserted(t, last.0, last.1).1.None? { InsertedHolds(t, front, last.0, last.1); }
      } else {
        var i, j :| 0 <= i < j < |front| && Clash(front[i].0, front[j].0);
        assert Clash(rs[i].0, rs[j].0);
      }
    }
  }

  lemma BareHoldsNothing<E(!new)>()
    ensures Holds(Bare<E>(), [])
  {
    forall p ensures At(Bare<E>(), p) == None && ParamAt(Bare<E>(), p) == None { NothingInBare<E>(p); }
  }

  // ---------- matching ----------

  /** The pattern fits the path segment by segment. */
  predicate Matches(p: Pattern, segs: seq<string>) {
    |p| == |segs| && forall i :: 0 <= i < |p| ==> p[i].Lit? ==> p[i].text == segs[i]
  }

  /** The parameters' values, in order. */
  function Captures(p: Pattern, segs: seq<string>): seq<(string, string)>
    requires |p| == |segs|
  {
    if p == [] then []
    else (if p[0].Param? then [(p[0].name, segs[0])] else []) + Captures(p[1..], segs[1..])
  }

  /** At the first segment where they part, `p` is literal and `q` a parameter. */
  ghost predicate Prefers(p: Pattern, q: Pattern) {
    exists k :: PartAt(p, q, k)
  }

  predicate PartAt(p: Pattern, q: Pattern, k: int) {
    0 <= k < |p| && k < |q| && p[..k] == q[..k] && p[k].Lit? && q[k].Param?
  }

  lemma PrefersIsOneWay(p: Pattern, q: Pattern)
    requires Prefers(p, q)
    ensures !Prefers(q, p) && p != q
  {
    var k :| PartAt(p, q, k);
    forall j ensures !PartAt(q, p, j) {
      if 0 <= j < |q| && j < |p| {
        assert j < k ==> p[..k][j] == q[..k][j];
        assert k < j ==> p[..j][k] == p[k] && q[..j][k] == q[k];
      }
    }
  }

  lemma PrefersTail(s: Seg, p: Pattern, q: Pattern)
    requires Prefers(p, q)
    ensures Prefers([s] + p, [s] + q)
  {
    var k :| PartAt(p, q, k);
    assert ([s] + p)[..k + 1] == [s] + p[..k] && ([s] + q)[..k + 1] == [s] + q[..k];
    assert PartAt([s] + p, [s] + q, k + 1);
  }

  /** The pattern the search settles on: literal child first, parameter child if that fails. */
  function Winner<E>(n: Node<E>, segs: seq<string>): (r: Option<Pattern>)
    ensures r.Some? ==> |r.value| == |segs|
    decreases segs
  {
    if segs == [] then
      if n.endpoint.Some? then Some([]) else None
    else
      var viaLit := if segs[0] in n.statics then Winner(n.statics[segs[0]], segs[1..]) else None;
      if viaLit.Some? then Some([Lit(segs[0])] + viaLit.value)
      else if n.param.None? then None
      else
        match Winner(n.param.value.1, segs[1..])
        case None => None
        case Some(p) => Some([Param(n.param.value.0)] + p)
  }

  lemma MatchesTail(p: Pattern, segs: seq<string>)
    requires p != [] && segs != []
    ensures Matches(p, segs) <==> (p[0].Lit? ==> p[0].text == segs[0]) && Matches(p[1..], segs[1..])
  {
    if |p| == |segs| && (p[0].Lit? ==> p[0].text == segs[0]) && Matches(p[1..], segs[1..]) {
      forall i | 0 <= i < |p| && p[i].Lit? ensures p[i].text == segs[i] {
        if i > 0 { assert p[1..][i - 1] == p[i] && segs[1..][i - 1] == segs[i]; }
      }
    }
  }

  /** Every pattern of the trie that fits starts with the literal child's segment or the parameter's. */
  lemma FitsViaAChild<E>(n: Node<E>, segs: seq<string>, q: Pattern)
    requires segs != [] && At(n, q).Some? && Matches(q, segs)
    ensures q != [] && At(ChildOrBare(n, q[0]), q[1..]).Some? && Matches(q[1..], segs[1..])
    ensures if q[0].Lit? then q[0].text == segs[0] && segs[0] in n.statics && ChildOrBare(n, q[0]) == n.statics[segs[0]]
            else n.param == Some((q[0].name, ChildOrBare(n, q[0])))
  {
    StepDown(n, q);
    MatchesTail(q, segs);
    NothingInBare<E>(q[1..]);
  }

  ghost predicate Best<E>(n: Node<E>, segs: seq<string>, p: Pattern) {
    && At(n, p).Some? && Matches(p, segs)
    && forall q :: At(n, q).Some? && Matches(q, segs) ==> q == p || Prefers(p, q)
  }

  /**
   * The search fails exactly when no registered pattern fits; otherwise it finds the fitting
   * pattern that beats every other one.
   */
  lemma {:induction false} WinnerIsBest<E>(n: Node<E>, segs: seq<string>)
    ensures Winner(n, segs).None? <==> forall q :: !(At(n, q).Some? && Matches(q, segs))
    ensures Winner(n, segs).Some? ==> Best(n, segs, Winner(n, segs).value)
    decreases segs
  {
    hide At, Matches, Prefers;
    var w := Winner(n, segs);
    if segs == [] {
      AtRoot(n);
      forall q ensures Matches(q, segs) <==> q == [] { OnlyEmptyFits(q); }
    } else {
      var head, tail := segs[0], segs[1..];
      if head in n.statics { WinnerIsBest(n.statics[head], tail); }
      if n.param.Some? { WinnerIsBest(n.param.value.1, tail); }
      if w.Some? { WinnerFits(n, segs); }
      forall q | At(n, q).Some? && Matches(q, segs) ensures w.Some? && (q == w.value || Prefers(w.value, q)) {
        FitsViaAChild(n, segs, q);
        WinnerBeats(n, segs, q);
      }
    }
  }

  lemma OnlyEmptyFits(q: Pattern)
    ensures Matches(q, []) <==> q == []
  {
  }

  /** The winner is itself registered and fits, given that of the subtries. */
  lemma WinnerFits<E>(n: Node<E>, segs: seq<string>)
    requires segs != [] && Winner(n, segs).Some?
    requires segs[0] in n.statics && Winner(n.statics[segs[0]], segs[1..]).Some? ==>
               Best(n.statics[segs[0]], segs[1..], Winner(n.statics[segs[0]], segs[1..]).value)
    requires n.param.Some? && Winner(n.param.value.1, segs[1..]).Some? ==>
               Best(n.param.value.1, segs[1..], Winner(n.param.value.1, segs[1..]).value)
    ensures At(n, Winner(n, segs).value).Some? && Matches(Winner(n, segs).value, segs)
  {
    hide At, Matches, Prefers;
    var p := Winner(n, segs).value;
    StepDown(n, p);
    MatchesTail(p, segs);
    if segs[0] in n.statics && Winner(n.statics[segs[0]], segs[1..]).Some? {
      assert p[1..] == Winner(n.statics[segs[0]], segs[1..]).value;
    } else {
      assert p[1..] == Winner(n.param.value.1, segs[1..]).value;
    }
  }

  /** And it beats a pattern that fits, given that of the subtries. */
  lemma WinnerBeats<E>(n: Node<E>, segs: seq<string>, q: Pattern)
    requires segs != [] && q != []
    requires if q[0].Lit? then q[0].text == segs[0] && segs[0] in n.statics
             else n.param.Some? && q[0].name == n.param.value.0
    requires segs[0] in n.statics && q[0].Lit? ==>
               var w := Winner(n.statics[segs[0]], segs[1..]);
               w.Some? && (q[1..] == w.value || Prefers(w.value, q[1..]))
    requires n.param.Some? && q[0].Param? ==>
               var w := Winner(n.param.value.1, segs[1..]); w.Some? && (q[1..] == w.value || Prefers(w.value, q[1..]))
    ensures Winner(n, segs).Some? && (q == Winner(n, segs).value || Prefers(Winner(n, segs).value, q))
  {
    assert q == [q[0]] + q[1..];
    var lit := if segs[0] in n.statics then Winner(n.statics[segs[0]], segs[1..]) else None;
    if q[0].Lit? {
      assert q[0] == Lit(segs[0]);
      if q[1..] != lit.value { PrefersTail(q[0], lit.value, q[1..]); }
    } else if lit.Some? {
      assert PartAt(Winner(n, segs).value, q, 0);
    } else {
      var w := Winner(n.param.value.1, segs[1..]).value;
      if q[1..] != w { PrefersTail(q[0], w, q[1..]); }
    }
  }

  /** A trie resolves by what it holds alone. */
  lemma ResolutionIsByContents<E>(a: Node<E>, b: Node<E>, segs: seq<string>)
    requires forall p :: At(a, p) == At(b, p)
    ensures Winner(a, segs) == Winner(b, segs)
  {
    hide At, Matches, Prefers;
    WinnerIsBest(a, segs);
    WinnerIsBest(b, segs);
    var x, y := Winner(a, segs), Winner(b, segs);
    if x.Some? {
      assert At(b, x.value).Some? && Matches(x.value, segs);
    }
    if x.Some? && y.Some? && x.value != y.value {
      assert Prefers(x.value, y.value);
      PrefersIsOneWay(x.value, y.value);
    }
  }

  // ---------- order of registration ----------

  lemma {:induction false} TwiceMeansTwoPlaces<T>(s: seq<T>, x: T)
    requires multiset(s)[x] >= 2
    ensures exists i, j :: 0 <= i < j < |s| && s[i] == x && s[j] == x
  {
    var front, last := s[..|s| - 1], s[|s| - 1];
    assert s == front + [last];
    if last == x {
      assert multiset(front)[x] >= 1;
      assert x in front;
      var i :| 0 <= i < |front| && front[i] == x;
      assert s[i] == x && s[|s| - 1] == x;
    } else {
      TwiceMeansTwoPlaces(front, x);
      var i, j :| 0 <= i < j < |front| && front[i] == x && front[j] == x;
      assert s[i] == x && s[j] == x;
    }
  }

  lemma TwoPlacesMeansTwice<T>(s: seq<T>, i: nat, j: nat)
    requires i < j < |s| && s[i] == s[j]
    ensures multiset(s)[s[i]] >= 2
  {
    assert s == s[..j] + s[j..];
    assert s[..j][i] == s[i] && s[j..][0] == s[j];
    assert s[i] in multiset(s[..j]) && s[i] in multiset(s[j..]);
  }

  lemma ClashMoves<E(!new)>(rs: Routes<E>, rs': Routes<E>)
    requires multiset(rs) == multiset(rs') && Compatible(rs')
    ensures Compatible(rs)
  {
    hide Clash;
    forall i, j | 0 <= i < j < |rs| ensures !Clash(rs[i].0, rs[j].0) {
      if rs[i] == rs[j] {
        TwoPlacesMeansTwice(rs, i, j);
        TwiceMeansTwoPlaces(rs', rs[i]);
      } else {
        assert rs[i] in multiset(rs') && rs[j] in multiset(rs');
        var i' :| 0 <= i' < |rs'| && rs'[i'] == rs[i];
        var j' :| 0 <= j' < |rs'| && rs'[j'] == rs[j];
        ClashIsSymmetric(rs[i].0, rs[j].0);
      }
    }
  }

  /** In any order, a set of routes is accepted or rejected alike and every path resolves alike. */
  lemma OrderIsIrrelevant<E(!new)>(rs: Routes<E>, rs': Routes<E>, segs: seq<string>)
    requires multiset(rs) == multiset(rs')
    ensures Build(rs).Ok? <==> Build(rs').Ok?
    ensures Build(rs).Ok? ==> Winner(Build(rs).value, segs) == Winner(Build(rs').value, segs)
    ensures Build(rs).Ok? ==> forall p :: At(Build(rs).value, p) == At(Build(rs').value, p)
  {
    hide At, Compatible, Winner;
    BuildIsExact(rs);
    BuildIsExact(rs');
    if Compatible(rs) { ClashMoves(rs', rs); }
    if Compatible(rs') { ClashMoves(rs, rs'); }
    if Build(rs).Ok? {
      var a, b := Build(rs).value, Build(rs').value;
      forall p ensures At(a, p) == At(b, p) {
        forall e ensures At(a, p) == Some(e) <==> At(b, p) == Some(e) { SameMembers(rs, rs', (p, e)); }
      }
      ResolutionIsByContents(a, b, segs);
    }
  }

  lemma SameMembers<T>(s: seq<T>, s': seq<T>, x: T)
    requires multiset(s) == multiset(s')
    ensures (exists i :: 0 <= i < |s| && s[i] == x) <==> (exists i :: 0 <= i < |s'| && s'[i] == x)
  {
    assert x in s <==> x in multiset(s);
    assert x in s' <==> x in multiset(s');
  }
}
