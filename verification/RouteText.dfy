/**
 * Routes as they are written: which path texts make which patterns, and so what a router built
 * from texts answers to a request's text.
 */
module RouteText {
  import opened Basics
  import opened Search
  import opened Text
  import opened Paths
  import opened RouteTrie
  import opened Router

  // ---------- writing a pattern ----------

  /** A segment as it stands in a path: a parameter's name in braces, or the text itself. */
  function Written(s: Seg): string {
    match s case Lit(text) => text case Param(name) => "{" + name + "}"
  }

  predicate Braced(t: string) { |t| >= 2 && t[0] == '{' && t[|t| - 1] == '}' }

  /** No slash inside; plain text is not empty and does not stand in braces, though it may have a brace or two. */
  predicate Writable(s: Seg) {
    match s
    case Lit(text) => text != "" && '/' !in text && !Braced(text)
    case Param(name) => '/' !in name
  }

  ghost predicate AllWritable(p: Pattern) { forall i :: 0 <= i < |p| ==> Writable(p[i]) }

  function Slashed(segs: seq<string>): string {
    if segs == [] then "" else "/" + segs[0] + Slashed(segs[1..])
  }

  function WrittenAll(p: Pattern): seq<string> { seq(|p|, i requires 0 <= i < |p| => Written(p[i])) }

  /** A slash before every segment. */
  function PathText(p: Pattern): string { Slashed(WrittenAll(p)) }

  ghost predicate Plain(segs: seq<string>) { forall i :: 0 <= i < |segs| ==> segs[i] != "" && '/' !in segs[i] }

  lemma {:induction false} SlashedSegments(segs: seq<string>)
    requires Plain(segs)
    ensures Segments(Slashed(segs)) == segs
  {
    hide Segments;
    if segs == [] {
      NoSegments();
    } else {
      var head, rest := segs[0], segs[1..];
      assert forall i :: 0 <= i < |rest| ==> rest[i] == segs[i + 1];
      SlashedSegments(rest);
      assert Slashed(segs) == "" + "/" + (head + Slashed(rest));
      SegmentsAtSlash("", head + Slashed(rest));
      NoSegments();
      HeadSegment(head, rest);
      assert [head] + rest == segs;
    }
  }

  lemma HeadSegment(head: string, rest: seq<string>)
    requires head != "" && '/' !in head && Segments(Slashed(rest)) == rest
    ensures Segments(head + Slashed(rest)) == [head] + rest
  {
    hide SplitOn;
    OneSegment(head);
    if rest == [] {
      assert head + Slashed(rest) == head;
    } else {
      var tail := rest[0] + Slashed(rest[1..]);
      assert Slashed(rest) == "" + "/" + tail && head + Slashed(rest) == head + "/" + tail;
      SegmentsAtSlash(head, tail);
      SegmentsAtSlash("", tail);
      NoSegments();
    }
  }

  lemma OneSegment(head: string)
    requires head != "" && '/' !in head
    ensures Segments(head) == [head]
  {
    SplitOnNone(head, '/');
    assert [head][1..] == [] && NonEmpty([]) == [];
    assert NonEmpty([head]) == [head] + [];
  }

  /** What is written is read back: braces make the parameters, and nothing else does. */
  lemma PatternIsRead(p: Pattern)
    requires AllWritable(p)
    ensures PatternOf(PathText(p)) == p
  {
    hide Segments;
    forall i | 0 <= i < |p| ensures SegOf(Written(p[i])) == p[i] && Written(p[i]) != "" && '/' !in Written(p[i]) {
      SegIsRead(p[i]);
    }
    SlashedSegments(WrittenAll(p));
  }

  lemma SegIsRead(s: Seg)
    requires Writable(s)
    ensures SegOf(Written(s)) == s && Written(s) != "" && '/' !in Written(s)
  {
    if s.Param? {
      assert Written(s)[1..|Written(s)| - 1] == s.name;
    }
  }

  /** And every segment text is written so: the theorems below are about all paths. */
  lemma EveryTextIsWritten(t: string)
    requires t != "" && '/' !in t
    ensures exists s :: Writable(s) && Written(s) == t
  {
    if Braced(t) {
      var name := t[1..|t| - 1];
      assert t == "{" + name + "}";
      assert Writable(Param(name)) && Written(Param(name)) == t;
    } else {
      assert Writable(Lit(t)) && Written(Lit(t)) == t;
    }
  }

  // ---------- answering a request ----------

  /** Registering the texts of `rs`, in order. */
  function Registered(rs: Routes<Endpoint>): Result<Node<Endpoint>, RouteError> {
    Build(seq(|rs|, i requires 0 <= i < |rs| => (PatternOf(PathText(rs[i].0)), rs[i].1)))
  }

  /** The parameters among the first segments of a pattern. */
  function ParamCount(p: Pattern): nat {
    if p == [] then 0 else ParamCount(p[..|p| - 1]) + if p[|p| - 1].Param? then 1 else 0
  }

  /** Each parameter with the segment that stands at its place, in order. */
  ghost predicate Binds(p: Pattern, segs: seq<string>, params: seq<(string, string)>) {
    && |params| == ParamCount(p)
    && forall i :: 0 <= i < |p| && i < |segs| && p[i].Param? ==>
         ParamCount(p[..i]) < |params| && params[ParamCount(p[..i])] == (p[i].name, segs[i])
  }

  lemma {:induction false} CapturesBind(p: Pattern, segs: seq<string>)
    requires |p| == |segs|
    ensures Binds(p, segs, Captures(p, segs))
  {
    if p != [] {
      var n := |p| - 1;
      CapturesBind(p[..n], segs[..n]);
      CapturesSnoc(p, segs);
      var front := Captures(p[..n], segs[..n]);
      forall i | 0 <= i < |p| && p[i].Param?
        ensures var params := Captures(p, segs);
                ParamCount(p[..i]) < |params| && params[ParamCount(p[..i])] == (p[i].name, segs[i])
      {
        if i < n { assert p[..n][..i] == p[..i] && p[..n][i] == p[i]; }
      }
    }
  }

  lemma {:induction false} CapturesSnoc(p: Pattern, segs: seq<string>)
    requires |p| == |segs| && p != []
    ensures var n := |p| - 1;
            Captures(p, segs) == Captures(p[..n], segs[..n]) + if p[n].Param? then [(p[n].name, segs[n])] else []
  {
    var n := |p| - 1;
    if n > 0 {
      CapturesSnoc(p[1..], segs[1..]);
      assert p[1..][..n - 1] == p[..n][1..] && segs[1..][..n - 1] == segs[..n][1..];
      assert p[1..][n - 1] == p[n];
    } else {
      assert p[1..] == [] && p[..0] == [];
    }
  }

  lemma RegisteredIsBuild(rs: Routes<Endpoint>)
    requires forall i :: 0 <= i < |rs| ==> AllWritable(rs[i].0)
    ensures Registered(rs) == Build(rs)
  {
    hide PathText, PatternOf, Build;
    forall i | 0 <= i < |rs| ensures (PatternOf(PathText(rs[i].0)), rs[i].1) == rs[i] { PatternIsRead(rs[i].0); }
    assert seq(|rs|, i requires 0 <= i < |rs| => (PatternOf(PathText(rs[i].0)), rs[i].1)) == rs;
  }

  /**
   * Texts registered and a text requested, whose segments decode to `segs`: registration fails
   * exactly if two of the texts clash, and otherwise the answer is not-found exactly when no text
   * fits, in length and in every unbraced segment, and else comes from the one that beats all
   * others that fit, binding each braced name to the request's segment at its place.
   */
  lemma WrittenRoutesResolve(rs: Routes<Endpoint>, raws: seq<string>, segs: seq<string>, verb: string)
    requires forall i :: 0 <= i < |rs| ==> AllWritable(rs[i].0)
    requires Plain(raws) && DecodedAll(raws) == Some(segs)
    ensures Registered(rs).Ok? <==> Compatible(rs)
    ensures Registered(rs).Ok? ==>
              var r := Routed(Registered(rs).value, Slashed(raws), verb);
              && (r == NotFound <==> forall i :: 0 <= i < |rs| ==> !Matches(rs[i].0, segs))
              && (r != NotFound ==> exists i :: Wins(rs, i, segs))
              && forall i :: Wins(rs, i, segs) ==>
                   if verb in rs[i].1.methods
                   then r.Found? && r.endpoint == rs[i].1 && Binds(rs[i].0, segs, r.params)
                   else r == MethodMissing
  {
    hide Segments, Build, Resolve, Matches, Captures, Binds, DecodedAll, Slashed, AllWritable, Compatible;
    RegisteredIsBuild(rs);
    BuildIsExact(rs);
    SlashedSegments(raws);
    if Build(rs).Ok? {
      RouterAgreesWithList(rs, segs, verb);
      forall i | Wins(rs, i, segs) ensures |rs[i].0| == |segs| && Binds(rs[i].0, segs, Captures(rs[i].0, segs)) {
        FitBinds(rs[i].0, segs);
      }
    }
  }

  lemma FitBinds(p: Pattern, segs: seq<string>)
    requires Matches(p, segs)
    ensures |p| == |segs| && Binds(p, segs, Captures(p, segs))
  {
    CapturesBind(p, segs);
  }

  /** One route alone: the request is found exactly if it has the route's length and its unbraced segments. */
  lemma OneRouteResolves(p: Pattern, e: Endpoint, raws: seq<string>, segs: seq<string>, verb: string)
    requires AllWritable(p) && Plain(raws) && DecodedAll(raws) == Some(segs) && verb in e.methods
    ensures var (root, refused) := Inserted(Bare(), PatternOf(PathText(p)), e);
            && refused.None?
            && var r := Routed(root, Slashed(raws), verb);
               if |p| == |segs| && forall i :: 0 <= i < |p| && p[i].Lit? ==> p[i].text == segs[i]
               then r.Found? && r.endpoint == e && Binds(p, segs, r.params)
               else r == NotFound
  {
    hide Resolve, Captures, Binds, DecodedAll, Slashed, AllWritable, PatternOf, PathText, Inserted, Routed, Registered;
    var rs: Routes<Endpoint> := [(p, e)];
    PatternIsRead(p);
    assert Compatible(rs);
    BuildIsExact(rs);
    assert Build(rs).Ok?;
    BuildOne(p, e);
    assert rs == [(p, e)];
    assert Inserted(Bare(), p, e).1.None?;
    RegisteredIsBuild(rs);
    WrittenRoutesResolve(rs, raws, segs, verb);
    assert Wins(rs, 0, segs) <==> Matches(rs[0].0, segs);
  }

  lemma BuildOne<E>(p: Pattern, e: E)
    ensures var (t, r) := Inserted(Bare(), p, e);
            Build([(p, e)]) == if r.Some? then Err(r.value) else Ok(t)
  {
    var rs := [(p, e)];
    assert rs[..|rs| - 1] == [] && Build<E>([]) == Ok(Bare());
  }
}
