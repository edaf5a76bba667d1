/** The router: a trie for each method and the table of handlers, against the list of registrations. */
module HttpRouter {
  import opened Options
  import opened RouteTrie
  import opened RoutePaths
  import opened RouteOrder

  /** One registration; handler functions are numbered. */
  datatype Call = Call(verb: string, pattern: string, handler: nat)

  /** The segments registered for a method, in order. */
  function Routes(calls: seq<Call>, verb: string): (log: seq<seq<string>>) {
    if calls == [] then []
    else
      var last := calls[|calls| - 1];
      Routes(calls[..|calls| - 1], verb) + if last.verb == verb then [Parse(last.pattern)] else []
  }

  function Key(verb: string, pattern: string): string { verb + "-" + pattern }

  /** The handler table: one key for a method and a stored pattern. */
  function Handlers(calls: seq<Call>): map<string, nat> {
    if calls == [] then map[]
    else
      var last := calls[|calls| - 1];
      Handlers(calls[..|calls| - 1])[Key(last.verb, Canonical(Parse(last.pattern))) := last.handler]
  }

  /** The handler that the last registration of these segments for the method gave. */
  function LastHandler(calls: seq<Call>, verb: string, p: seq<string>): Option<nat> {
    if calls == [] then None
    else
      var last := calls[|calls| - 1];
      if last.verb == verb && Parse(last.pattern) == p then Some(last.handler) else LastHandler(calls[..|calls| - 1], verb, p)
  }

  lemma {:induction false} RoutesProper(calls: seq<Call>, verb: string)
    ensures Proper(Routes(calls, verb))
  {
    if calls != [] {
      RoutesProper(calls[..|calls| - 1], verb);
      ParseSegments(calls[|calls| - 1].pattern);
    }
  }

  // ------------------------------------------------------------ handler keys

  /** Segments that a longer stored pattern can begin with. */
  predicate Opens(s: string) {
    var p := Parse(s); p != [] && Join(p) == s && !IsStar(p[|p| - 1])
  }

  /** The method w reads like the method v, a dash and the beginning of one of its patterns. */
  predicate Clash(v: string, w: string) {
    v + "-/" <= w && Opens(w[|v| + 2..] + "-")
  }

  /** Methods without slashes never clash. */
  lemma PlainNoClash(v: string, w: string)
    requires '/' !in w
    ensures !Clash(v, w)
  {
    assert (v + "-/")[|v| + 1] == '/';
  }

  lemma {:induction false} JoinLast(p: seq<string>, x: string)
    requires p != []
    ensures Join(p + [x]) == Join(p) + "/" + x
  {
    assert (p + [x])[1..] == p[1..] + [x];
    if |p| > 1 { JoinLast(p[1..], x); }
  }

  /** A slash in a joined text stands between two segments. */
  lemma {:induction false} JoinSplit(p: seq<string>, x: string, y: string) returns (i: nat)
    requires Segments(p) && NoSlash(p) && Join(p) == x + "/" + y
    ensures 1 <= i < |p| && Join(p[..i]) == x
    decreases |p|
  {
    var s, first, rest := x + "/" + y, p[0], p[1..];
    assert s[|x|] == '/' && '/' in s && first[0] in first;
    if |p| == 1 { assert false; }
    assert s == first + "/" + Join(rest) && s[|first|] == '/';
    assert forall k :: 0 <= k < |first| ==> s[k] == first[k] && first[k] in first;
    assert |first| <= |x|;
    if |x| == |first| {
      i := 1;
      assert s[..|x|] == x && s[..|first|] == first;
      assert p[..1] == [first];
    } else {
      var x' := x[|first| + 1..];
      assert x == s[..|x|] && x[..|first|] == first && x[|first|] == '/';
      assert x == first + "/" + x';
      assert Join(rest) == s[|first| + 1..] == x' + "/" + y;
      assert Segments(rest) && NoSlash(rest);
      var j := JoinSplit(rest, x', y);
      i := j + 1;
      assert p[..i][1..] == rest[..j];
    }
  }

  /** Two methods share a key only if they clash. */
  lemma KeyClash(v: string, w: string, p: seq<string>, q: seq<string>)
    requires Segments(p) && NoSlash(p) && Segments(q) && NoSlash(q) && |v| < |w|
    requires Key(v, Canonical(p)) == Key(w, Canonical(q))
    ensures Clash(v, w)
  {
    var a, b := Key(v, Canonical(p)), Key(w, Canonical(q));
    assert a == v + "-/" + Join(p) && b == w + "-/" + Join(q);
    assert a[|v|] == '-' && a[|v| + 1] == '/' && b[|w|] == '-';
    assert w == b[..|w|];
    var u := w[|v| + 2..];
    assert w == v + "-/" + u;
    assert Join(p) == a[|v| + 2..] == (u + "-") + "/" + Join(q);
    var i := JoinSplit(p, u + "-", Join(q));
    assert Segments(p[..i]) && NoSlash(p[..i]);
    ParseJoin(p[..i]);
  }

  /** Where no methods clash a key tells method and segments. */
  lemma KeyInjective(v: string, w: string, p: seq<string>, q: seq<string>)
    requires !Clash(v, w) && !Clash(w, v) && Segments(p) && NoSlash(p) && Segments(q) && NoSlash(q)
    requires Key(v, Canonical(p)) == Key(w, Canonical(q))
    ensures v == w && p == q
  {
    if |v| < |w| { KeyClash(v, w, p, q); }
    if |w| < |v| { KeyClash(w, v, q, p); }
    var a, b := Key(v, Canonical(p)), Key(w, Canonical(q));
    assert a[..|v|] == v && b[..|w|] == w;
    assert a[|v| + 1..] == Canonical(p) && b[|w| + 1..] == Canonical(q);
    CanonicalParses(p);
    CanonicalParses(q);
  }

  ghost predicate NoClash(verbs: iset<string>) { forall v, w :: v in verbs && w in verbs ==> !Clash(v, w) }

  /** Registrations for these methods only. */
  ghost predicate Over(calls: seq<Call>, verbs: iset<string>) { forall i :: 0 <= i < |calls| ==> calls[i].verb in verbs }

  /** The table leads a route to the handler registered last for its method and segments. */
  ghost predicate HandlerRight(calls: seq<Call>, verb: string, p: seq<string>) {
    var key := Key(verb, Canonical(p)); key in Handlers(calls) && LastHandler(calls, verb, p) == Some(Handlers(calls)[key])
  }

  /** A registered route always has a handler. */
  lemma {:induction false} RouteHasHandler(calls: seq<Call>, verb: string, p: seq<string>)
    requires p in Routes(calls, verb)
    ensures Key(verb, Canonical(p)) in Handlers(calls)
  {
    var before, last := calls[..|calls| - 1], calls[|calls| - 1];
    if !(last.verb == verb && Parse(last.pattern) == p) { RouteHasHandler(before, verb, p); }
  }

  /** Where no methods clash it is the one registered last for the method and the segments. */
  lemma {:induction false} HandlerIsLast(calls: seq<Call>, verbs: iset<string>, verb: string, p: seq<string>)
    requires Over(calls, verbs) && NoClash(verbs) && p in Routes(calls, verb)
    ensures HandlerRight(calls, verb, p)
  {
    var before, last := calls[..|calls| - 1], calls[|calls| - 1];
    hide Clash;
    if !(last.verb == verb && Parse(last.pattern) == p) {
      HandlerIsLast(before, verbs, verb, p);
      if Key(verb, Canonical(p)) == Key(last.verb, Canonical(Parse(last.pattern))) {
        VerbCalled(calls, verbs, verb, p);
        RoutesProper(before, verb);
        ParseSegments(last.pattern);
        KeyInjective(verb, last.verb, p, Parse(last.pattern));
      }
    }
  }

  lemma {:induction false} VerbCalled(calls: seq<Call>, verbs: iset<string>, verb: string, p: seq<string>)
    requires Over(calls, verbs) && p in Routes(calls, verb)
    ensures verb in verbs
  {
    if calls[|calls| - 1].verb != verb { VerbCalled(calls[..|calls| - 1], verbs, verb, p); }
  }

  /** Two registrations for clashing methods: the second takes the first one's key. */
  lemma ClashingMethods(v: string, w: string) returns (calls: seq<Call>, p: seq<string>)
    requires Clash(v, w)
    ensures Over(calls, iset{v, w}) && p in Routes(calls, v) && !HandlerRight(calls, v, p)
  {
    var u := w[|v| + 2..];
    var opening := Parse(u + "-");
    p := opening + ["x"];
    var a, b := Call(v, Canonical(p), 1), Call(w, Canonical(["x"]), 2);
    calls := [a, b];
    OpeningProper(u + "-");
    hide Parse, Canonical, Key;
    CanonicalParses(p);
    CanonicalParses(["x"]);
    SameKey(v, w);
    hide Clash, Opens;
    TwoCalls(a, b, p);
  }

  lemma SameKey(v: string, w: string)
    requires Clash(v, w)
    ensures v != w && Key(v, Canonical(Parse(w[|v| + 2..] + "-") + ["x"])) == Key(w, Canonical(["x"]))
  {
    var s := w[|v| + 2..] + "-";
    JoinLast(Parse(s), "x");
    assert Join(["x"]) == "x";
    hide Parse, Join;
    assert w == v + "-/" + w[|v| + 2..];
  }

  lemma OpeningProper(s: string)
    requires Opens(s)
    ensures Segments(Parse(s) + ["x"]) && NoSlash(Parse(s) + ["x"]) && Segments(["x"]) && NoSlash(["x"])
  {
    ParseSegments(s);
  }

  lemma TwoCalls(a: Call, b: Call, p: seq<string>)
    requires Parse(a.pattern) == p && a.verb != b.verb && a.handler != b.handler
    requires Key(a.verb, Canonical(p)) == Key(b.verb, Canonical(Parse(b.pattern)))
    ensures p in Routes([a, b], a.verb) && !HandlerRight([a, b], a.verb, p)
  {
    assert [a, b][..1] == [a] && [a][..0] == [];
    assert Routes([a], a.verb) == [] + [p];
    assert LastHandler([a], a.verb, p) == Some(a.handler);
  }

  /** Exactly the sets of methods without a clash keep every handler: then every registered route leads to the
      handler given last, in all lists of registrations, and otherwise some list loses one. */
  lemma HandlersIffNoClash(verbs: iset<string>)
    ensures NoClash(verbs) <==>
            forall calls, verb, p | Over(calls, verbs) && p in Routes(calls, verb) :: HandlerRight(calls, verb, p)
  {
    hide Clash, HandlerRight, Routes;
    if NoClash(verbs) {
      forall calls, verb, p | Over(calls, verbs) && p in Routes(calls, verb) ensures HandlerRight(calls, verb, p) {
        HandlerIsLast(calls, verbs, verb, p);
      }
    } else {
      var v, w :| v in verbs && w in verbs && Clash(v, w);
      var calls, p := ClashingMethods(v, w);
      assert Over(calls, verbs);
    }
  }

  lemma RoutesMore(calls: seq<Call>, call: Call, verb: string)
    ensures Routes(calls + [call], verb) == if call.verb == verb then Routes(calls, verb) + [Parse(call.pattern)] else Routes(calls, verb)
  {
    assert (calls + [call])[..|calls|] == calls;
  }

  lemma HandlersMore(calls: seq<Call>, call: Call)
    ensures Handlers(calls + [call]) == Handlers(calls)[Key(call.verb, Canonical(Parse(call.pattern))) := call.handler]
  {
    assert (calls + [call])[..|calls|] == calls;
  }

  lemma BuildNone(log: seq<seq<string>>)
    ensures log == [] ==> Build(log) == EMPTY
  {
  }

  datatype Route = Route(pattern: string, params: map<string, string>)

  class Router {
    var roots: map<string, Node>
    var handlers: map<string, nat>
    ghost var calls: seq<Call>

    /** The tries and the handlers are those of the registrations. */
    ghost predicate Valid() reads this {
      && handlers == Handlers(calls)
      && (forall m :: m in roots <==> Routes(calls, m) != [])
      && (forall m :: m in roots ==> roots[m] == Build(Routes(calls, m)))
    }

    constructor ()
      ensures Valid() && calls == []
    {
      roots, handlers, calls := map[], map[], [];
    }

    /** Registers a handler behind all earlier registrations. */
    method AddRoute(verb: string, pattern: string, handler: nat)
      requires Valid()
      modifies this
      ensures Valid() && calls == old(calls) + [Call(verb, pattern, handler)]
    {
      var parts := Parse(pattern);
      var canonical := Canonical(parts);
      ghost var call := Call(verb, pattern, handler);
      forall m { RoutesMore(calls, call, m); }
      BuildMore(Routes(calls, verb), parts);
      hide Routes, Build, Insert, Handlers, Parse, Canonical, Key;
      HandlersMore(calls, call);
      if verb !in roots { roots := roots[verb := EMPTY]; }
      assert roots[verb] == Build(Routes(calls, verb)) by { BuildNone(Routes(calls, verb)); }
      roots := roots[verb := Insert(roots[verb], canonical, parts)];
      handlers := handlers[Key(verb, canonical) := handler];
      calls := calls + [call];
    }

    /** A request is answered exactly if a registered route matches it; the answer is the best such route in the
        order of registration, has a handler, and carries the parameters of the match. */
    method GetRoute(verb: string, path: string) returns (r: Option<Route>)
      requires Valid()
      ensures r.Some? <==> exists p :: p in Routes(calls, verb) && Matches(p, Parse(path))
      ensures r.Some? ==> exists p :: BestOf(Routes(calls, verb), Parse(path), p) && r.value == Route(Canonical(p), Params(p, Parse(path)))
      ensures r.Some? ==> Key(verb, r.value.pattern) in handlers
    {
      hide Build, Routes, Handlers, Parse, Canonical, Matches, Search, Params, BestOf, Proper, Segments, NoSlash, Key;
      ghost var log := Routes(calls, verb);
      var parts := Parse(path);
      if verb !in roots { return None; }
      RoutesProper(calls, verb);
      BestRoute(log, parts);
      var found := Search(roots[verb], parts);
      if found.None? { return None; }
      ghost var p :| BestOf(log, parts, p) && found.value.pattern == Canonical(p);
      BestParses(log, parts, p);
      RouteHasHandler(calls, verb, p);
      var params := CollectParams(Parse(found.value.pattern), parts);
      return Some(Route(found.value.pattern, params));
    }
  }

  lemma BuildMore(log: seq<seq<string>>, parts: seq<string>)
    ensures Build(log + [parts]) == Insert(Build(log), Canonical(parts), parts)
  {
    assert (log + [parts])[..|log|] == log;
  }

  lemma BestParses(log: seq<seq<string>>, parts: seq<string>, p: seq<string>)
    requires Proper(log) && BestOf(log, parts, p)
    ensures p in log && Matches(p, parts) && Segments(p) && Parse(Canonical(p)) == p
  {
    CanonicalParses(p);
  }
}
