/** Which of several matching routes is found: the order of registration decides, behind exact segments. */
module RouteOrder {
  import opened Options
  import opened RouteTrie
  import opened RoutePaths

  /** The trie after registering routes one by one. */
  function Build(log: seq<seq<string>>): Node {
    if log == [] then EMPTY else Insert(Build(log[..|log| - 1]), Canonical(log[|log| - 1]), log[|log| - 1])
  }

  /** The number of the first registration that starts with these segments, or how many there are. */
  function FirstWith(log: seq<seq<string>>, segments: seq<string>): (i: nat)
    ensures i <= |log|
  {
    if log == [] || segments <= log[0] then 0 else 1 + FirstWith(log[1..], segments)
  }

  /** Where p and q first differ, p is exact, or neither is and p's segments were registered first. */
  ghost predicate Beats(log: seq<seq<string>>, parts: seq<string>, p: seq<string>, q: seq<string>) {
    BeatsFrom(log, [], parts, p, q)
  }

  ghost predicate BeatsFrom(log: seq<seq<string>>, prefix: seq<string>, parts: seq<string>, p: seq<string>, q: seq<string>) {
    exists i :: 0 <= i < |p| && DiffersAt(log, prefix, parts, p, q, i)
  }

  ghost predicate DiffersAt(log: seq<seq<string>>, prefix: seq<string>, parts: seq<string>, p: seq<string>, q: seq<string>, i: nat) {
    && i < |p| && i < |q| && i < |parts| && p[..i] == q[..i] && p[i] != q[i]
    && (p[i] == parts[i] || (q[i] != parts[i] && FirstWith(log, prefix + p[..i + 1]) < FirstWith(log, prefix + q[..i + 1])))
  }

  /** Of two different routes at most one beats the other. */
  lemma BeatsOneWay(log: seq<seq<string>>, parts: seq<string>, p: seq<string>, q: seq<string>)
    requires Beats(log, parts, p, q)
    ensures !Beats(log, parts, q, p)
  {
    var i :| 0 <= i < |p| && DiffersAt(log, [], parts, p, q, i);
    forall j | 0 <= j < |q| ensures !DiffersAt(log, [], parts, q, p, j) {
      if j < i { assert p[..i][j] == q[..i][j]; }
      if i < j < |p| { assert q[..j][i] == q[i] && p[..j][i] == p[i]; }
    }
  }

  // ------------------------------------------------------------ the first registration

  lemma {:induction false} FirstWithMore(log: seq<seq<string>>, x: seq<string>, segments: seq<string>)
    ensures FirstWith(log + [x], segments) ==
            if FirstWith(log, segments) < |log| then FirstWith(log, segments) else if segments <= x then |log| else |log| + 1
  {
    if log == [] {
      assert log + [x] == [x] && [x][1..] == [];
    } else {
      assert (log + [x])[1..] == log[1..] + [x];
      FirstWithMore(log[1..], x, segments);
    }
  }

  lemma Longer(prefix: seq<string>, part: string, x: seq<string>)
    ensures prefix + [part] <= x <==> prefix <= x && |prefix| < |x| && x[|prefix|] == part
    ensures prefix + [part] <= x && |prefix + [part]| < |x| ==> prefix <= x && |prefix| < |x|
  {
    if prefix + [part] <= x { assert x[..|prefix|] == prefix; }
  }

  lemma {:induction false} Behind(log: seq<seq<string>>, segments: seq<string>, more: string)
    ensures FirstWith(log, segments) <= FirstWith(log, segments + [more])
  {
    if log != [] {
      Longer(segments, more, log[0]);
      Behind(log[1..], segments, more);
    }
  }

  // ------------------------------------------------------------ what the trie keeps

  /** The children are the segments registered behind the prefix. */
  ghost predicate Present(children: seq<Node>, prefix: seq<string>, log: seq<seq<string>>) {
    forall part :: ChildAt(children, part) < |children| <==> FirstWith(log, prefix + [part]) < |log|
  }

  /** They stand in the order in which they were first registered. */
  ghost predicate Aged(children: seq<Node>, prefix: seq<string>, log: seq<seq<string>>) {
    forall i, j :: 0 <= i < j < |children| ==>
      FirstWith(log, prefix + [children[i].part]) < FirstWith(log, prefix + [children[j].part])
  }

  ghost predicate InOrder(n: Node, prefix: seq<string>, log: seq<seq<string>>)
    decreases n
  {
    && Present(n.children, prefix, log) && Aged(n.children, prefix, log)
    && (forall i :: 0 <= i < |n.children| ==> InOrder(n.children[i], prefix + [n.children[i].part], log))
  }

  lemma {:induction false} ChildThere(children: seq<Node>, i: nat)
    requires i < |children|
    ensures ChildAt(children, children[i].part) <= i
  {
    if children[0].part != children[i].part { ChildThere(children[1..], i - 1); }
  }

  /** A child's first registration stays where it was. */
  lemma Older(children: seq<Node>, prefix: seq<string>, log: seq<seq<string>>, x: seq<string>, i: nat)
    requires Present(children, prefix, log) && i < |children|
    ensures FirstWith(log, prefix + [children[i].part]) < |log|
    ensures FirstWith(log + [x], prefix + [children[i].part]) == FirstWith(log, prefix + [children[i].part])
  {
    var part := children[i].part;
    ChildThere(children, i);
    assert ChildAt(children, part) < |children|;
    FirstWithMore(log, x, prefix + [part]);
  }

  lemma AgedStill(children: seq<Node>, prefix: seq<string>, log: seq<seq<string>>, x: seq<string>)
    requires Present(children, prefix, log) && Aged(children, prefix, log)
    ensures Aged(children, prefix, log + [x])
  {
    forall i, j | 0 <= i < j < |children|
      ensures FirstWith(log + [x], prefix + [children[i].part]) < FirstWith(log + [x], prefix + [children[j].part])
    {
      Older(children, prefix, log, x, i);
      Older(children, prefix, log, x, j);
    }
  }

  /** A route that needs no new child of a node leaves its children as they are. */
  lemma PresentStill(children: seq<Node>, prefix: seq<string>, log: seq<seq<string>>, x: seq<string>)
    requires Present(children, prefix, log)
    requires prefix <= x && |prefix| < |x| ==> ChildAt(children, x[|prefix|]) < |children|
    ensures Present(children, prefix, log + [x])
  {
    forall part ensures ChildAt(children, part) < |children| <==> FirstWith(log + [x], prefix + [part]) < |log + [x]| {
      FirstWithMore(log, x, prefix + [part]);
      Longer(prefix, part, x);
    }
  }

  /** Registering elsewhere leaves a node in order. */
  lemma {:induction false} InOrderElsewhere(n: Node, prefix: seq<string>, log: seq<seq<string>>, x: seq<string>)
    requires InOrder(n, prefix, log) && !(prefix <= x && |prefix| < |x|)
    ensures InOrder(n, prefix, log + [x])
    decreases n
  {
    hide Present, Aged, FirstWith, ChildAt;
    PresentStill(n.children, prefix, log, x);
    AgedStill(n.children, prefix, log, x);
    forall i | 0 <= i < |n.children| ensures InOrder(n.children[i], prefix + [n.children[i].part], log + [x]) {
      Longer(prefix, n.children[i].part, x);
      InOrderElsewhere(n.children[i], prefix + [n.children[i].part], log, x);
    }
  }

  lemma {:induction false} InsertInOrder(n: Node, prefix: seq<string>, log: seq<seq<string>>, pattern: string, parts: seq<string>)
    requires Formed(n) && InOrder(n, prefix, log)
    ensures InOrder(Insert(n, pattern, parts), prefix, log + [prefix + parts])
    decreases |parts|
  {
    var x := prefix + parts;
    hide Present, Aged, FirstWith, ChildAt, IsWild;
    if parts == [] {
      InOrderElsewhere(n, prefix, log, x);
    } else {
      var part, i := parts[0], ChildAt(n.children, parts[0]);
      assert x == (prefix + [part]) + parts[1..];
      ChildIsAt(n.children, part);
      if i < |n.children| {
        InsertInOrder(n.children[i], prefix + [part], log, pattern, parts[1..]);
        ChangedChild(n, prefix, log, x, i, Insert(n.children[i], pattern, parts[1..]));
      } else {
        var leaf := Node("", part, IsWild(part), []);
        LeafInOrder(leaf, prefix, part, log, n.children);
        InsertInOrder(leaf, prefix + [part], log, pattern, parts[1..]);
        AddedChild(n, prefix, log, x, Insert(leaf, pattern, parts[1..]));
      }
    }
  }

  lemma ChildIsAt(children: seq<Node>, part: string)
    ensures ChildAt(children, part) <= |children|
    ensures ChildAt(children, part) < |children| ==> children[ChildAt(children, part)].part == part
  {
  }

  /** Nothing is registered behind a segment that has no child. */
  lemma LeafInOrder(leaf: Node, prefix: seq<string>, part: string, log: seq<seq<string>>, children: seq<Node>)
    requires leaf.children == [] && Present(children, prefix, log) && ChildAt(children, part) == |children|
    ensures InOrder(leaf, prefix + [part], log)
  {
    assert FirstWith(log, prefix + [part]) == |log|;
    forall more ensures FirstWith(log, prefix + [part] + [more]) == |log| {
      Behind(log, prefix + [part], more);
    }
  }

  lemma ChangedChild(n: Node, prefix: seq<string>, log: seq<seq<string>>, x: seq<string>, i: nat, c: Node)
    requires Formed(n) && InOrder(n, prefix, log) && i < |n.children| && c.part == n.children[i].part
    requires prefix + [c.part] <= x && InOrder(c, prefix + [c.part], log + [x])
    ensures InOrder(n.(children := n.children[i := c]), prefix, log + [x])
  {
    hide FirstWith, Present, Aged, ChildAt;
    var children := n.children[i := c];
    Longer(prefix, c.part, x);
    ChildThere(n.children, i);
    PresentStill(n.children, prefix, log, x);
    AgedStill(n.children, prefix, log, x);
    SamePlaces(n.children, prefix, log + [x], i, c);
    forall a | 0 <= a < |children| ensures InOrder(children[a], prefix + [children[a].part], log + [x]) {
      if a != i { OtherBranch(n, prefix, log, x, a); }
    }
  }

  lemma SamePlaces(children: seq<Node>, prefix: seq<string>, log: seq<seq<string>>, i: nat, c: Node)
    requires Present(children, prefix, log) && Aged(children, prefix, log) && i < |children| && c.part == children[i].part
    ensures Present(children[i := c], prefix, log) && Aged(children[i := c], prefix, log)
  {
    hide FirstWith;
    forall part ensures ChildAt(children[i := c], part) == ChildAt(children, part) {
      SameChild(children, i, c, part);
    }
    assert forall a :: 0 <= a < |children| ==> children[i := c][a].part == children[a].part;
  }

  /** A route through one child lies elsewhere for the others. */
  lemma OtherBranch(n: Node, prefix: seq<string>, log: seq<seq<string>>, x: seq<string>, a: nat)
    requires InOrder(n, prefix, log) && a < |n.children| && !(prefix + [n.children[a].part] <= x)
    ensures InOrder(n.children[a], prefix + [n.children[a].part], log + [x])
  {
    InOrderElsewhere(n.children[a], prefix + [n.children[a].part], log, x);
  }

  lemma AddedChild(n: Node, prefix: seq<string>, log: seq<seq<string>>, x: seq<string>, c: Node)
    requires InOrder(n, prefix, log) && ChildAt(n.children, c.part) == |n.children|
    requires prefix + [c.part] <= x && InOrder(c, prefix + [c.part], log + [x])
    ensures InOrder(n.(children := n.children + [c]), prefix, log + [x])
  {
    hide FirstWith, Present, Aged;
    NewPresent(n.children, prefix, log, x, c);
    NewIsLast(n.children, prefix, log, x, c);
    Longer(prefix, c.part, x);
    forall a | 0 <= a < |n.children| ensures InOrder(n.children[a], prefix + [n.children[a].part], log + [x]) {
      assert n.children[a].part != c.part;
      Longer(prefix, n.children[a].part, x);
      OtherBranch(n, prefix, log, x, a);
    }
  }

  lemma NewPresent(children: seq<Node>, prefix: seq<string>, log: seq<seq<string>>, x: seq<string>, c: Node)
    requires Present(children, prefix, log) && ChildAt(children, c.part) == |children| && prefix + [c.part] <= x
    ensures Present(children + [c], prefix, log + [x])
  {
    Longer(prefix, c.part, x);
    forall part ensures ChildAt(children + [c], part) < |children + [c]| <==> FirstWith(log + [x], prefix + [part]) < |log + [x]| {
      NewChild(children, c, part);
      FirstWithMore(log, x, prefix + [part]);
      Longer(prefix, part, x);
    }
  }

  lemma NewIsLast(children: seq<Node>, prefix: seq<string>, log: seq<seq<string>>, x: seq<string>, c: Node)
    requires Present(children, prefix, log) && Aged(children, prefix, log)
    requires ChildAt(children, c.part) == |children| && prefix + [c.part] <= x
    ensures Aged(children + [c], prefix, log + [x])
  {
    var more, log1 := children + [c], log + [x];
    AgedStill(children, prefix, log, x);
    FirstWithMore(log, x, prefix + [c.part]);
    forall i, j | 0 <= i < j < |more| ensures FirstWith(log1, prefix + [more[i].part]) < FirstWith(log1, prefix + [more[j].part]) {
      if j == |children| { Older(children, prefix, log, x, i); }
    }
  }

  // ------------------------------------------------------------ the best route

  /** No other route of the trie that fits the request stands before p. */
  ghost predicate Best(n: Node, prefix: seq<string>, log: seq<seq<string>>, parts: seq<string>, p: seq<string>) {
    forall q, pattern :: HasRoute(n, q, pattern) && Reaches(n, q, parts) && q != p ==> BeatsFrom(log, prefix, parts, p, q)
  }

  /** Search finds the route that beats all others. */
  lemma {:induction false} SearchBest(n: Node, prefix: seq<string>, log: seq<seq<string>>, parts: seq<string>) returns (p: seq<string>)
    requires Formed(n) && InOrder(n, prefix, log) && Search(n, parts).Some?
    ensures HasRoute(n, p, Search(n, parts).value.pattern) && Reaches(n, p, parts) && Best(n, prefix, log, parts, p)
    decreases |parts|
  {
    if parts == [] || IsStar(n.part) {
      p := [];
    } else {
      var r, rest := Search(n, parts).value, parts[1..];
      ghost var i := FirstFound(n.children, parts[0], rest);
      var c := n.children[i];
      var below := SearchBest(c, prefix + [c.part], log, rest);
      hide Formed, InOrder, Search, SearchFirst, MatchChildren, HasRoute, Reaches, Best, BeatsFrom;
      p := [c.part] + below;
      RouteUp(n, i, below, parts, r.pattern);
      forall q, pattern | HasRoute(n, q, pattern) && Reaches(n, q, parts) && q != p ensures BeatsFrom(log, prefix, parts, p, q) {
        BestHere(n, prefix, log, parts, i, below, q, pattern);
      }
      BestIs(n, prefix, log, parts, p);
    }
  }

  lemma BestIs(n: Node, prefix: seq<string>, log: seq<seq<string>>, parts: seq<string>, p: seq<string>)
    requires forall q, pattern :: HasRoute(n, q, pattern) && Reaches(n, q, parts) && q != p ==> BeatsFrom(log, prefix, parts, p, q)
    ensures Best(n, prefix, log, parts, p)
  {
  }

  lemma BestHere(n: Node, prefix: seq<string>, log: seq<seq<string>>, parts: seq<string>, i: nat, below: seq<string>, q: seq<string>, pattern: string)
    requires Formed(n) && InOrder(n, prefix, log) && parts != [] && !IsStar(n.part) && i < |n.children|
    requires FoundAt(n.children, parts[0], parts[1..], i)
    requires Best(n.children[i], prefix + [n.children[i].part], log, parts[1..], below)
    requires HasRoute(n, q, pattern) && Reaches(n, q, parts) && q != [n.children[i].part] + below
    ensures BeatsFrom(log, prefix, parts, [n.children[i].part] + below, q)
  {
    assert Aged(n.children, prefix, log);
    hide *;
    var j := RouteDown(n, q, pattern, parts);
    if i == j {
      BestBelow(n.children[i], prefix, log, parts, below, q, pattern);
    } else {
      PartsDiffer(n, i, j);
      RouteFound(n.children[j], q[1..], pattern, parts[1..]);
      BestAhead(n.children, prefix, log, parts, i, j, below, q);
    }
  }

  lemma BestBelow(c: Node, prefix: seq<string>, log: seq<seq<string>>, parts: seq<string>, below: seq<string>, q: seq<string>, pattern: string)
    requires parts != [] && Best(c, prefix + [c.part], log, parts[1..], below)
    requires q != [] && q[0] == c.part && HasRoute(c, q[1..], pattern) && Reaches(c, q[1..], parts[1..]) && q != [c.part] + below
    ensures BeatsFrom(log, prefix, parts, [c.part] + below, q)
  {
    hide HasRoute, Reaches, BeatsFrom;
    assert q == [c.part] + q[1..];
    assert BeatsFrom(log, prefix + [c.part], parts[1..], below, q[1..]);
    Deeper(log, prefix, parts, c.part, below, q[1..]);
  }

  lemma BestAhead(children: seq<Node>, prefix: seq<string>, log: seq<seq<string>>, parts: seq<string>, i: nat, j: nat, p: seq<string>, q: seq<string>)
    requires i < |children| && j < |children| && parts != [] && children[i].part != children[j].part && Fits(children[j].part, parts[0])
    requires Aged(children, prefix, log) && FoundAt(children, parts[0], parts[1..], i) && Search(children[j], parts[1..]).Some?
    requires q != [] && q[0] == children[j].part
    ensures BeatsFrom(log, prefix, parts, [children[i].part] + p, q)
  {
    hide Search, Aged, Fits, FirstWith;
    assert !Ahead(children, parts[0], j, i);
    assert q == [q[0]] + q[1..];
    AheadDiffers(children, prefix, log, parts, i, j, p, q[1..]);
  }

  lemma AheadDiffers(children: seq<Node>, prefix: seq<string>, log: seq<seq<string>>, parts: seq<string>, i: nat, j: nat, p: seq<string>, q: seq<string>)
    requires i < |children| && j < |children| && parts != [] && children[i].part != children[j].part
    requires Aged(children, prefix, log) && Fits(children[j].part, parts[0]) && !Ahead(children, parts[0], j, i)
    ensures BeatsFrom(log, prefix, parts, [children[i].part] + p, [children[j].part] + q)
  {
    var p1, q1 := [children[i].part] + p, [children[j].part] + q;
    assert p1[..1] == [children[i].part] && q1[..1] == [children[j].part];
    assert DiffersAt(log, prefix, parts, p1, q1, 0);
  }

  lemma PartsDiffer(n: Node, i: nat, j: nat)
    requires Formed(n) && i < |n.children| && j < |n.children| && i != j
    ensures n.children[i].part != n.children[j].part
  {
  }

  /** A difference below one child is a difference here. */
  lemma Deeper(log: seq<seq<string>>, prefix: seq<string>, parts: seq<string>, part: string, p: seq<string>, q: seq<string>)
    requires parts != [] && BeatsFrom(log, prefix + [part], parts[1..], p, q)
    ensures BeatsFrom(log, prefix, parts, [part] + p, [part] + q)
  {
    var i :| 0 <= i < |p| && DiffersAt(log, prefix + [part], parts[1..], p, q, i);
    var p1, q1 := [part] + p, [part] + q;
    assert p1[..i + 1] == [part] + p[..i] && q1[..i + 1] == [part] + q[..i];
    assert p1[..i + 2] == [part] + p[..i + 1] && q1[..i + 2] == [part] + q[..i + 1];
    assert prefix + p1[..i + 2] == (prefix + [part]) + p[..i + 1] && prefix + q1[..i + 2] == (prefix + [part]) + q[..i + 1];
    assert DiffersAt(log, prefix, parts, p1, q1, i + 1);
  }

  // ------------------------------------------------------------ the router's tries

  ghost predicate Proper(log: seq<seq<string>>) { forall p :: p in log ==> Segments(p) && NoSlash(p) }

  /** The trie of a registration log is formed and in order, and holds the registered routes. */
  lemma {:induction false} Built(log: seq<seq<string>>)
    requires Proper(log)
    ensures Formed(Build(log)) && !IsStar(Build(log).part) && InOrder(Build(log), [], log)
  {
    if log != [] {
      var before, x := log[..|log| - 1], log[|log| - 1];
      Built(before);
      assert x in log && [] + x == x && before + [x] == log;
      InsertFormed(Build(before), Canonical(x), x);
      InsertInOrder(Build(before), [], before, Canonical(x), x);
    }
  }

  lemma {:induction false} Holds(log: seq<seq<string>>, path: seq<string>, q: string)
    ensures HasRoute(Build(log), path, q) <==> path in log && q == Canonical(path)
  {
    if log == [] {
      NoRoutes(EMPTY, path, q);
    } else {
      var before, x := log[..|log| - 1], log[|log| - 1];
      Holds(before, path, q);
      assert before + [x] == log;
      InsertRoutes(Build(before), Canonical(x), x, path, q);
    }
  }

  /** p is the registered route that fits the request and beats every other one that does. */
  ghost predicate BestOf(log: seq<seq<string>>, parts: seq<string>, p: seq<string>) {
    && p in log && Matches(p, parts)
    && (forall q :: q in log && Matches(q, parts) && q != p ==> Beats(log, parts, p, q))
  }

  /** After any registrations, a request is answered exactly if a route matches, and then by the best one. */
  lemma BestRoute(log: seq<seq<string>>, parts: seq<string>)
    requires Proper(log)
    ensures Search(Build(log), parts).Some? <==> exists p :: p in log && Matches(p, parts)
    ensures Search(Build(log), parts).Some? ==> exists p :: BestOf(log, parts, p) && Search(Build(log), parts).value.pattern == Canonical(p)
  {
    var root := Build(log);
    Built(log);
    hide Formed, InOrder, Search, HasRoute, Matches, Build, Canonical, BeatsFrom, Proper;
    if p :| p in log && Matches(p, parts) {
      Holds(log, p, Canonical(p));
      RouteFound(root, p, Canonical(p), parts);
    }
    if Search(root, parts).Some? {
      var p := SearchBest(root, [], log, parts);
      Holds(log, p, Search(root, parts).value.pattern);
      forall q | q in log && Matches(q, parts) && q != p ensures Beats(log, parts, p, q) {
        Holds(log, q, Canonical(q));
      }
    }
  }

  /** No other route is best. */
  lemma BestIsOne(log: seq<seq<string>>, parts: seq<string>, p: seq<string>, q: seq<string>)
    requires BestOf(log, parts, p) && BestOf(log, parts, q)
    ensures p == q
  {
    if p != q { BeatsOneWay(log, parts, p, q); }
  }
}
