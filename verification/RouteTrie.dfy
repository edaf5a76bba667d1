/** The route trie: search with backtracking against the list of registered patterns. */
module RouteTrie {
  import opened Options

  /** A pattern of "" means that no route ends here. */
  datatype Node = Node(pattern: string, part: string, wild: bool, children: seq<Node>)

  predicate IsStar(part: string) { part != "" && part[0] == '*' }
  predicate IsWild(part: string) { part != "" && (part[0] == ':' || part[0] == '*') }

  // ------------------------------------------------------------ the code

  function ChildAt(children: seq<Node>, part: string): (i: nat)
    ensures i <= |children| && (i < |children| ==> children[i].part == part)
    ensures forall j :: 0 <= j < i ==> children[j].part != part
  {
    if children == [] || children[0].part == part then 0 else 1 + ChildAt(children[1..], part)
  }

  function Insert(n: Node, pattern: string, parts: seq<string>): (r: Node)
    ensures r.part == n.part && r.wild == n.wild
    decreases |parts|
  {
    if parts == [] then n.(pattern := pattern)
    else
      var i, part := ChildAt(n.children, parts[0]), parts[0];
      if i < |n.children| then n.(children := n.children[i := Insert(n.children[i], pattern, parts[1..])])
      else n.(children := n.children + [Insert(Node("", part, IsWild(part), []), pattern, parts[1..])])
  }

  function Exact(children: seq<Node>, part: string): seq<Node> {
    if children == [] then [] else (if children[0].part == part then [children[0]] else []) + Exact(children[1..], part)
  }

  function Wild(children: seq<Node>, part: string): seq<Node> {
    if children == [] then []
    else (if children[0].part != part && children[0].wild then [children[0]] else []) + Wild(children[1..], part)
  }

  /** Exact children first, then wild ones, each in the order they were added. */
  function MatchChildren(children: seq<Node>, part: string): seq<Node> {
    Exact(children, part) + Wild(children, part)
  }

  function Search(n: Node, parts: seq<string>): Option<Node>
    decreases |parts|, 0
  {
    if parts == [] || IsStar(n.part) then (if n.pattern == "" then None else Some(n))
    else SearchFirst(MatchChildren(n.children, parts[0]), parts[1..])
  }

  function SearchFirst(nodes: seq<Node>, parts: seq<string>): Option<Node>
    decreases |parts|, 1 + |nodes|
  {
    if nodes == [] then None
    else
      match Search(nodes[0], parts)
      case Some(n) => Some(n)
      case None => SearchFirst(nodes[1..], parts)
  }

  // ------------------------------------------------------------ routes

  /** The trie holds the pattern q under these segments. */
  ghost predicate HasRoute(n: Node, path: seq<string>, q: string)
    decreases |path|
  {
    if path == [] then q != "" && n.pattern == q
    else
      var i := ChildAt(n.children, path[0]);
      i < |n.children| && HasRoute(n.children[i], path[1..], q)
  }

  predicate Fits(segment: string, part: string) { segment == part || IsWild(segment) }

  /** Segments against request parts: a star segment takes all that is left, at least one part. */
  predicate Matches(path: seq<string>, parts: seq<string>)
    decreases |path|
  {
    if path == [] then parts == []
    else parts != [] && Fits(path[0], parts[0]) && (if IsStar(path[0]) then |path| == 1 else Matches(path[1..], parts[1..]))
  }

  /** A pattern fits a request part by part, colon segments fitting anything, and a final star segment one part or more. */
  lemma {:induction false} MatchesIff(path: seq<string>, parts: seq<string>)
    requires Segments(path)
    ensures Matches(path, parts) <==>
              && (forall i :: 0 <= i < |path| && i < |parts| ==> path[i] == parts[i] || path[i][0] == ':' || path[i][0] == '*')
              && (if path != [] && path[|path| - 1][0] == '*' then |path| <= |parts| else |path| == |parts|)
    decreases |path|
  {
    if path != [] && parts != [] {
      var rest, more := path[1..], parts[1..];
      assert forall i :: 0 < i < |path| ==> path[i] == rest[i - 1];
      assert forall i :: 0 < i < |parts| ==> parts[i] == more[i - 1];
      if IsStar(path[0]) {
        assert |path| == 1;
      } else {
        assert Segments(rest);
        MatchesIff(rest, more);
        assert forall i :: 0 <= i < |rest| && i < |more| ==> rest[i] == path[i + 1] && more[i] == parts[i + 1];
      }
    }
  }

  /** Segments as parsePattern makes them: none empty, a star only at the end. */
  predicate Segments(parts: seq<string>) {
    forall i :: 0 <= i < |parts| ==> parts[i] != "" && (IsStar(parts[i]) ==> i == |parts| - 1)
  }

  ghost predicate Formed(n: Node)
    decreases n
  {
    && (IsStar(n.part) ==> n.children == [])
    && (forall i, j :: 0 <= i < j < |n.children| ==> n.children[i].part != n.children[j].part)
    && (forall i :: 0 <= i < |n.children| ==>
          n.children[i].part != "" && n.children[i].wild == IsWild(n.children[i].part) && Formed(n.children[i]))
  }

  // ------------------------------------------------------------ inserting

  lemma {:induction false} InsertFormed(n: Node, pattern: string, parts: seq<string>)
    requires Formed(n) && Segments(parts) && (IsStar(n.part) ==> parts == [])
    ensures Formed(Insert(n, pattern, parts))
    decreases |parts|
  {
    if parts != [] {
      var i, part := ChildAt(n.children, parts[0]), parts[0];
      assert Segments(parts[1..]) && (IsStar(part) ==> parts[1..] == []);
      if i < |n.children| {
        InsertFormed(n.children[i], pattern, parts[1..]);
      } else {
        InsertFormed(Node("", part, IsWild(part), []), pattern, parts[1..]);
      }
    }
  }

  lemma SameChild(children: seq<Node>, i: nat, c: Node, part: string)
    requires i < |children| && c.part == children[i].part
    ensures ChildAt(children[i := c], part) == ChildAt(children, part)
  {
    var changed := children[i := c];
    assert forall j :: 0 <= j < |children| ==> changed[j].part == children[j].part;
  }

  lemma NewChild(children: seq<Node>, c: Node, part: string)
    requires ChildAt(children, c.part) == |children|
    ensures ChildAt(children + [c], part) == if part == c.part then |children| else
              (if ChildAt(children, part) < |children| then ChildAt(children, part) else |children| + 1)
  {
    var more := children + [c];
    var a, b := ChildAt(more, part), ChildAt(children, part);
    assert forall i :: 0 <= i < |children| ==> more[i] == children[i];
    assert more[|children|] == c;
    assert b < |children| ==> more[b].part == part;
    assert a < |children| ==> children[a].part == part;
  }

  /** Inserting adds exactly the one route. */
  lemma {:induction false} InsertRoutes(n: Node, pattern: string, parts: seq<string>, path: seq<string>, q: string)
    requires pattern != ""
    ensures HasRoute(Insert(n, pattern, parts), path, q) <==> if path == parts then q == pattern else HasRoute(n, path, q)
    decreases |parts|
  {
    if parts != [] {
      var i, part := ChildAt(n.children, parts[0]), parts[0];
      var r := Insert(n, pattern, parts);
      if path == [] { return; }
      assert path == [path[0]] + path[1..] && parts == [parts[0]] + parts[1..];
      if i < |n.children| {
        SameChild(n.children, i, Insert(n.children[i], pattern, parts[1..]), path[0]);
        if path[0] == part { InsertRoutes(n.children[i], pattern, parts[1..], path[1..], q); }
      } else {
        var leaf := Node("", part, IsWild(part), []);
        NewChild(n.children, Insert(leaf, pattern, parts[1..]), path[0]);
        if path[0] == part {
          InsertRoutes(leaf, pattern, parts[1..], path[1..], q);
          NoRoutes(leaf, path[1..], q);
        }
      }
    }
  }

  lemma NoRoutes(n: Node, path: seq<string>, q: string)
    requires n.pattern == "" && n.children == []
    ensures !HasRoute(n, path, q)
  {
  }

  // ------------------------------------------------------------ searching

  /** What of a node's routes counts once the parts up to the node are used: below a star nothing is left to match. */
  ghost predicate Reaches(n: Node, path: seq<string>, parts: seq<string>) {
    if IsStar(n.part) then path == [] else Matches(path, parts)
  }

  /** Among the children that fit, j is tried before i. */
  ghost predicate Ahead(children: seq<Node>, part: string, j: nat, i: nat)
    requires j < |children| && i < |children|
  {
    && Fits(children[j].part, part)
    && (if children[i].part == part then children[j].part == part && j < i else children[j].part == part || j < i)
  }

  /** The child through which the search succeeds: those ahead of it lead nowhere. */
  ghost predicate FoundAt(children: seq<Node>, part: string, rest: seq<string>, i: nat) {
    && i < |children| && Fits(children[i].part, part)
    && (forall j :: 0 <= j < |children| && Ahead(children, part, j, i) ==> Search(children[j], rest).None?)
  }

  ghost predicate WildKnown(children: seq<Node>) { forall i :: 0 <= i < |children| ==> children[i].wild == IsWild(children[i].part) }

  lemma SearchFirstNext(c: Node, more: seq<Node>, rest: seq<string>)
    ensures SearchFirst([c] + more, rest) == if Search(c, rest).Some? then Search(c, rest) else SearchFirst(more, rest)
  {
    assert ([c] + more)[1..] == more;
  }

  lemma {:induction false} ExactFound(children: seq<Node>, part: string, rest: seq<string>) returns (i: nat)
    ensures match SearchFirst(Exact(children, part), rest)
            case None => forall j :: 0 <= j < |children| && children[j].part == part ==> Search(children[j], rest).None?
            case Some(r) => i < |children| && children[i].part == part && Search(children[i], rest) == Some(r)
                            && (forall j :: 0 <= j < i && children[j].part == part ==> Search(children[j], rest).None?)
  {
    i := 0;
    if children != [] {
      var more := ExactFound(children[1..], part, rest);
      SearchFirstNext(children[0], Exact(children[1..], part), rest);
      assert [] + Exact(children[1..], part) == Exact(children[1..], part);
      assert forall j :: 1 <= j < |children| ==> children[j] == children[1..][j - 1];
      hide Search, SearchFirst;
      if !(children[0].part == part && Search(children[0], rest).Some?) { i := more + 1; }
    }
  }

  lemma {:induction false} WildFound(children: seq<Node>, part: string, rest: seq<string>) returns (i: nat)
    requires WildKnown(children)
    ensures match SearchFirst(Wild(children, part), rest)
            case None => forall j :: 0 <= j < |children| && children[j].part != part && IsWild(children[j].part) ==> Search(children[j], rest).None?
            case Some(r) => i < |children| && children[i].part != part && IsWild(children[i].part) && Search(children[i], rest) == Some(r)
                            && (forall j :: 0 <= j < i && children[j].part != part && IsWild(children[j].part) ==> Search(children[j], rest).None?)
  {
    i := 0;
    if children != [] {
      var more := WildFound(children[1..], part, rest);
      SearchFirstNext(children[0], Wild(children[1..], part), rest);
      assert [] + Wild(children[1..], part) == Wild(children[1..], part);
      assert forall j :: 1 <= j < |children| ==> children[j] == children[1..][j - 1];
      hide Search, SearchFirst, IsWild;
      if !(children[0].part != part && children[0].wild && Search(children[0], rest).Some?) { i := more + 1; }
    }
  }

  lemma {:induction false} SearchBoth(a: seq<Node>, b: seq<Node>, rest: seq<string>)
    ensures SearchFirst(a + b, rest) == if SearchFirst(a, rest).Some? then SearchFirst(a, rest) else SearchFirst(b, rest)
  {
    if a == [] {
      assert a + b == b;
    } else {
      assert (a + b)[0] == a[0] && (a + b)[1..] == a[1..] + b;
      SearchBoth(a[1..], b, rest);
    }
  }

  lemma FirstFound(children: seq<Node>, part: string, rest: seq<string>) returns (i: nat)
    requires WildKnown(children) && SearchFirst(MatchChildren(children, part), rest).Some?
    ensures FoundAt(children, part, rest, i) && Search(children[i], rest) == SearchFirst(MatchChildren(children, part), rest)
  {
    SearchBoth(Exact(children, part), Wild(children, part), rest);
    i := ExactFound(children, part, rest);
    if SearchFirst(Exact(children, part), rest).None? { i := WildFound(children, part, rest); }
  }

  lemma FoundIfAny(children: seq<Node>, part: string, rest: seq<string>, i: nat)
    requires WildKnown(children) && i < |children| && Fits(children[i].part, part) && Search(children[i], rest).Some?
    ensures SearchFirst(MatchChildren(children, part), rest).Some?
  {
    SearchBoth(Exact(children, part), Wild(children, part), rest);
    var _ := ExactFound(children, part, rest);
    var _ := WildFound(children, part, rest);
  }

  lemma RouteUp(n: Node, i: nat, path: seq<string>, parts: seq<string>, q: string)
    requires Formed(n) && !IsStar(n.part) && i < |n.children| && parts != []
    requires var c := n.children[i]; Fits(c.part, parts[0]) && HasRoute(c, path, q) && Reaches(c, path, parts[1..])
    ensures HasRoute(n, [n.children[i].part] + path, q) && Reaches(n, [n.children[i].part] + path, parts)
  {
    var c := n.children[i];
    var up := [c.part] + path;
    assert up[0] == c.part && up[1..] == path;
    assert ChildAt(n.children, c.part) == i;
  }

  lemma RouteDown(n: Node, path: seq<string>, q: string, parts: seq<string>) returns (i: nat)
    requires Formed(n) && parts != [] && !IsStar(n.part) && HasRoute(n, path, q) && Reaches(n, path, parts)
    ensures i < |n.children| && path != [] && path[0] == n.children[i].part && Fits(path[0], parts[0])
    ensures HasRoute(n.children[i], path[1..], q) && Reaches(n.children[i], path[1..], parts[1..]) && Formed(n.children[i])
  {
    i := ChildAt(n.children, path[0]);
  }

  /** A route that matches is never missed. */
  lemma {:induction false} RouteFound(n: Node, path: seq<string>, q: string, parts: seq<string>)
    requires Formed(n) && HasRoute(n, path, q) && Reaches(n, path, parts)
    ensures Search(n, parts).Some?
    decreases |parts|
  {
    if parts != [] && !IsStar(n.part) {
      var i := RouteDown(n, path, q, parts);
      RouteFound(n.children[i], path[1..], q, parts[1..]);
      FoundIfAny(n.children, parts[0], parts[1..], i);
    }
  }

  /** What is found is a route that matches. */
  lemma {:induction false} FoundIsRoute(n: Node, parts: seq<string>) returns (path: seq<string>)
    requires Formed(n) && Search(n, parts).Some?
    ensures HasRoute(n, path, Search(n, parts).value.pattern) && Reaches(n, path, parts)
    decreases |parts|
  {
    path := [];
    if parts != [] && !IsStar(n.part) {
      var i := FirstFound(n.children, parts[0], parts[1..]);
      var below := FoundIsRoute(n.children[i], parts[1..]);
      RouteUp(n, i, below, parts, Search(n, parts).value.pattern);
      path := [n.children[i].part] + below;
    }
  }

  /** Route lookup: a route is found exactly when a registered pattern matches. */
  lemma LookupIff(root: Node, parts: seq<string>)
    requires Formed(root) && !IsStar(root.part)
    ensures Search(root, parts).Some? <==> exists path, q :: HasRoute(root, path, q) && Matches(path, parts)
    ensures Search(root, parts).Some? ==> exists path :: HasRoute(root, path, Search(root, parts).value.pattern) && Matches(path, parts)
  {
    forall path, q | HasRoute(root, path, q) && Matches(path, parts) ensures Search(root, parts).Some? {
      RouteFound(root, path, q, parts);
    }
    hide Search, HasRoute, Matches;
    if Search(root, parts).Some? {
      var path := FoundIsRoute(root, parts);
      var q := Search(root, parts).value.pattern;
      assert HasRoute(root, path, q) && Matches(path, parts);
    }
  }
}
