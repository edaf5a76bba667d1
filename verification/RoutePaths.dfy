/** Parsing patterns and paths, and the parameters of a matched route. */
module RoutePaths {
  import opened RouteTrie

  /** The number of characters before the next slash. */
  function SegmentLen(s: string): (n: nat)
    ensures n <= |s| && (n < |s| ==> s[n] == '/') && forall i :: 0 <= i < n ==> s[i] != '/'
  {
    if s == "" || s[0] == '/' then 0 else 1 + SegmentLen(s[1..])
  }

  /** Splits at slashes, drops empty segments and stops after one that starts with a star. */
  function Parse(s: string): (r: seq<string>)
    decreases |s|
  {
    if s == "" then []
    else if s[0] == '/' then Parse(s[1..])
    else
      var n := SegmentLen(s);
      [s[..n]] + if s[0] == '*' then [] else Parse(s[n..])
  }

  /** A text without slashes is one segment. */
  lemma ParseOne(s: string)
    requires s != "" && '/' !in s
    ensures Parse(s) == [s] && Parse("") == []
  {
    assert SegmentLen(s) == |s|;
    assert s[..|s|] == s && s[|s|..] == "";
  }

  /** Slashes part: as long as there is no star segment, what follows a slash is parsed by itself. */
  lemma {:induction false} ParseConcat(a: string, b: string)
    requires forall i :: 0 <= i < |Parse(a)| ==> !IsStar(Parse(a)[i])
    ensures Parse(a + "/" + b) == Parse(a) + Parse(b)
    decreases |a|
  {
    hide Parse, SegmentLen, IsStar;
    var s := a + "/" + b;
    if a == "" {
      assert s[1..] == b;
      SlashStep(s);
    } else if a[0] == '/' {
      assert s[1..] == a[1..] + "/" + b;
      SlashStep(s);
      SlashStep(a);
      ParseConcat(a[1..], b);
    } else {
      var n := SameSegment(a, b);
      PlainTail(a);
      ParseStep(s);
      ParseConcat(a[n..], b);
      assert [a[..n]] + (Parse(a[n..]) + Parse(b)) == [a[..n]] + Parse(a[n..]) + Parse(b);
    }
  }

  lemma SlashStep(s: string)
    requires s != "" && s[0] == '/'
    ensures Parse(s) == Parse(s[1..]) && Parse("") == []
  {
  }

  lemma PlainTail(s: string)
    requires s != "" && s[0] != '/' && forall i :: 0 <= i < |Parse(s)| ==> !IsStar(Parse(s)[i])
    ensures var n := SegmentLen(s);
            && s[0] != '*' && 0 < n && Parse(s) == [s[..n]] + Parse(s[n..])
            && forall i :: 0 <= i < |Parse(s[n..])| ==> !IsStar(Parse(s[n..])[i])
  {
    ParseStep(s);
    hide Parse, SegmentLen;
    var n := SegmentLen(s);
    assert s[0] != '*' by { assert Parse(s)[0] == s[..n]; }
    forall i | 0 <= i < |Parse(s[n..])| ensures !IsStar(Parse(s[n..])[i]) { assert Parse(s[n..])[i] == Parse(s)[i + 1]; }
  }

  lemma ParseStep(s: string)
    requires s != "" && s[0] != '/'
    ensures var n := SegmentLen(s); 0 < n <= |s| && Parse(s) == [s[..n]] + if s[0] == '*' then [] else Parse(s[n..])
  {
  }

  lemma SameSegment(a: string, b: string) returns (n: nat)
    requires a != "" && a[0] != '/'
    ensures n == SegmentLen(a) == SegmentLen(a + "/" + b) && 0 < n
    ensures (a + "/" + b)[..n] == a[..n] && (a + "/" + b)[n..] == a[n..] + "/" + b
  {
    n := SegmentLen(a);
    var s := a + "/" + b;
    var k := SegmentLen(s);
    assert forall i :: 0 <= i < n ==> s[i] == a[i];
    assert s[n] == '/';
  }

  /** Nothing follows a star segment. */
  lemma {:induction false} ParseStar(a: string, b: string)
    requires exists i :: 0 <= i < |Parse(a)| && IsStar(Parse(a)[i])
    ensures Parse(a + "/" + b) == Parse(a)
    decreases |a|
  {
    var s := a + "/" + b;
    if a != "" && a[0] == '/' {
      assert s[1..] == a[1..] + "/" + b;
      ParseStar(a[1..], b);
    } else if a != "" {
      var n := SameSegment(a, b);
      if a[0] != '*' {
        var i :| 0 <= i < |Parse(a)| && IsStar(Parse(a)[i]);
        assert Parse(a)[1..] == Parse(a[n..]);
        assert i != 0 && Parse(a[n..])[i - 1] == Parse(a)[i];
        ParseStar(a[n..], b);
      }
    }
  }

  predicate NoSlash(parts: seq<string>) { forall i :: 0 <= i < |parts| ==> '/' !in parts[i] }

  /** Parsing always yields proper segments. */
  lemma {:induction false} ParseSegments(s: string)
    ensures Segments(Parse(s)) && NoSlash(Parse(s))
    decreases |s|
  {
    if s != "" {
      if s[0] == '/' {
        ParseSegments(s[1..]);
      } else {
        var n := SegmentLen(s);
        ParseSegments(s[n..]);
        assert s[..n][0] == s[0];
      }
    }
  }

  function Join(parts: seq<string>): string {
    if parts == [] then "" else if |parts| == 1 then parts[0] else parts[0] + "/" + Join(parts[1..])
  }

  /** Segments are joined by single slashes. */
  lemma {:induction false} JoinConcat(a: seq<string>, b: seq<string>)
    requires a != [] && b != []
    ensures Join(a + b) == Join(a) + "/" + Join(b) && Join([a[0]]) == a[0]
  {
    assert (a + b)[1..] == a[1..] + b;
    if |a| > 1 {
      JoinConcat(a[1..], b);
    } else {
      assert a == [a[0]] && a[1..] + b == b;
    }
  }

  /** The pattern as it is stored: "/users", "/users/" and "//users" are one. */
  function Canonical(parts: seq<string>): string { "/" + Join(parts) }

  lemma SegmentAt(part: string, rest: string)
    requires '/' !in part && (rest == "" || rest[0] == '/')
    ensures SegmentLen(part + rest) == |part|
  {
    var s := part + rest;
    var n := SegmentLen(s);
    assert forall i :: 0 <= i < |part| ==> s[i] == part[i] && part[i] in part;
    assert rest != "" ==> s[|part|] == '/';
  }

  /** Parsing what was joined gives the segments back. */
  lemma {:induction false} ParseJoin(parts: seq<string>)
    requires Segments(parts) && NoSlash(parts)
    ensures Parse(Join(parts)) == parts
  {
    if parts != [] {
      var part, rest := parts[0], parts[1..];
      assert part[0] in part;
      assert Segments(rest) && NoSlash(rest);
      var tail := if rest == [] then "" else "/" + Join(rest);
      assert Join(parts) == part + tail;
      SegmentAt(part, tail);
      var s := part + tail;
      assert s[..|part|] == part && s[|part|..] == tail && s[0] == part[0];
      if rest != [] {
        ParseJoin(rest);
        assert tail[1..] == Join(rest);
        assert !IsStar(part);
      }
    }
  }

  /** The stored pattern parses to the segments it was stored under. */
  lemma CanonicalParses(parts: seq<string>)
    requires Segments(parts) && NoSlash(parts)
    ensures Parse(Canonical(parts)) == parts && Canonical(parts) != ""
  {
    ParseJoin(parts);
    assert Canonical(parts)[1..] == Join(parts);
  }

  // ------------------------------------------------------------ parameters

  predicate IsParam(part: string) { part != "" && part[0] == ':' }

  /** Segments that bind a parameter: a bare ":" binds the empty name, a bare "*" binds nothing. */
  predicate Named(part: string) { IsParam(part) || (IsStar(part) && |part| > 1) }

  function Name(part: string): string
    requires part != ""
  {
    part[1..]
  }

  /** A later parameter of the same name replaces an earlier one. */
  function Params(parts: seq<string>, search: seq<string>): map<string, string> {
    if parts == [] || search == [] || parts[0] == "" then map[]
    else if IsStar(parts[0]) && |parts[0]| > 1 then map[Name(parts[0]) := Join(search)]
    else (if IsParam(parts[0]) then map[Name(parts[0]) := search[0]] else map[]) + Params(parts[1..], search[1..])
  }

  /** The loop over the segments. */
  method CollectParams(parts: seq<string>, search: seq<string>) returns (params: map<string, string>)
    requires Segments(parts) && Matches(parts, search)
    ensures params == Params(parts, search)
  {
    params := map[];
    var i := 0;
    assert parts[0..] == parts && search[0..] == search;
    assert params + Params(parts, search) == Params(parts, search);
    hide Params, Matches, Segments;
    while i < |parts|
      invariant 0 <= i <= |parts| && i <= |search| && Matches(parts[i..], search[i..]) && Segments(parts)
      invariant Params(parts, search) == params + Params(parts[i..], search[i..])
    {
      var part := parts[i];
      ParamsNext(parts, search, i);
      ghost var rest := Params(parts[i + 1..], search[i + 1..]);
      Merge(params, Name(part), search[i], rest);
      if IsStar(part) {
        Merge(params, Name(part), Join(search[i..]), map[]);
        params := if |part| > 1 then params[Name(part) := Join(search[i..])] else params;
        return;
      }
      params := if IsParam(part) then params[Name(part) := search[i]] else params;
      i := i + 1;
    }
    ParamsEnd(parts, search);
    Merge(params, "", "", map[]);
  }

  lemma Merge(p: map<string, string>, name: string, value: string, rest: map<string, string>)
    ensures p + (map[name := value] + rest) == p[name := value] + rest && p + (map[] + rest) == p + rest
    ensures p[name := value] + map[] == p[name := value] && p + map[] == p && p + map[name := value] == p[name := value]
  {
  }

  lemma ParamsEnd(parts: seq<string>, search: seq<string>)
    requires |parts| <= |search|
    ensures Params(parts[|parts|..], search[|parts|..]) == map[]
  {
  }

  /** What the i-th segment contributes. */
  lemma ParamsNext(parts: seq<string>, search: seq<string>, i: nat)
    requires Segments(parts) && i < |parts| && i <= |search| && Matches(parts[i..], search[i..])
    ensures i < |search| && parts[i] != ""
    ensures IsStar(parts[i]) ==>
              Params(parts[i..], search[i..]) == if |parts[i]| > 1 then map[Name(parts[i]) := Join(search[i..])] else map[]
    ensures !IsStar(parts[i]) ==>
              && Matches(parts[i + 1..], search[i + 1..])
              && Params(parts[i..], search[i..])
                 == (if IsParam(parts[i]) then map[Name(parts[i]) := search[i]] else map[]) + Params(parts[i + 1..], search[i + 1..])
  {
    assert parts[i..][1..] == parts[i + 1..] && search[i..][1..] == search[i + 1..];
    assert parts[i..][0] == parts[i] && search[i..][0] == search[i];
    if IsStar(parts[i]) { assert parts[i + 1..] == []; }
  }

  /** The segment binds the name to part of the request. */
  ghost predicate Binds(segment: string, name: string) { segment == ":" + name || (name != "" && segment == "*" + name) }

  /** The value of a name: a colon segment binds it to the part in its place, a star segment to the rest of the request;
      of two segments with one name the later one counts. */
  ghost predicate ParamIs(params: map<string, string>, parts: seq<string>, search: seq<string>, name: string)
    requires |parts| <= |search| && forall i :: 0 <= i < |parts| ==> parts[i] != ""
  {
    && (name in params <==> exists i :: 0 <= i < |parts| && Binds(parts[i], name))
    && (forall i :: 0 <= i < |parts| && Binds(parts[i], name) && (forall j :: i < j < |parts| ==> !Binds(parts[j], name)) ==>
          name in params && params[name] == if parts[i][0] == ':' then search[i] else Join(search[i..]))
  }

  /** The parameters are exactly the names that segments bind. */
  lemma {:induction false} ParamsAre(parts: seq<string>, search: seq<string>, name: string)
    requires Segments(parts) && Matches(parts, search)
    ensures |parts| <= |search| && ParamIs(Params(parts, search), parts, search, name)
    decreases |parts|
  {
    if parts != [] {
      BindsIs(parts[0], name);
      if IsStar(parts[0]) {
        assert parts[1..] == [] && search[0..] == search;
      } else {
        assert Segments(parts[1..]);
        ParamsAre(parts[1..], search[1..], name);
        ParamsStep(parts, search, name);
        hide Params, Matches, Join, Binds;
        ParamMore(parts, search, name);
      }
    }
  }

  lemma ParamMore(parts: seq<string>, search: seq<string>, name: string)
    requires parts != [] && |parts| <= |search| && (forall i :: 0 <= i < |parts| ==> parts[i] != "") && parts[0][0] != '*'
    requires Binds(parts[0], name) <==> parts[0][0] == ':' && parts[0][1..] == name
    requires ParamIs(Params(parts[1..], search[1..]), parts[1..], search[1..], name)
    requires var ps, rest := Params(parts, search), Params(parts[1..], search[1..]);
             && (name in rest ==> name in ps && ps[name] == rest[name])
             && (name !in rest && parts[0][0] == ':' && parts[0][1..] == name ==> name in ps && ps[name] == search[0])
             && (name !in rest && !(parts[0][0] == ':' && parts[0][1..] == name) ==> name !in ps)
    ensures ParamIs(Params(parts, search), parts, search, name)
  {
    hide Params, Join, Binds;
    var rest, more := parts[1..], search[1..];
    assert forall i :: 0 <= i < |rest| ==> rest[i] == parts[i + 1] && more[i] == search[i + 1] && more[i..] == search[i + 1..];
    var ps := Params(parts, search);
    if name in Params(rest, more) {
      var i :| 0 <= i < |rest| && Binds(rest[i], name);
      assert Binds(parts[i + 1], name);
    } else {
      forall i | 0 < i < |parts| ensures !Binds(parts[i], name) { assert !Binds(rest[i - 1], name); }
    }
    forall i | 0 <= i < |parts| && Binds(parts[i], name) && (forall j :: i < j < |parts| ==> !Binds(parts[j], name))
      ensures name in ps && ps[name] == if parts[i][0] == ':' then search[i] else Join(search[i..])
    {
      if i == 0 {
        forall j | 0 <= j < |rest| ensures !Binds(rest[j], name) { assert !Binds(parts[j + 1], name); }
      } else {
        forall j | i - 1 < j < |rest| ensures !Binds(rest[j], name) { assert !Binds(parts[j + 1], name); }
        assert Binds(rest[i - 1], name);
      }
    }
  }

  lemma BindsIs(segment: string, name: string)
    requires segment != ""
    ensures Binds(segment, name) <==> segment[1..] == name && (segment[0] == ':' || (segment[0] == '*' && |segment| > 1))
  {
    assert segment == [segment[0]] + segment[1..];
    assert (":" + name)[1..] == name && ("*" + name)[1..] == name;
  }

  lemma ParamsStep(parts: seq<string>, search: seq<string>, name: string)
    requires parts != [] && search != [] && parts[0] != "" && !IsStar(parts[0])
    ensures var ps, rest := Params(parts, search), Params(parts[1..], search[1..]);
            && (name in rest ==> name in ps && ps[name] == rest[name])
            && (name !in rest && parts[0][0] == ':' && parts[0][1..] == name ==> name in ps && ps[name] == search[0])
            && (name !in rest && !(parts[0][0] == ':' && parts[0][1..] == name) ==> name !in ps)
  {
  }

  predicate DistinctNames(parts: seq<string>) {
    forall i, j :: 0 <= i < j < |parts| && Named(parts[i]) && Named(parts[j]) ==> Name(parts[i]) != Name(parts[j])
  }

  function Substitute(part: string, params: map<string, string>): string {
    if Named(part) && Name(part) in params then params[Name(part)] else part
  }

  function SubstituteAll(parts: seq<string>, params: map<string, string>): (r: seq<string>)
    ensures |r| == |parts| && forall i :: 0 <= i < |r| ==> r[i] == Substitute(parts[i], params)
  {
    if parts == [] then [] else [Substitute(parts[0], params)] + SubstituteAll(parts[1..], params)
  }

  lemma {:induction false} NamesOf(parts: seq<string>, search: seq<string>, name: string)
    requires name in Params(parts, search)
    ensures exists i :: 0 <= i < |parts| && Named(parts[i]) && Name(parts[i]) == name
    decreases |parts|
  {
    if IsStar(parts[0]) && |parts[0]| > 1 {
      assert Named(parts[0]);
    } else if name in Params(parts[1..], search[1..]) {
      NamesOf(parts[1..], search[1..], name);
      var i :| 0 <= i < |parts[1..]| && Named(parts[1..][i]) && Name(parts[1..][i]) == name;
      assert parts[i + 1] == parts[1..][i];
    } else {
      assert Named(parts[0]);
    }
  }

  /** What a bare star took is a single star, the only text that comes back for it. */
  predicate StarKept(parts: seq<string>, search: seq<string>) {
    parts != [] && |parts| <= |search| && parts[|parts| - 1] == "*" ==> Join(search[|parts| - 1..]) == "*"
  }

  lemma JoinHead(part: string, a: seq<string>, b: seq<string>)
    requires a == [] <==> b == []
    ensures Join([part] + a) == Join([part] + b) <==> Join(a) == Join(b)
  {
    assert ([part] + a)[1..] == a && ([part] + b)[1..] == b;
    if a != [] {
      var x, y := part + "/" + Join(a), part + "/" + Join(b);
      assert x[|part| + 1..] == Join(a) && y[|part| + 1..] == Join(b);
    }
  }

  lemma StarKeptNext(parts: seq<string>, search: seq<string>)
    requires parts != [] && search != [] && !IsStar(parts[0])
    ensures StarKept(parts, search) <==> StarKept(parts[1..], search[1..])
  {
    if |parts| > 1 && |parts| <= |search| {
      assert search[1..][|parts| - 2..] == search[|parts| - 1..];
      assert parts[1..][|parts| - 2] == parts[|parts| - 1];
    }
  }

  /** Parameters that agree with those of the match fill the segments in to the request, a bare star aside. */
  lemma {:induction false} FillsIn(parts: seq<string>, search: seq<string>, params: map<string, string>)
    requires Segments(parts) && DistinctNames(parts) && Matches(parts, search)
    requires forall name :: name in Params(parts, search) ==> name in params && params[name] == Params(parts, search)[name]
    ensures Join(SubstituteAll(parts, params)) == Join(search) <==> StarKept(parts, search)
    decreases |parts|
  {
    if parts != [] {
      if IsStar(parts[0]) {
        FillsStar(parts[0], search, params);
        assert parts == [parts[0]];
      } else {
        assert Segments(parts[1..]) && DistinctNames(parts[1..]);
        FillsFirst(parts, search, params);
        FillsIn(parts[1..], search[1..], params);
        FillsNext(parts, search, params);
      }
    }
  }

  lemma SubstituteHead(parts: seq<string>, search: seq<string>, params: map<string, string>)
    requires parts != [] && !IsStar(parts[0]) && Matches(parts, search) && Substitute(parts[0], params) == search[0]
    ensures search != [] && SubstituteAll(parts, params) == [search[0]] + SubstituteAll(parts[1..], params)
    ensures parts[1..] == [] <==> search[1..] == []
  {
    hide Substitute;
  }

  lemma FillsNext(parts: seq<string>, search: seq<string>, params: map<string, string>)
    requires parts != [] && !IsStar(parts[0]) && Matches(parts, search) && Substitute(parts[0], params) == search[0]
    requires Join(SubstituteAll(parts[1..], params)) == Join(search[1..]) <==> StarKept(parts[1..], search[1..])
    ensures Join(SubstituteAll(parts, params)) == Join(search) <==> StarKept(parts, search)
  {
    SubstituteHead(parts, search, params);
    hide *;
    StarKeptNext(parts, search);
    JoinHead(search[0], SubstituteAll(parts[1..], params), search[1..]);
    assert search == [search[0]] + search[1..];
  }

  lemma FillsStar(part: string, search: seq<string>, params: map<string, string>)
    requires IsStar(part) && search != []
    requires forall name :: name in Params([part], search) ==> name in params && params[name] == Params([part], search)[name]
    ensures Join(SubstituteAll([part], params)) == Join(search) <==> StarKept([part], search)
  {
    if |part| > 1 {
      assert Params([part], search) == map[Name(part) := Join(search)];
      assert SubstituteAll([part], params) == [Join(search)];
    } else {
      assert part == "*" && SubstituteAll([part], params) == ["*"] && search[0..] == search;
    }
  }

  lemma FillsFirst(parts: seq<string>, search: seq<string>, params: map<string, string>)
    requires Segments(parts) && DistinctNames(parts) && parts != [] && !IsStar(parts[0]) && Matches(parts, search)
    requires forall name :: name in Params(parts, search) ==> name in params && params[name] == Params(parts, search)[name]
    ensures Substitute(parts[0], params) == search[0]
    ensures forall name :: name in Params(parts[1..], search[1..]) ==> name in params && params[name] == Params(parts[1..], search[1..])[name]
  {
    var part, rest, more, ps := parts[0], parts[1..], search[1..], Params(parts, search);
    forall name | name in Params(rest, more) ensures name in params && params[name] == Params(rest, more)[name] {
      assert name in ps && ps[name] == Params(rest, more)[name];
    }
    if IsParam(part) {
      if Name(part) in Params(rest, more) {
        NamesOf(rest, more, Name(part));
      }
      assert Name(part) in ps && ps[Name(part)] == search[0];
    }
  }

  /** With distinct names, filling a matched pattern's parameters in gives back the request path, exactly
      if the pattern does not end in a bare star or that star took a star. */
  lemma ParamsRoundTrip(parts: seq<string>, search: seq<string>)
    requires Segments(parts) && DistinctNames(parts) && Matches(parts, search)
    ensures Canonical(SubstituteAll(parts, Params(parts, search))) == Canonical(search) <==> StarKept(parts, search)
  {
    FillsIn(parts, search, Params(parts, search));
    assert Canonical(search)[1..] == Join(search);
    var filled := SubstituteAll(parts, Params(parts, search));
    assert Canonical(filled)[1..] == Join(filled);
  }

  const EMPTY: Node := Node("", "", false, [])
}
