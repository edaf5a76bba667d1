/** The compiler from query conditions to a filter document preserves their meaning. */
module OrmFilter {
  /** Values as far as the compiler looks into them: null, a range and a pattern are its own. */
  datatype Value = Null | Plain(text: string) | Range(lo: Value, hi: Value) | Pattern(like: string, foldCase: bool)

  /** What a document makes of an operator on a field: any interpretation will do. */
  type Meaning = (string, string, Value) -> bool

  // ------------------------------------------------------------ conditions

  datatype Op = Equal | IsNull | NotNull | Between | NotBetween | Like | ILike | Other(name: string)

  datatype Condition = Condition(field: string, op: Op, value: Value)

  function Lo(v: Value): Value { if v.Range? then v.lo else v }
  function Hi(v: Value): Value { if v.Range? then v.hi else v }
  function LikeText(v: Value): string { if v.Plain? then v.text else "" }

  predicate Holds(c: Condition, m: Meaning) {
    match c.op
    case Equal => m(c.field, "$eq", c.value)
    case IsNull => m(c.field, "$eq", Null)
    case NotNull => m(c.field, "$ne", Null)
    case Between => m(c.field, "$gte", Lo(c.value)) && m(c.field, "$lte", Hi(c.value))
    case NotBetween => m(c.field, "$not", Range(Lo(c.value), Hi(c.value)))
    case Like => m(c.field, "$regex", Pattern(LikeText(c.value), false))
    case ILike => m(c.field, "$regex", Pattern(LikeText(c.value), true))
    case Other(name) => m(c.field, name, c.value)
  }

  predicate AllHold(cs: seq<Condition>, m: Meaning) { forall i :: 0 <= i < |cs| ==> Holds(cs[i], m) }

  // ------------------------------------------------------------ filter documents

  /** A field's entry: a value it must equal, or a document of operators. */
  datatype Clause = Equals(value: Value) | Operators(ops: map<string, Value>)

  datatype Filter =
    | Fields(fields: map<string, Clause>, ands: seq<(string, Clause)>) // the list, if any, sits under "$and"
    | AnyOf(filters: seq<Filter>)                                      // a document with only "$or"

  ghost predicate ClauseHolds(field: string, c: Clause, m: Meaning) {
    match c
    case Equals(v) => m(field, "$eq", v)
    case Operators(ops) => forall op :: op in ops ==> m(field, op, ops[op])
  }

  /** A non-empty list under "$and" takes the place of a field of that name. */
  ghost predicate Matches(f: Filter, m: Meaning)
    decreases f
  {
    match f
    case Fields(fields, ands) =>
      && (forall k :: k in fields && (ands == [] || k != "$and") ==> ClauseHolds(k, fields[k], m))
      && (forall i :: 0 <= i < |ands| ==> ClauseHolds(ands[i].0, ands[i].1, m))
    case AnyOf(filters) => exists i :: 0 <= i < |filters| && Matches(filters[i], m)
  }

  ghost predicate NoAndField(f: Filter) { f.Fields? && "$and" !in f.fields }

  // ------------------------------------------------------------ the compiler

  /** An equality becomes the field's entry, joins its operators, or goes to the "$and" list. */
  function SetEquality(f: Filter, field: string, value: Value): Filter
    requires f.Fields?
  {
    if field !in f.fields then f.(fields := f.fields[field := Equals(value)])
    else if f.fields[field].Operators? && "$eq" !in f.fields[field].ops then
      f.(fields := f.fields[field := Operators(f.fields[field].ops["$eq" := value])])
    else f.(ands := f.ands + [(field, Equals(value))])
  }

  function SetOp(f: Filter, field: string, op: string, value: Value): Filter
    requires f.Fields?
  {
    if field !in f.fields then f.(fields := f.fields[field := Operators(map[op := value])])
    else if f.fields[field].Operators? && op !in f.fields[field].ops then
      f.(fields := f.fields[field := Operators(f.fields[field].ops[op := value])])
    else f.(ands := f.ands + [(field, Operators(map[op := value]))])
  }

  function Compile(f: Filter, c: Condition): (r: Filter)
    requires f.Fields?
    ensures r.Fields?
  {
    match c.op
    case Equal => SetEquality(f, c.field, c.value)
    case IsNull => SetEquality(f, c.field, Null)
    case NotNull => SetOp(f, c.field, "$ne", Null)
    case Between => SetOp(SetOp(f, c.field, "$gte", Lo(c.value)), c.field, "$lte", Hi(c.value))
    case NotBetween => SetOp(f, c.field, "$not", Range(Lo(c.value), Hi(c.value)))
    case Like => SetOp(f, c.field, "$regex", Pattern(LikeText(c.value), false))
    case ILike => SetOp(f, c.field, "$regex", Pattern(LikeText(c.value), true))
    case Other(name) => SetOp(f, c.field, name, c.value)
  }

  lemma FieldMeans(f: Filter, field: string, c: Clause, extra: bool, m: Meaning)
    requires NoAndField(f) && field != "$and"
    requires ClauseHolds(field, c, m) <==> (field in f.fields ==> ClauseHolds(field, f.fields[field], m)) && extra
    ensures Matches(f.(fields := f.fields[field := c]), m) <==> Matches(f, m) && extra
  {
    var g := f.(fields := f.fields[field := c]);
    hide ClauseHolds;
    if Matches(g, m) {
      assert field in g.fields;
      forall k | k in f.fields ensures ClauseHolds(k, f.fields[k], m) { assert k in g.fields; }
    }
    if Matches(f, m) && extra {
      forall k | k in g.fields ensures ClauseHolds(k, g.fields[k], m) { if k != field { assert k in f.fields; } }
    }
  }

  lemma AndMeans(f: Filter, field: string, c: Clause, m: Meaning)
    requires NoAndField(f)
    ensures Matches(f.(ands := f.ands + [(field, c)]), m) <==> Matches(f, m) && ClauseHolds(field, c, m)
  {
    var g := f.(ands := f.ands + [(field, c)]);
    hide ClauseHolds;
    assert g.ands[|f.ands|] == (field, c);
    assert forall i :: 0 <= i < |f.ands| ==> g.ands[i] == f.ands[i];
  }

  lemma OneMoreOp(field: string, ops: map<string, Value>, op: string, value: Value, m: Meaning)
    requires op !in ops
    ensures ClauseHolds(field, Operators(ops[op := value]), m) <==> ClauseHolds(field, Operators(ops), m) && m(field, op, value)
  {
    var more := ops[op := value];
    assert op in more;
    forall o | o in ops ensures o in more && more[o] == ops[o] {}
  }

  lemma OnlyOp(field: string, op: string, value: Value, m: Meaning)
    ensures ClauseHolds(field, Operators(map[op := value]), m) <==> m(field, op, value)
  {
    assert op in map[op := value];
  }

  /** Adding an equality to a filter adds exactly that equality to what it demands. */
  lemma SetEqualityMeans(f: Filter, field: string, value: Value, m: Meaning)
    requires NoAndField(f) && field != "$and"
    ensures NoAndField(SetEquality(f, field, value))
    ensures Matches(SetEquality(f, field, value), m) <==> Matches(f, m) && m(field, "$eq", value)
  {
    if field !in f.fields {
      FieldMeans(f, field, Equals(value), m(field, "$eq", value), m);
    } else if f.fields[field].Operators? && "$eq" !in f.fields[field].ops {
      OneMoreOp(field, f.fields[field].ops, "$eq", value, m);
      FieldMeans(f, field, Operators(f.fields[field].ops["$eq" := value]), m(field, "$eq", value), m);
    } else {
      AndMeans(f, field, Equals(value), m);
    }
  }

  lemma SetOpMeans(f: Filter, field: string, op: string, value: Value, m: Meaning)
    requires NoAndField(f) && field != "$and"
    ensures NoAndField(SetOp(f, field, op, value))
    ensures Matches(SetOp(f, field, op, value), m) <==> Matches(f, m) && m(field, op, value)
  {
    OnlyOp(field, op, value, m);
    if field !in f.fields {
      FieldMeans(f, field, Operators(map[op := value]), m(field, op, value), m);
    } else if f.fields[field].Operators? && op !in f.fields[field].ops {
      OneMoreOp(field, f.fields[field].ops, op, value, m);
      FieldMeans(f, field, Operators(f.fields[field].ops[op := value]), m(field, op, value), m);
    } else {
      AndMeans(f, field, Operators(map[op := value]), m);
    }
  }

  lemma CompileMeans(f: Filter, c: Condition, m: Meaning)
    requires NoAndField(f) && c.field != "$and"
    ensures NoAndField(Compile(f, c)) && (Matches(Compile(f, c), m) <==> Matches(f, m) && Holds(c, m))
  {
    hide Matches, SetEquality, SetOp;
    match c.op
    case Equal => SetEqualityMeans(f, c.field, c.value, m);
    case IsNull => SetEqualityMeans(f, c.field, Null, m);
    case NotNull => SetOpMeans(f, c.field, "$ne", Null, m);
    case Between =>
      SetOpMeans(f, c.field, "$gte", Lo(c.value), m);
      SetOpMeans(SetOp(f, c.field, "$gte", Lo(c.value)), c.field, "$lte", Hi(c.value), m);
    case NotBetween => SetOpMeans(f, c.field, "$not", Range(Lo(c.value), Hi(c.value)), m);
    case Like => SetOpMeans(f, c.field, "$regex", Pattern(LikeText(c.value), false), m);
    case ILike => SetOpMeans(f, c.field, "$regex", Pattern(LikeText(c.value), true), m);
    case Other(name) => SetOpMeans(f, c.field, name, c.value, m);
  }

  function CompileAll(cs: seq<Condition>): (r: Filter)
    ensures r.Fields?
  {
    if cs == [] then Fields(map[], []) else Compile(CompileAll(cs[..|cs| - 1]), cs[|cs| - 1])
  }

  ghost predicate FieldNamesOk(cs: seq<Condition>) { forall i :: 0 <= i < |cs| ==> cs[i].field != "$and" }

  /** The compiled filter matches exactly when all conditions hold, however often a field occurs. */
  lemma {:induction false} CompileAllMeans(cs: seq<Condition>, m: Meaning)
    requires FieldNamesOk(cs)
    ensures NoAndField(CompileAll(cs)) && (Matches(CompileAll(cs), m) <==> AllHold(cs, m))
  {
    if cs != [] {
      var before, c := cs[..|cs| - 1], cs[|cs| - 1];
      CompileAllMeans(before, m);
      hide Matches, Compile;
      CompileMeans(CompileAll(before), c, m);
      assert AllHold(cs, m) <==> AllHold(before, m) && Holds(c, m);
    }
  }

  lemma OneCondition(c: Condition, m: Meaning)
    requires c.field != "$and"
    ensures Matches(CompileAll([c]), m) <==> Holds(c, m)
  {
    CompileAllMeans([c], m);
    assert [c][0] == c;
    hide Matches, CompileAll, Holds;
    if AllHold([c], m) { assert Holds([c][0], m); }
  }

  /** What each operator asks of a document. */
  lemma OperatorMeans(f: string, a: Value, b: Value, s: string, name: string, m: Meaning)
    requires f != "$and"
    ensures Matches(CompileAll([Condition(f, Equal, a)]), m) <==> m(f, "$eq", a)
    ensures Matches(CompileAll([Condition(f, IsNull, a)]), m) <==> m(f, "$eq", Null)
    ensures Matches(CompileAll([Condition(f, NotNull, a)]), m) <==> m(f, "$ne", Null)
    ensures Matches(CompileAll([Condition(f, Between, Range(a, b))]), m) <==> m(f, "$gte", a) && m(f, "$lte", b)
    ensures Matches(CompileAll([Condition(f, NotBetween, Range(a, b))]), m) <==> m(f, "$not", Range(a, b))
    ensures Matches(CompileAll([Condition(f, Like, Plain(s))]), m) <==> m(f, "$regex", Pattern(s, false))
    ensures Matches(CompileAll([Condition(f, ILike, Plain(s))]), m) <==> m(f, "$regex", Pattern(s, true))
    ensures Matches(CompileAll([Condition(f, Other(name), a)]), m) <==> m(f, name, a)
  {
    hide Matches, CompileAll;
    OneCondition(Condition(f, Equal, a), m);
    OneCondition(Condition(f, IsNull, a), m);
    OneCondition(Condition(f, NotNull, a), m);
    OneCondition(Condition(f, Between, Range(a, b)), m);
    OneCondition(Condition(f, NotBetween, Range(a, b)), m);
    OneCondition(Condition(f, Like, Plain(s)), m);
    OneCondition(Condition(f, ILike, Plain(s)), m);
    OneCondition(Condition(f, Other(name), a), m);
  }

  /** Conditions on these fields only. */
  ghost predicate Over(cs: seq<Condition>, fields: iset<string>) { forall i :: 0 <= i < |cs| ==> cs[i].field in fields }

  /** Two equalities on a field called "$and": the second goes to the "$and" list and pushes the first out. */
  lemma AndFieldLost() returns (cs: seq<Condition>, m: Meaning)
    ensures Over(cs, iset{"$and"}) && Matches(CompileAll(cs), m) && !AllHold(cs, m)
  {
    var c1, c2 := Condition("$and", Equal, Plain("x")), Condition("$and", Equal, Plain("y"));
    cs := [c1, c2];
    m := (field: string, op: string, v: Value) => v == Plain("y");
    assert CompileAll([]) == Fields(map[], []);
    assert CompileAll([c1]) == Compile(CompileAll([c1][..0]), c1) && [c1][..0] == [];
    assert CompileAll(cs) == Compile(CompileAll([c1]), c2) by { assert cs[..1] == [c1]; }
    var f := CompileAll(cs);
    assert f.ands == [("$and", Equals(Plain("y")))] && f.fields == map["$and" := Equals(Plain("x"))];
    assert Matches(f, m);
    assert cs[0].value == Plain("x") && !Holds(cs[0], m);
  }

  /** Exactly the sets of fields without "$and" are compiled faithfully: then every list of conditions over
      them keeps its meaning under every interpretation, and otherwise some list does not. */
  lemma CompileIffNoAndField(fields: iset<string>)
    ensures "$and" !in fields <==> forall cs, m | Over(cs, fields) :: Matches(CompileAll(cs), m) <==> AllHold(cs, m)
  {
    if "$and" !in fields {
      forall cs, m | Over(cs, fields) ensures Matches(CompileAll(cs), m) <==> AllHold(cs, m) { CompileAllMeans(cs, m); }
    } else {
      hide CompileAll, Matches, AllHold;
      var cs, m := AndFieldLost();
      assert Over(cs, fields);
    }
  }

  /** The loop over the conditions. */
  method BuildConditionFilter(cs: seq<Condition>) returns (f: Filter)
    ensures f == CompileAll(cs)
  {
    f := Fields(map[], []);
    for i := 0 to |cs|
      invariant f == CompileAll(cs[..i])
    {
      assert cs[..i + 1][..i] == cs[..i];
      f := Compile(f, cs[i]);
    }
    assert cs[..|cs|] == cs;
  }

  // ------------------------------------------------------------ or-groups

  function NonEmpty(groups: seq<seq<Condition>>): seq<seq<Condition>> {
    if groups == [] then []
    else NonEmpty(groups[..|groups| - 1]) + if groups[|groups| - 1] == [] then [] else [groups[|groups| - 1]]
  }

  /** The alternatives of a query: its plain conditions, if any, and its non-empty or-groups. */
  function Alternatives(conditions: seq<Condition>, groups: seq<seq<Condition>>): seq<seq<Condition>> {
    (if conditions == [] then [] else [conditions]) + NonEmpty(groups)
  }

  /** All plain conditions hold, or all of some or-group; empty lists do not count, and with nothing else every
      document will do. */
  ghost predicate QueryHolds(conditions: seq<Condition>, groups: seq<seq<Condition>>, m: Meaning) {
    || (conditions != [] && AllHold(conditions, m))
    || (exists i :: 0 <= i < |groups| && groups[i] != [] && AllHold(groups[i], m))
    || (conditions == [] && forall i :: 0 <= i < |groups| ==> groups[i] == [])
  }

  lemma {:induction false} NonEmptyAre(groups: seq<seq<Condition>>, g: seq<Condition>)
    ensures g in NonEmpty(groups) <==> g in groups && g != []
  {
    if groups != [] {
      NonEmptyAre(groups[..|groups| - 1], g);
      assert groups == groups[..|groups| - 1] + [groups[|groups| - 1]];
    }
  }

  lemma AlternativesHold(conditions: seq<Condition>, groups: seq<seq<Condition>>, m: Meaning)
    ensures var alternatives := Alternatives(conditions, groups);
            QueryHolds(conditions, groups, m) <==>
              alternatives == [] || exists i :: 0 <= i < |alternatives| && AllHold(alternatives[i], m)
  {
    var alternatives := Alternatives(conditions, groups);
    forall g ensures g in alternatives <==> g != [] && (g == conditions || g in groups) { NonEmptyAre(groups, g); }
    hide AllHold, Alternatives;
    if i :| 0 <= i < |groups| && groups[i] != [] && AllHold(groups[i], m) { assert groups[i] in alternatives; }
    if conditions != [] && AllHold(conditions, m) { assert conditions in alternatives; }
    if alternatives == [] {
      assert conditions !in alternatives;
      forall i | 0 <= i < |groups| ensures groups[i] == [] { assert groups[i] !in alternatives; }
    } else {
      assert alternatives[0] in alternatives;
    }
    if i :| 0 <= i < |alternatives| && AllHold(alternatives[i], m) { assert alternatives[i] in alternatives; }
  }

  function CompileEach(alternatives: seq<seq<Condition>>): (r: seq<Filter>)
    ensures |r| == |alternatives| && forall i :: 0 <= i < |r| ==> r[i] == CompileAll(alternatives[i])
  {
    if alternatives == [] then []
    else CompileEach(alternatives[..|alternatives| - 1]) + [CompileAll(alternatives[|alternatives| - 1])]
  }

  /** One alternative stands alone, several go under "$or", and with none the filter matches everything. */
  function QueryFilter(conditions: seq<Condition>, groups: seq<seq<Condition>>): Filter {
    var filters := CompileEach(Alternatives(conditions, groups));
    if filters == [] then CompileAll([]) else if |filters| == 1 then filters[0] else AnyOf(filters)
  }

  ghost predicate GroupsOver(groups: seq<seq<Condition>>, fields: iset<string>) {
    forall i :: 0 <= i < |groups| ==> Over(groups[i], fields)
  }

  lemma {:induction false} NonEmptyOver(groups: seq<seq<Condition>>, fields: iset<string>)
    requires GroupsOver(groups, fields)
    ensures GroupsOver(NonEmpty(groups), fields)
  {
    if groups != [] { NonEmptyOver(groups[..|groups| - 1], fields); }
  }

  /** The built filter matches exactly the documents for which all conditions or some or-group hold. */
  lemma QueryFilterMeans(conditions: seq<Condition>, groups: seq<seq<Condition>>, fields: iset<string>, m: Meaning)
    requires "$and" !in fields && Over(conditions, fields) && GroupsOver(groups, fields)
    ensures Matches(QueryFilter(conditions, groups), m) <==> QueryHolds(conditions, groups, m)
  {
    var alternatives := Alternatives(conditions, groups);
    var filters := CompileEach(alternatives);
    NonEmptyOver(groups, fields);
    assert GroupsOver(alternatives, fields);
    forall i | 0 <= i < |alternatives| ensures Matches(filters[i], m) <==> AllHold(alternatives[i], m) {
      assert Over(alternatives[i], fields);
      CompileAllMeans(alternatives[i], m);
    }
    AlternativesHold(conditions, groups, m);
    hide CompileAll, AllHold, Alternatives, CompileEach, QueryHolds;
    if alternatives == [] {
      CompileAllMeans([], m);
      assert AllHold([], m) by { NoConditions(m); }
    }
  }

  lemma NoConditions(m: Meaning)
    ensures AllHold([], m)
  {
  }

  /** Exactly the sets of fields without "$and" are faithful for whole queries, too. */
  lemma QueryIffNoAndField(fields: iset<string>)
    ensures "$and" !in fields <==>
            forall conditions, groups, m | Over(conditions, fields) && GroupsOver(groups, fields) ::
              Matches(QueryFilter(conditions, groups), m) <==> QueryHolds(conditions, groups, m)
  {
    if "$and" !in fields {
      forall conditions, groups, m | Over(conditions, fields) && GroupsOver(groups, fields)
        ensures Matches(QueryFilter(conditions, groups), m) <==> QueryHolds(conditions, groups, m)
      {
        QueryFilterMeans(conditions, groups, fields, m);
      }
    } else {
      hide CompileAll, AllHold;
      var cs, m := AndFieldLost();
      assert Over(cs, fields);
      OneAlternative(cs, m);
      assert GroupsOver([], fields);
    }
  }

  lemma OneAlternative(cs: seq<Condition>, m: Meaning)
    requires cs != []
    ensures QueryFilter(cs, []) == CompileAll(cs) && (QueryHolds(cs, [], m) <==> AllHold(cs, m))
  {
    hide CompileAll, AllHold;
    assert Alternatives(cs, []) == [cs] && [cs][0] == cs;
    assert CompileEach([cs])[0] == CompileAll(cs);
  }

  lemma AlternativesNext(conditions: seq<Condition>, groups: seq<seq<Condition>>, i: nat)
    requires i < |groups|
    ensures var more := if groups[i] == [] then [] else [groups[i]];
            && Alternatives(conditions, groups[..i + 1]) == Alternatives(conditions, groups[..i]) + more
            && CompileEach(Alternatives(conditions, groups[..i + 1])) == CompileEach(Alternatives(conditions, groups[..i]))
               + if groups[i] == [] then [] else [CompileAll(groups[i])]
  {
    hide CompileAll;
    assert groups[..i + 1][..i] == groups[..i];
    var before := Alternatives(conditions, groups[..i]);
    assert (before + [groups[i]])[..|before|] == before;
  }

  lemma BaseOnly(conditions: seq<Condition>)
    ensures CompileEach(Alternatives(conditions, [])) == if conditions == [] then [] else [CompileAll(conditions)]
  {
    hide CompileAll;
    assert [conditions][..0] == [];
  }

  /** The loop over the or-groups. */
  method BuildFilter(conditions: seq<Condition>, groups: seq<seq<Condition>>) returns (f: Filter)
    ensures f == QueryFilter(conditions, groups)
  {
    hide CompileAll, CompileEach, Alternatives;
    var base := BuildConditionFilter(conditions);
    BaseOnly(conditions);
    if |groups| == 0 { return base; }
    var clauses: seq<Filter> := if |conditions| > 0 then [base] else [];
    assert groups[..0] == [];
    for i := 0 to |groups|
      invariant clauses == CompileEach(Alternatives(conditions, groups[..i]))
    {
      AlternativesNext(conditions, groups, i);
      if |groups[i]| > 0 {
        var g := BuildConditionFilter(groups[i]);
        clauses := clauses + [g];
      }
    }
    assert groups[..|groups|] == groups;
    if |clauses| == 0 { NothingLeft(conditions, groups); return base; }
    f := if |clauses| == 1 then clauses[0] else AnyOf(clauses);
  }

  lemma NothingLeft(conditions: seq<Condition>, groups: seq<seq<Condition>>)
    ensures CompileEach(Alternatives(conditions, groups)) == [] ==> conditions == []
  {
  }
}
