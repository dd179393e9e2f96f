/**
 The tables a drift check compares: the recorded tables, filtered by an include or an exclude
 pattern list that is first closed over the recorded, possibly cyclic, partition hierarchy.
 */
module DriftScope {
  import opened Wrappers
  import opened Sequences
  import opened TableList

  datatype ObjectRef = ObjectRef(schema: string, name: string)

  datatype TableInfo = TableInfo(objectRef: ObjectRef, partitionChildren: seq<ObjectRef>)

  datatype SnapshotContent = SnapshotContent(tables: seq<TableInfo>)

  /** A snapshot that failed to load has no content. */
  type Contents = seq<Option<SnapshotContent>>

  type Hierarchy = map<ObjectRef, seq<ObjectRef>>

  ghost predicate Records(contents: Contents, r: ObjectRef) {
    exists c <- contents :: c.Some? && exists t <- c.value.tables :: t.objectRef == r
  }

  ghost predicate RecordsChild(contents: Contents, r: ObjectRef, child: ObjectRef) {
    exists c <- contents :: c.Some? && exists t <- c.value.tables :: t.objectRef == r && child in t.partitionChildren
  }

  // ---------- what the snapshots record ----------

  /** The names of each schema, without repeats, as a map of lists. */
  ghost predicate Universe(universe: map<string, seq<string>>, recorded: iset<ObjectRef>) {
    && (forall schema <- universe :: NoDup(universe[schema]))
    && (forall schema, name :: (schema in universe && name in universe[schema]) <==>
          ObjectRef(schema, name) in recorded)
  }

  method AddName(universe: map<string, seq<string>>, r: ObjectRef, ghost recorded: iset<ObjectRef>)
    returns (more: map<string, seq<string>>)
    requires Universe(universe, recorded)
    ensures Universe(more, recorded + iset{r})
  {
    var names := if r.schema in universe then universe[r.schema] else [];
    if r.name in names {
      assert recorded + iset{r} == recorded;
      return universe;
    }
    NoDupAppend(names, [r.name]);
    more := universe[r.schema := names + [r.name]];
  }

  method DriftTableUniverse(contents: Contents) returns (universe: map<string, seq<string>>)
    ensures Universe(universe, iset r | Records(contents, r))
  {
    universe := map[];
    ghost var recorded: iset<ObjectRef> := iset{};
    for i := 0 to |contents|
      invariant Universe(universe, recorded)
      invariant forall r :: r in recorded <==> Records(contents[..i], r)
    {
      assert contents[..i + 1] == contents[..i] + [contents[i]];
      if contents[i].Some? {
        var tables := contents[i].value.tables;
        ghost var before := recorded;
        for j := 0 to |tables|
          invariant Universe(universe, recorded)
          invariant forall r :: r in recorded <==> r in before || exists t <- tables[..j] :: t.objectRef == r
        {
          assert tables[..j + 1] == tables[..j] + [tables[j]];
          universe := AddName(universe, tables[j].objectRef, recorded);
          recorded := recorded + iset{tables[j].objectRef};
        }
        assert tables[..|tables|] == tables;
      }
    }
    assert contents[..|contents|] == contents;
    assert recorded == iset r | Records(contents, r);
  }

  function Kids(h: Hierarchy, r: ObjectRef): seq<ObjectRef> {
    if r in h then h[r] else []
  }

  ghost predicate HasEdges(h: Hierarchy, edges: iset<(ObjectRef, ObjectRef)>) {
    && (forall r :: NoDup(Kids(h, r)))
    && (forall r, child :: child in Kids(h, r) <==> (r, child) in edges)
  }

  method AddChild(h: Hierarchy, r: ObjectRef, child: ObjectRef, ghost edges: iset<(ObjectRef, ObjectRef)>)
    returns (more: Hierarchy)
    requires HasEdges(h, edges)
    ensures HasEdges(more, edges + iset{(r, child)})
  {
    if child in Kids(h, r) {
      assert edges + iset{(r, child)} == edges;
      return h;
    }
    NoDupAppend(Kids(h, r), [child]);
    more := h[r := Kids(h, r) + [child]];
    assert Kids(more, r) == Kids(h, r) + [child] && forall q :: q != r ==> Kids(more, q) == Kids(h, q);
  }

  method AddChildren(h: Hierarchy, t: TableInfo, ghost edges: iset<(ObjectRef, ObjectRef)>) returns (more: Hierarchy)
    requires HasEdges(h, edges)
    ensures HasEdges(more, edges + iset child | child in t.partitionChildren :: (t.objectRef, child))
  {
    more := h;
    ghost var grown := edges;
    for k := 0 to |t.partitionChildren|
      invariant HasEdges(more, grown)
      invariant forall e :: e in grown <==> e in edges || (e.0 == t.objectRef && e.1 in t.partitionChildren[..k])
    {
      assert t.partitionChildren[..k + 1] == t.partitionChildren[..k] + [t.partitionChildren[k]];
      more := AddChild(more, t.objectRef, t.partitionChildren[k], grown);
      grown := grown + iset{(t.objectRef, t.partitionChildren[k])};
    }
    assert t.partitionChildren[..|t.partitionChildren|] == t.partitionChildren;
    assert grown == edges + iset child | child in t.partitionChildren :: (t.objectRef, child);
  }

  ghost function RecordedEdges(contents: Contents): iset<(ObjectRef, ObjectRef)> {
    iset r, child | RecordsChild(contents, r, child) :: (r, child)
  }

  /** The union of the children lists every content records, without repeats. */
  method DriftPartitionChildren(contents: Contents) returns (h: Hierarchy)
    ensures HasEdges(h, RecordedEdges(contents))
  {
    h := map[];
    ghost var edges: iset<(ObjectRef, ObjectRef)> := iset{};
    for i := 0 to |contents|
      invariant HasEdges(h, edges)
      invariant forall r, child :: (r, child) in edges <==> RecordsChild(contents[..i], r, child)
    {
      assert contents[..i + 1] == contents[..i] + [contents[i]];
      if contents[i].Some? {
        var tables := contents[i].value.tables;
        ghost var before := edges;
        for j := 0 to |tables|
          invariant HasEdges(h, edges)
          invariant forall r, child :: (r, child) in edges <==>
                      || (r, child) in before
                      || exists t <- tables[..j] :: t.objectRef == r && child in t.partitionChildren
        {
          assert tables[..j + 1] == tables[..j] + [tables[j]];
          h := AddChildren(h, tables[j], edges);
          edges := edges + iset child | child in tables[j].partitionChildren :: (tables[j].objectRef, child);
        }
        assert tables[..|tables|] == tables;
      }
    }
    assert contents[..|contents|] == contents;
    forall e
      ensures e in edges <==> e in RecordedEdges(contents)
    {
      assert e == (e.0, e.1);
    }
  }

  // ---------- closing a list over the hierarchy ----------

  /** A walk down the hierarchy. */
  ghost predicate Path(h: Hierarchy, path: seq<ObjectRef>) {
    path != [] && forall i :: 0 <= i < |path| - 1 ==> path[i + 1] in Kids(h, path[i])
  }

  ghost predicate PathTo(h: Hierarchy, path: seq<ObjectRef>, refs: seq<ObjectRef>, x: ObjectRef) {
    Path(h, path) && path[0] in refs && path[|path| - 1] == x
  }

  /** x is one of refs or a partition descendant of one, at any level. */
  ghost predicate Reachable(h: Hierarchy, refs: seq<ObjectRef>, x: ObjectRef) {
    exists path :: PathTo(h, path, refs, x)
  }

  lemma ReachableStart(h: Hierarchy, refs: seq<ObjectRef>, x: ObjectRef)
    requires x in refs
    ensures Reachable(h, refs, x)
  {
    assert PathTo(h, [x], refs, x);
  }

  lemma ReachableStep(h: Hierarchy, refs: seq<ObjectRef>, x: ObjectRef, y: ObjectRef)
    requires Reachable(h, refs, x) && y in Kids(h, x)
    ensures Reachable(h, refs, y)
  {
    var path :| PathTo(h, path, refs, x);
    assert PathTo(h, path + [y], refs, y);
  }

  /** The children of x are in s. */
  ghost predicate KidsIn(h: Hierarchy, x: ObjectRef, s: set<ObjectRef>) {
    forall c <- Kids(h, x) :: c in s
  }

  /** Every element of `part` has its children in `whole`. */
  ghost predicate ClosedUnder(h: Hierarchy, part: set<ObjectRef>, whole: set<ObjectRef>) {
    forall x {:trigger KidsIn(h, x, whole)} :: x in part ==> KidsIn(h, x, whole)
  }

  ghost predicate AllReachable(h: Hierarchy, refs: seq<ObjectRef>, s: set<ObjectRef>) {
    forall x <- s :: Reachable(h, refs, x)
  }

  lemma KidsInMore(h: Hierarchy, part: set<ObjectRef>, s: set<ObjectRef>, t: set<ObjectRef>)
    requires ClosedUnder(h, part, s) && s <= t
    ensures ClosedUnder(h, part, t)
  {
    forall x | x in part
      ensures KidsIn(h, x, t)
    {
      assert KidsIn(h, x, s);
    }
  }

  lemma ClosedUnion(h: Hierarchy, a: set<ObjectRef>, b: set<ObjectRef>, s: set<ObjectRef>, t: set<ObjectRef>)
    requires ClosedUnder(h, a, s) && s <= t && ClosedUnder(h, b, t)
    ensures ClosedUnder(h, a + b, t)
  {
    KidsInMore(h, a, s, t);
  }

  /** A set that holds the refs and, with each table, its children, holds everything reachable. */
  lemma {:induction false} ClosedHoldsReachable(h: Hierarchy, refs: seq<ObjectRef>, s: set<ObjectRef>,
                                                path: seq<ObjectRef>)
    requires (forall r <- refs :: r in s) && ClosedUnder(h, s, s)
    requires Path(h, path) && path[0] in refs
    ensures path[|path| - 1] in s
    decreases |path|
  {
    if |path| > 1 {
      var most := path[..|path| - 1];
      ClosedHoldsReachable(h, refs, s, most);
      assert KidsIn(h, most[|most| - 1], s);
    }
  }

  /** The two variables the recursive visit shares: the output so far and the refs in it. */
  class Expansion {
    var out: seq<ObjectRef>
    var seen: set<ObjectRef>

    ghost predicate Valid()
      reads this
    {
      NoDup(out) && forall x :: x in out <==> x in seen
    }

    constructor ()
      ensures Valid() && seen == {} && out == []
    {
      out, seen := [], {};
    }

    /**
     Adds ref and what can be reached from it, once each: whatever is new is reachable, and
     has its children in. `all` is any set closed under the hierarchy that bounds the visit.
     */
    method Visit(h: Hierarchy, r: ObjectRef, ghost refs: seq<ObjectRef>, ghost all: set<ObjectRef>)
      requires Valid() && Reachable(h, refs, r)
      requires r in all && ClosedUnder(h, all, all)
      modifies this
      ensures Valid() && old(out) <= out && old(seen) <= seen && r in seen && seen <= old(seen) + all
      ensures AllReachable(h, refs, seen - old(seen))
      ensures ClosedUnder(h, seen - old(seen), seen)
      decreases all - seen
    {
      if r in seen {
        return;
      }
      NoDupAppend(out, [r]);
      seen := seen + {r};
      out := out + [r];
      var children := Kids(h, r);
      assert KidsIn(h, r, all);
      ghost var start := seen;
      for i := 0 to |children|
        invariant Valid() && old(out) <= out && start <= seen && seen <= old(seen) + all
        invariant AllReachable(h, refs, seen - start)
        invariant ClosedUnder(h, seen - start, seen)
        invariant forall c <- children[..i] :: c in seen
      {
        assert children[i] in Kids(h, r) && children[..i + 1] == children[..i] + [children[i]];
        ReachableStep(h, refs, r, children[i]);
        ghost var before := seen;
        Visit(h, children[i], refs, all);
        ClosedUnion(h, before - start, seen - before, before, seen);
        assert (before - start) + (seen - before) == seen - start;
      }
      assert children[..|children|] == children && KidsIn(h, r, seen);
      assert seen - old(seen) == (seen - start) + {r};
    }
  }

  /** Terminates on any hierarchy, cycles included, with exactly what is reachable, each once. */
  method ExpandDriftPartitions(refs: seq<ObjectRef>, h: Hierarchy) returns (out: seq<ObjectRef>)
    ensures NoDup(out)
    ensures forall x :: x in out <==> Reachable(h, refs, x)
  {
    var e := new Expansion();
    ghost var all := (set x | x in refs) + (set r, c | r in h && c in h[r] :: c);
    KidsAreIn(h, all);
    for i := 0 to |refs|
      invariant e.Valid()
      invariant AllReachable(h, refs, e.seen)
      invariant ClosedUnder(h, e.seen, e.seen)
      invariant forall r <- refs[..i] :: r in e.seen
    {
      assert refs[..i + 1] == refs[..i] + [refs[i]];
      ReachableStart(h, refs, refs[i]);
      ghost var before := e.seen;
      e.Visit(h, refs[i], refs, all);
      ClosedUnion(h, before, e.seen - before, before, e.seen);
      assert before + (e.seen - before) == e.seen;
    }
    assert refs[..|refs|] == refs;
    out := e.out;
    ghost var seen := e.seen;
    forall x | Reachable(h, refs, x)
      ensures x in seen
    {
      var path :| PathTo(h, path, refs, x);
      ClosedHoldsReachable(h, refs, seen, path);
    }
  }

  /** A set that holds every child of the hierarchy is closed. */
  lemma KidsAreIn(h: Hierarchy, all: set<ObjectRef>)
    requires (set r, c | r in h && c in h[r] :: c) <= all
    ensures ClosedUnder(h, all, all)
  {
    forall x | x in all
      ensures KidsIn(h, x, all)
    {
      forall c | c in Kids(h, x)
        ensures c in all
      {
        assert c in h[x];
      }
    }
  }

  // ---------- the table dimension of the scope ----------

  /** Every recorded table, once: the list the patterns are matched against. */
  method RegisteredTables(universe: map<string, seq<string>>, ghost recorded: iset<ObjectRef>)
    returns (refs: seq<ObjectRef>)
    requires Universe(universe, recorded)
    ensures NoDup(refs)
    ensures forall r :: r in refs <==> r in recorded
  {
    refs := [];
    var todo := universe;
    while todo != map[]
      invariant todo.Keys <= universe.Keys && forall k <- todo :: todo[k] == universe[k]
      invariant NoDup(refs)
      invariant forall r :: r in refs <==> r in recorded && r.schema !in todo
      decreases |todo.Keys|
    {
      ghost var some := SomeKey(todo);
      var schema :| schema in todo;
      var names := todo[schema];
      ghost var before := refs;
      for j := 0 to |names|
        invariant NoDup(refs)
        invariant forall r :: r in refs <==> r in before || (r.schema == schema && r.name in names[..j])
      {
        assert names[..j + 1] == names[..j] + [names[j]];
        assert ObjectRef(schema, names[j]) !in refs;
        NoDupAppend(refs, [ObjectRef(schema, names[j])]);
        refs := refs + [ObjectRef(schema, names[j])];
      }
      assert names[..|names|] == names;
      todo := todo - {schema};
    }
  }

  method ComplementDriftTableRefs(universe: seq<ObjectRef>, exclude: seq<ObjectRef>) returns (out: seq<ObjectRef>)
    ensures out == Difference(universe, exclude)
  {
    var excludeSet := set r | r in exclude;
    out := [];
    for i := 0 to |universe|
      invariant out == Difference(universe[..i], exclude)
    {
      assert universe[..i + 1] == universe[..i] + [universe[i]];
      DifferenceSnoc(universe[..i], universe[i], exclude);
      if universe[i] !in excludeSet {
        out := out + [universe[i]];
      }
    }
    assert universe[..|universe|] == universe;
  }

  datatype ScopeError = NotQualified(pattern: string) | UnknownTables(patterns: seq<string>) | NothingLeft

  datatype Filters = Filters(tableList: Option<seq<string>>, excludeTableList: Option<seq<string>>)

  predicate Qualified(pattern: string) { '.' in pattern }

  method RequireDriftTableListQualified(patterns: seq<string>, hasDefaultSchema: bool) returns (r: Option<string>)
    ensures r.None? <==> hasDefaultSchema || forall p <- patterns :: Qualified(p)
    ensures r.Some? ==> r.value in patterns && !Qualified(r.value)
  {
    if hasDefaultSchema {
      return None;
    }
    for i := 0 to |patterns|
      invariant forall p <- patterns[..i] :: Qualified(p)
    {
      assert patterns[..i + 1] == patterns[..i] + [patterns[i]];
      if '.' !in patterns[i] {
        assert patterns[i] in patterns && !Qualified(patterns[i]);
        return Some(patterns[i]);
      }
    }
    assert patterns[..|patterns|] == patterns;
    return None;
  }

  /** A recorded table that some pattern selects. */
  ghost predicate Matched(contents: Contents, matches: (string, ObjectRef) -> bool, patterns: seq<string>,
                          r: ObjectRef) {
    Records(contents, r) && Selected(matches, patterns, r)
  }

  ghost predicate RecordedPath(contents: Contents, path: seq<ObjectRef>) {
    path != [] && forall i :: 0 <= i < |path| - 1 ==> RecordsChild(contents, path[i], path[i + 1])
  }

  /** Selected by a pattern, or a recorded partition descendant of a table that is. */
  ghost predicate Covered(contents: Contents, matches: (string, ObjectRef) -> bool, patterns: seq<string>,
                          x: ObjectRef) {
    exists path :: RecordedPath(contents, path) && Matched(contents, matches, patterns, path[0]) &&
          path[|path| - 1] == x
  }

  /** Whether the patterns can be resolved at all. */
  ghost predicate Resolves(contents: Contents, matches: (string, ObjectRef) -> bool, hasDefaultSchema: bool,
                           patterns: seq<string>) {
    && (hasDefaultSchema || forall p <- patterns :: Qualified(p))
    && forall p <- patterns :: exists r :: Records(contents, r) && matches(p, r)
  }

  /** What the scope keeps: the meaning of the filters, in terms of the snapshots alone. */
  ghost predicate Keeps(contents: Contents, matches: (string, ObjectRef) -> bool, filters: Filters, x: ObjectRef) {
    match filters
    case Filters(Some(patterns), _) => Covered(contents, matches, patterns, x)
    case Filters(None, Some(patterns)) => Records(contents, x) && !Covered(contents, matches, patterns, x)
    case Filters(None, None) => Records(contents, x)
  }

  /** The recorded tables are split between this scope and the one that includes the same patterns. */
  ghost predicate Complements(contents: Contents, matches: (string, ObjectRef) -> bool, patterns: seq<string>,
                              scope: seq<ObjectRef>) {
    && (forall x <- scope :: Records(contents, x))
    && (forall x {:trigger x in scope} :: Records(contents, x) ==>
          (x in scope <==> !Keeps(contents, matches, Filters(Some(patterns), None), x)))
  }

  /** No table of the scope descends from a recorded table outside it. */
  ghost predicate LeavesPartitionsOut(contents: Contents, scope: seq<ObjectRef>) {
    forall path :: RecordedPath(contents, path) && Records(contents, path[0]) && path[0] !in scope ==>
          path[|path| - 1] !in scope
  }

  /** Every table of the scope has its recorded partitions in it. */
  ghost predicate BringsPartitions(contents: Contents, scope: seq<ObjectRef>) {
    forall x, child {:trigger RecordsChild(contents, x, child)} :: x in scope && RecordsChild(contents, x, child) ==>
          child in scope
  }

  /** The tables compared; `contents` lists the stored snapshots and then the live capture. */
  method ResolveDriftTables(contents: Contents, filters: Filters, matches: (string, ObjectRef) -> bool,
                            hasDefaultSchema: bool)
    returns (r: Result<seq<ObjectRef>, ScopeError>)
    ensures r.Success? ==> NoDup(r.value) && forall x :: x in r.value <==> Keeps(contents, matches, filters, x)
    ensures r.Success? && filters.tableList.Some? ==> BringsPartitions(contents, r.value)
    ensures r.Success? && filters.tableList.None? && filters.excludeTableList.Some? ==>
              && Complements(contents, matches, filters.excludeTableList.value, r.value)
              && LeavesPartitionsOut(contents, r.value)
    ensures r.Failure? ==> filters.tableList.Some? || filters.excludeTableList.Some?
    ensures filters.tableList.Some? ==>
              (r.Success? <==> Resolves(contents, matches, hasDefaultSchema, filters.tableList.value))
    ensures filters.tableList.None? && filters.excludeTableList.Some? ==>
              (r.Success? <==>
               && Resolves(contents, matches, hasDefaultSchema, filters.excludeTableList.value)
               && exists x :: Keeps(contents, matches, filters, x))
  {
    var universe := DriftTableUniverse(contents);
    ghost var recorded := iset r | Records(contents, r);
    var allRefs := RegisteredTables(universe, recorded);
    var h := DriftPartitionChildren(contents);
    if filters.tableList.Some? {
      r := ResolvePatterns(contents, filters.tableList.value, matches, hasDefaultSchema, allRefs, h);
      if r.Success? {
        KeptIsClosed(contents, matches, filters.tableList.value, r.value);
      }
    } else if filters.excludeTableList.Some? {
      r := ResolvePatterns(contents, filters.excludeTableList.value, matches, hasDefaultSchema, allRefs, h);
      if r.Success? {
        var kept := ComplementDriftTableRefs(allRefs, r.value);
        if |kept| == 0 {
          return Failure(NothingLeft);
        }
        assert kept[0] in kept;
        ExcludedIsClosed(contents, matches, filters.excludeTableList.value, kept);
        return Success(kept);
      }
    } else {
      return Success(allRefs);
    }
  }

  /** The tables the patterns select, closed over the hierarchy. */
  method ResolvePatterns(contents: Contents, patterns: seq<string>, matches: (string, ObjectRef) -> bool,
                         hasDefaultSchema: bool,
                         allRefs: seq<ObjectRef>, h: Hierarchy)
    returns (r: Result<seq<ObjectRef>, ScopeError>)
    requires forall x :: x in allRefs <==> Records(contents, x)
    requires HasEdges(h, RecordedEdges(contents))
    ensures r.Success? ==> NoDup(r.value) && forall x :: x in r.value <==> Covered(contents, matches, patterns, x)
    ensures r.Success? <==> Resolves(contents, matches, hasDefaultSchema, patterns)
  {
    EachSelects(contents, patterns, matches, allRefs);
    var unqualified := RequireDriftTableListQualified(patterns, hasDefaultSchema);
    if unqualified.Some? {
      return Failure(NotQualified(unqualified.value));
    }
    var selected := ExtractTableList(allRefs, patterns, matches);
    if selected.Failure? {
      return Failure(UnknownTables(selected.error));
    }
    var out := ExpandDriftPartitions(selected.value, h);
    ReachableIsCovered(contents, patterns, matches, h, allRefs, selected.value, out);
    return Success(out);
  }

  lemma EachSelects(contents: Contents, patterns: seq<string>, matches: (string, ObjectRef) -> bool,
                    allRefs: seq<ObjectRef>)
    requires forall x :: x in allRefs <==> Records(contents, x)
    ensures (forall p <- patterns :: exists t <- allRefs :: matches(p, t))
            <==> (forall p <- patterns :: exists r :: Records(contents, r) && matches(p, r))
  {
  }

  lemma ReachableIsCovered(contents: Contents, patterns: seq<string>, matches: (string, ObjectRef) -> bool,
                           h: Hierarchy, allRefs: seq<ObjectRef>, selected: seq<ObjectRef>, out: seq<ObjectRef>)
    requires HasEdges(h, RecordedEdges(contents))
    requires forall x :: x in allRefs <==> Records(contents, x)
    requires forall r :: r in selected <==> r in allRefs && Selected(matches, patterns, r)
    requires forall x :: x in out <==> Reachable(h, selected, x)
    ensures forall x :: x in out <==> Covered(contents, matches, patterns, x)
  {
    forall path
      ensures Path(h, path) <==> RecordedPath(contents, path)
    {
      SamePaths(contents, h, path);
    }
    forall x
      ensures Reachable(h, selected, x) <==> Covered(contents, matches, patterns, x)
    {
      if path :| PathTo(h, path, selected, x) {
        assert RecordedPath(contents, path);
      }
      if Covered(contents, matches, patterns, x) {
        var path :| && RecordedPath(contents, path) && Matched(contents, matches, patterns, path[0])
                    && path[|path| - 1] == x;
        assert PathTo(h, path, selected, x);
      }
    }
  }

  lemma SamePaths(contents: Contents, h: Hierarchy, path: seq<ObjectRef>)
    requires HasEdges(h, RecordedEdges(contents))
    ensures Path(h, path) <==> RecordedPath(contents, path)
  {
    forall i | 0 <= i < |path| - 1
      ensures path[i + 1] in Kids(h, path[i]) <==> RecordsChild(contents, path[i], path[i + 1])
    {
      assert path[i + 1] in Kids(h, path[i]) <==> (path[i], path[i + 1]) in RecordedEdges(contents);
    }
  }

  lemma ExcludedIsClosed(contents: Contents, matches: (string, ObjectRef) -> bool, patterns: seq<string>,
                         scope: seq<ObjectRef>)
    requires forall x :: x in scope <==> Keeps(contents, matches, Filters(None, Some(patterns)), x)
    ensures LeavesPartitionsOut(contents, scope)
  {
    forall path | RecordedPath(contents, path) && Records(contents, path[0]) && path[0] !in scope
      ensures path[|path| - 1] !in scope
    {
      KeptDoesNotDescendFromExcluded(contents, matches, patterns, path);
    }
  }

  lemma KeptIsClosed(contents: Contents, matches: (string, ObjectRef) -> bool, patterns: seq<string>,
                     scope: seq<ObjectRef>)
    requires forall x :: x in scope <==> Keeps(contents, matches, Filters(Some(patterns), None), x)
    ensures BringsPartitions(contents, scope)
  {
    forall x, child | x in scope && RecordsChild(contents, x, child)
      ensures child in scope
    {
      KeptBringsDescendants(contents, matches, patterns, x, child);
    }
  }

  /** No table an exclude list keeps descends from one it excludes. */
  lemma KeptDoesNotDescendFromExcluded(contents: Contents, matches: (string, ObjectRef) -> bool,
                                       patterns: seq<string>, path: seq<ObjectRef>)
    requires RecordedPath(contents, path) && Records(contents, path[0])
    requires !Keeps(contents, matches, Filters(None, Some(patterns)), path[0])
    ensures !Keeps(contents, matches, Filters(None, Some(patterns)), path[|path| - 1])
  {
    var lead :| RecordedPath(contents, lead) && Matched(contents, matches, patterns, lead[0]) &&
          lead[|lead| - 1] == path[0];
    var whole := lead + path[1..];
    assert RecordedPath(contents, whole) by {
      forall i | 0 <= i < |whole| - 1
        ensures RecordsChild(contents, whole[i], whole[i + 1])
      {
        if i >= |lead| - 1 {
          assert whole[i] == path[i - (|lead| - 1)] && whole[i + 1] == path[i + 1 - (|lead| - 1)];
        }
      }
    }
    assert whole[0] == lead[0] && whole[|whole| - 1] == path[|path| - 1];
  }

  /** A table an include list keeps brings all its recorded partitions with it. */
  lemma KeptBringsDescendants(contents: Contents, matches: (string, ObjectRef) -> bool, patterns: seq<string>,
                              x: ObjectRef, child: ObjectRef)
    requires Keeps(contents, matches, Filters(Some(patterns), None), x) && RecordsChild(contents, x, child)
    ensures Keeps(contents, matches, Filters(Some(patterns), None), child)
  {
    var path :| RecordedPath(contents, path) && Matched(contents, matches, patterns, path[0]) && path[|path| - 1] == x;
    assert RecordedPath(contents, path + [child]);
    assert (path + [child])[0] == path[0] && (path + [child])[|path|] == child;
  }
}
