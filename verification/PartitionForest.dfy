/**
 Normalisation of the export table list on a database with declarative partitioning:
 which leaves, normal tables and roots are exported, and which leaf is renamed to which root.
 */
module PartitionForest {
  import opened Wrappers
  import opened Sequences
  import opened TableList

  /**
   The partition hierarchy of the catalog: the children of each table, its parent, and
   its distance from its root. `level` has every table of the database as a key.
   */
  datatype Forest = Forest(children: map<Table, seq<Table>>, parent: map<Table, Table>, level: map<Table, nat>,
        levels: nat) {

    function Children(t: Table): seq<Table> {
      if t in children then children[t] else []
    }

    predicate IsRoot(t: Table) { t !in parent }

    /** Neither partitioned nor further divided: a leaf partition or a normal table. */
    predicate IsLeaf(t: Table) { Children(t) == [] }

    ghost predicate Valid() {
      && (forall t {:trigger t in children} :: t in children ==> t in level && NoDup(children[t]))
      && (forall c {:trigger c in parent} :: c in parent ==>
            c in level && parent[c] in level && level[c] == level[parent[c]] + 1)
      && (forall t {:trigger t in level} :: t in level ==> level[t] <= levels)
      && (forall t, c {:trigger c in Children(t)} :: c in Children(t) <==> c in parent && parent[c] == t)
    }

    /** The top of the hierarchy a table belongs to. */
    ghost function Root(t: Table): (r: Table)
      requires Valid() && t in level
      ensures r in level && IsRoot(r) && Under(t, r)
      decreases level[t]
    {
      if IsRoot(t) then t else Root(parent[t])
    }

    /** Strictly below: some number of parent steps lead from t to a. */
    ghost predicate Descends(t: Table, a: Table)
      requires Valid()
      decreases if t in level then level[t] else 0
    {
      t in parent && (parent[t] == a || Descends(parent[t], a))
    }

    ghost predicate Under(t: Table, a: Table)
      requires Valid()
      decreases if t in level then level[t] else 0, 1
    {
      t == a || Descends(t, a)
    }
  }

  // ---------- the shape of a forest ----------

  lemma {:induction false} DescendsIsLower(f: Forest, t: Table, a: Table)
    requires f.Valid() && f.Descends(t, a)
    ensures a in f.level && f.level[a] < f.level[t]
    ensures a in f.children
    decreases f.level[t]
  {
    assert t in f.Children(f.parent[t]);
    if f.parent[t] != a {
      DescendsIsLower(f, f.parent[t], a);
    }
  }

  lemma {:induction false} DescendsFromChild(f: Forest, t: Table, a: Table) returns (c: Table)
    requires f.Valid() && f.Descends(t, a)
    ensures c in f.Children(a) && f.Under(t, c)
    decreases f.level[t]
  {
    assert t in f.Children(f.parent[t]);
    if f.parent[t] == a {
      c := t;
    } else {
      c := DescendsFromChild(f, f.parent[t], a);
    }
  }

  lemma {:induction false} ChildDescends(f: Forest, t: Table, c: Table, a: Table)
    requires f.Valid() && c in f.Children(a) && f.Under(t, c)
    ensures f.Descends(t, a)
    decreases if t in f.level then f.level[t] else 0
  {
    if t != c && f.parent[t] != c {
      ChildDescends(f, f.parent[t], c, a);
    }
  }

  lemma {:induction false} SiblingsAreApart(f: Forest, t: Table, a: Table, c: Table, d: Table)
    requires f.Valid() && c in f.Children(a) && d in f.Children(a) && f.Under(t, c) && f.Under(t, d)
    ensures c == d
    decreases if t in f.level then f.level[t] else 0
  {
    if t != c && t != d {
      SiblingsAreApart(f, f.parent[t], a, c, d);
    } else if t == c && t != d {
      if f.parent[t] != d {
        DescendsIsLower(f, f.parent[t], d);
      }
    } else if t == d && t != c {
      if f.parent[t] != c {
        DescendsIsLower(f, f.parent[t], c);
      }
    }
  }

  lemma {:induction false} RootIsShared(f: Forest, t: Table, a: Table)
    requires f.Valid() && t in f.level && f.Under(t, a)
    ensures a in f.level && f.Root(t) == f.Root(a)
    decreases f.level[t]
  {
    if t != a {
      RootIsShared(f, f.parent[t], a);
    }
  }

  /** A table has one root only: the only root it lies under. */
  lemma RootIsUnique(f: Forest, t: Table, r: Table)
    requires f.Valid() && t in f.level && f.IsRoot(r) && f.Under(t, r)
    ensures r == f.Root(t)
  {
    RootIsShared(f, t, r);
  }

  // ---------- walking the catalog ----------

  method GetRootTableOfPartition(f: Forest, t: Table) returns (r: Table)
    requires f.Valid() && t in f.level
    ensures r in f.level && f.IsRoot(r) && f.Under(t, r)
    ensures r == f.Root(t)
    decreases f.level[t]
  {
    if t !in f.parent {
      return t;
    }
    r := GetRootTableOfPartition(f, f.parent[t]);
    RootIsShared(f, t, f.parent[t]);
  }

  ghost predicate LeafBelow(f: Forest, x: Table, t: Table)
    requires f.Valid()
  {
    f.IsLeaf(x) && f.Descends(x, t)
  }

  ghost predicate LeafUnderOneOf(f: Forest, x: Table, tops: seq<Table>)
    requires f.Valid()
  {
    f.IsLeaf(x) && exists c <- tops :: f.Under(x, c)
  }

  /** Exactly the leaf descendants, each once; none if and only if the table is not partitioned. */
  method GetAllLeafPartitions(f: Forest, t: Table) returns (leaves: seq<Table>)
    requires f.Valid() && t in f.level
    ensures NoDup(leaves)
    ensures forall x :: x in leaves <==> LeafBelow(f, x, t)
    ensures leaves == [] <==> f.IsLeaf(t)
    decreases f.levels - f.level[t]
  {
    leaves := [];
    var children := f.Children(t);
    for i := 0 to |children|
      invariant NoDup(leaves)
      invariant forall x :: x in leaves <==> LeafUnderOneOf(f, x, children[..i])
      invariant leaves == [] <==> i == 0
    {
      var child := children[i];
      assert child in f.Children(t);
      var below := GetAllLeafPartitions(f, child);
      var added := if below == [] then [child] else below;
      forall x
        ensures x in added <==> f.IsLeaf(x) && f.Under(x, child)
      {
        LeavesUnder(f, x, child, below);
      }
      forall x | x in added
        ensures x !in leaves
      {
        NotUnderEarlier(f, x, t, i);
      }
      NoDupAppend(leaves, added);
      leaves := leaves + added;
      assert children[..i + 1] == children[..i] + [child];
    }
    assert children[..|children|] == children;
    forall x
      ensures LeafBelow(f, x, t) <==> LeafUnderOneOf(f, x, children)
    {
      BelowIsUnderChild(f, x, t);
    }
  }

  lemma LeavesUnder(f: Forest, x: Table, child: Table, below: seq<Table>)
    requires f.Valid() && (forall y :: y in below <==> LeafBelow(f, y, child))
    requires below == [] <==> f.IsLeaf(child)
    ensures x in (if below == [] then [child] else below) <==> f.IsLeaf(x) && f.Under(x, child)
  {
    if below == [] && f.Descends(x, child) {
      var c := DescendsFromChild(f, x, child);
      assert false;
    }
  }

  lemma NotUnderEarlier(f: Forest, x: Table, t: Table, i: nat)
    requires f.Valid() && i < |f.Children(t)| && f.Under(x, f.Children(t)[i])
    ensures !LeafUnderOneOf(f, x, f.Children(t)[..i])
  {
    var children := f.Children(t);
    assert t in f.children;
    forall c | c in children[..i]
      ensures !f.Under(x, c)
    {
      assert c in children && c != children[i];
      if f.Under(x, c) {
        SiblingsAreApart(f, x, t, c, children[i]);
      }
    }
  }

  lemma BelowIsUnderChild(f: Forest, x: Table, t: Table)
    requires f.Valid()
    ensures LeafBelow(f, x, t) <==> LeafUnderOneOf(f, x, f.Children(t))
  {
    if f.Descends(x, t) {
      var c := DescendsFromChild(f, x, t);
    }
    if c :| c in f.Children(t) && f.Under(x, c) {
      ChildDescends(f, x, c, t);
    }
  }

  // ---------- normalising a list ----------

  /** The leaves and normal tables a list stands for, its partitioned tables expanded or dropped. */
  ghost function LeavesOf(f: Forest, list: seq<Table>, addAll: bool): set<Table>
    requires f.Valid()
  {
    set x | x in f.level && f.IsLeaf(x) && (x in list || (addAll && exists t <- list :: f.Descends(x, t)))
  }

  ghost function RootsOf(f: Forest, leaves: set<Table>): set<Table>
    requires f.Valid() && leaves <= f.level.Keys
  {
    set x | x in leaves :: f.Root(x)
  }

  ghost predicate Known(f: Forest, list: seq<Table>) {
    forall t <- list :: t in f.level
  }

  /** The leaves, and with them exactly the roots that have one of them. */
  ghost predicate Lists(f: Forest, leaves: set<Table>, list: seq<Table>)
    requires f.Valid() && leaves <= f.level.Keys
  {
    NoDup(list) && forall x :: x in list <==> x in leaves || x in RootsOf(f, leaves)
  }

  /** Exactly the leaf partitions, each with its root; a normal table is its own root and is left out. */
  ghost predicate Maps(f: Forest, leaves: set<Table>, toRoot: map<Table, Table>)
    requires f.Valid() && leaves <= f.level.Keys
  {
    && (forall x :: x in toRoot <==> x in leaves && !f.IsRoot(x))
    && (forall x {:trigger x in toRoot} :: x in toRoot ==> toRoot[x] == f.Root(x))
  }

  method AppendLeaves(list: seq<Table>, toRoot: map<Table, Table>, leaves: seq<Table>, root: Table)
    returns (longer: seq<Table>, larger: map<Table, Table>)
    ensures longer == list + leaves
    ensures forall x :: x in larger <==> x in toRoot || x in leaves
    ensures forall x {:trigger x in larger} :: x in larger ==> larger[x] == if x in leaves then root else toRoot[x]
  {
    longer, larger := list, toRoot;
    for j := 0 to |leaves|
      invariant longer == list + leaves[..j]
      invariant forall x :: x in larger <==> x in toRoot || x in leaves[..j]
      invariant forall x {:trigger x in larger} :: x in larger ==>
            larger[x] == if x in leaves[..j] then root else toRoot[x]
    {
      longer := longer + [leaves[j]];
      larger := larger[leaves[j] := root];
    }
    assert leaves[..|leaves|] == leaves;
  }

  method AddLeafPartitionsInTableList(f: Forest, perLeafEvents: bool, tableList: seq<Table>, addAll: bool)
    returns (toRoot: map<Table, Table>, list: seq<Table>)
    requires f.Valid() && Known(f, tableList)
    ensures !perLeafEvents ==> toRoot == map[] && list == tableList
    ensures perLeafEvents ==>
          Lists(f, LeavesOf(f, tableList, addAll), list) && Maps(f, LeavesOf(f, tableList, addAll), toRoot)
    ensures perLeafEvents ==> Invertible(f, list, toRoot)
  {
    toRoot := map[];
    if !perLeafEvents {
      return toRoot, tableList;
    }
    var modified: seq<Table> := [];
    for i := 0 to |tableList|
      invariant ListSoFar(f, LeavesOf(f, tableList[..i], addAll), modified, toRoot)
    {
      var table := tableList[i];
      var root := GetRootTableOfPartition(f, table);
      var leaves := GetAllLeafPartitions(f, table);
      ghost var before, done, mapped := LeavesOf(f, tableList[..i], addAll), modified, toRoot;
      ghost var added: seq<Table> := [];
      var prevLength := |modified|;
      if leaves == [] && root != table {
        added := [table];
        toRoot := toRoot[table := root];
        modified := modified + [table];
      } else if leaves == [] && root == table {
        added := [table];
        modified := modified + [table];
      } else if addAll {
        added := leaves;
        modified, toRoot := AppendLeaves(modified, toRoot, leaves, root);
      }
      if prevLength < |modified| {
        modified := modified + [root];
      }
      assert tableList[..i + 1] == tableList[..i] + [table];
      OneMoreTable(f, tableList[..i], table, addAll, leaves, added);
      ListGrows(f, before, added, root, done, mapped, modified, toRoot);
    }
    assert tableList[..|tableList|] == tableList;
    list := Uniq(modified);
    NormalisedListInverts(f, LeavesOf(f, tableList, addAll), list, toRoot);
  }

  /** The map leads from listed tables to listed roots other than themselves, so that it can be inverted. */
  ghost predicate Invertible(f: Forest, list: seq<Table>, toRoot: map<Table, Table>) {
    forall x <- toRoot :: x in list && toRoot[x] in list && f.IsRoot(toRoot[x]) && x != toRoot[x]
  }

  /** The list under construction, which may still repeat tables. */
  ghost predicate ListSoFar(f: Forest, leaves: set<Table>, list: seq<Table>, toRoot: map<Table, Table>)
    requires f.Valid() && leaves <= f.level.Keys
  {
    (forall x :: x in list <==> x in leaves || x in RootsOf(f, leaves)) && Maps(f, leaves, toRoot)
  }

  lemma OneMoreTable(f: Forest, list: seq<Table>, t: Table, addAll: bool, below: seq<Table>, added: seq<Table>)
    requires f.Valid() && t in f.level
    requires (forall x :: x in below <==> LeafBelow(f, x, t)) && (below == [] <==> f.IsLeaf(t))
    requires added == if below == [] then [t] else if addAll then below else []
    ensures LeavesOf(f, list + [t], addAll) == LeavesOf(f, list, addAll) + (set x | x in added)
    ensures forall x <- added :: x in f.level && f.Root(x) == f.Root(t) && (f.IsRoot(x) <==> below == [] && f.IsRoot(t))
  {
    forall x | x in added
      ensures x in f.level && f.Root(x) == f.Root(t) && (f.IsRoot(x) <==> below == [] && f.IsRoot(t))
    {
      if x in below {
        RootIsShared(f, x, t);
      }
    }
    forall x
      ensures x in LeavesOf(f, list + [t], addAll) <==> x in LeavesOf(f, list, addAll) || x in added
    {
      if f.Descends(x, t) {
        DescendsIsLower(f, x, t);
      }
    }
  }

  lemma ListGrows(f: Forest, before: set<Table>, added: seq<Table>, root: Table,
                  done: seq<Table>, mapped: map<Table, Table>, list: seq<Table>, toRoot: map<Table, Table>)
    requires f.Valid() && before <= f.level.Keys && ListSoFar(f, before, done, mapped)
    requires forall x <- added :: x in f.level && f.Root(x) == root
    requires list == if added == [] then done else done + added + [root]
    requires forall x :: x in toRoot <==> x in mapped || (x in added && !f.IsRoot(x))
    requires forall x {:trigger x in toRoot} :: x in toRoot ==> toRoot[x] == if x in added then root else mapped[x]
    ensures (set x | x in added) <= f.level.Keys && ListSoFar(f, before + (set x | x in added), list, toRoot)
  {
    var all := before + (set x | x in added);
    forall x
      ensures x in RootsOf(f, all) <==> x in RootsOf(f, before) || (added != [] && x == root)
    {
      if added != [] {
        assert added[0] in all;
      }
      if y :| y in before && f.Root(y) == x {
        assert y in all;
      }
    }
  }

  // ---------- table list flags ----------

  /** The leaves of the catalog's tables that the patterns of a flag select, directly or through an ancestor. */
  ghost function LeavesSelected(f: Forest, fullList: seq<Table>, matches: (string, Table) -> bool,
                                patterns: seq<string>): set<Table>
    requires f.Valid()
  {
    set x | x in f.level && f.IsLeaf(x) && exists t <- fullList :: Selected(matches, patterns, t) && f.Under(x, t)
  }

  ghost predicate EachMatches(fullList: seq<Table>, matches: (string, Table) -> bool, flag: Option<seq<string>>) {
    flag.Some? ==> forall p <- flag.value :: exists t <- fullList :: matches(p, t)
  }

  ghost function IncludedLeaves(f: Forest, fullList: seq<Table>, matches: (string, Table) -> bool,
                                flag: Option<seq<string>>): set<Table>
    requires f.Valid()
  {
    match flag
    case None => LeavesOf(f, fullList, false)
    case Some(patterns) => LeavesSelected(f, fullList, matches, patterns)
  }

  ghost function ExcludedLeaves(f: Forest, fullList: seq<Table>, matches: (string, Table) -> bool,
                                flag: Option<seq<string>>): set<Table>
    requires f.Valid()
  {
    match flag
    case None => {}
    case Some(patterns) => LeavesSelected(f, fullList, matches, patterns)
  }

  method ApplyFilterAndAddLeafTables(f: Forest, perLeafEvents: bool, fullList: seq<Table>,
                                     matches: (string, Table) -> bool, patterns: seq<string>)
    returns (r: Result<seq<Table>, seq<string>>)
    requires f.Valid() && Known(f, fullList)
    ensures r.Success? <==> EachMatches(fullList, matches, Some(patterns))
    ensures r.Success? && perLeafEvents ==> Lists(f, LeavesSelected(f, fullList, matches, patterns), r.value)
    ensures r.Success? && !perLeafEvents ==> forall t :: t in r.value <==>
          t in fullList && Selected(matches, patterns, t)
  {
    r := ExtractTableList(fullList, patterns, matches);
    if r.Success? {
      assert LeavesOf(f, r.value, true) == LeavesSelected(f, fullList, matches, patterns);
      var _, list := AddLeafPartitionsInTableList(f, perLeafEvents, r.value, true);
      r := Success(list);
    }
  }

  method ApplyTableListFlagsOnFullListAndAddLeafPartitions(
    f: Forest, perLeafEvents: bool, fullList: seq<Table>, matches: (string, Table) -> bool,
    includeFlag: Option<seq<string>>, excludeFlag: Option<seq<string>>)
    returns (r: Result<(seq<Table>, seq<Table>), seq<string>>)
    requires f.Valid() && Known(f, fullList)
    ensures r.Success? <==> EachMatches(fullList, matches, includeFlag) && EachMatches(fullList, matches, excludeFlag)
    ensures r.Success? && perLeafEvents ==>
              && Lists(f, IncludedLeaves(f, fullList, matches, includeFlag), r.value.0)
              && Lists(f, ExcludedLeaves(f, fullList, matches, excludeFlag), r.value.1)
    ensures r.Success? && !perLeafEvents ==>
              && (forall t :: t in r.value.0 <==>
                    t in fullList && (includeFlag.Some? ==> Selected(matches, includeFlag.value, t)))
              && (forall t :: t in r.value.1 <==>
                    t in fullList && excludeFlag.Some? && Selected(matches, excludeFlag.value, t))
  {
    var excluded: seq<Table> := [];
    if excludeFlag.Some? {
      var e := ApplyFilterAndAddLeafTables(f, perLeafEvents, fullList, matches, excludeFlag.value);
      if e.Failure? {
        return Failure(e.error);
      }
      excluded := e.value;
    }
    var included := fullList;
    if includeFlag.Some? {
      var i := ApplyFilterAndAddLeafTables(f, perLeafEvents, fullList, matches, includeFlag.value);
      if i.Failure? {
        return Failure(i.error);
      }
      included := i.value;
    } else {
      var _, list := AddLeafPartitionsInTableList(f, perLeafEvents, fullList, false);
      included := list;
    }
    return Success((included, excluded));
  }

  /**
   The final export list: exactly the included leaves and normal tables that are not excluded, and
   the roots that still have one of them. The map's domain is exactly the listed leaf partitions.
   */
  method FetchTableNamesAndFilter(
    f: Forest, perLeafEvents: bool, fullList: seq<Table>, matches: (string, Table) -> bool,
    includeFlag: Option<seq<string>>, excludeFlag: Option<seq<string>>)
    returns (r: Result<(map<Table, Table>, seq<Table>, bool), seq<string>>)
    requires f.Valid() && Known(f, fullList)
    ensures r.Success? <==> EachMatches(fullList, matches, includeFlag) && EachMatches(fullList, matches, excludeFlag)
    ensures r.Success? && perLeafEvents ==>
              var leaves := IncludedLeaves(f, fullList, matches, includeFlag)
                            - ExcludedLeaves(f, fullList, matches, excludeFlag);
              Maps(f, leaves, r.value.0) && Lists(f, leaves, r.value.1) && Invertible(f, r.value.1, r.value.0)
    ensures r.Success? && !perLeafEvents ==>
              && r.value.0 == map[]
              && forall t :: t in r.value.1 <==>
                   && t in fullList
                   && (includeFlag.Some? ==> Selected(matches, includeFlag.value, t))
                   && (excludeFlag.Some? ==> !Selected(matches, excludeFlag.value, t))
    ensures r.Success? && includeFlag.None? && excludeFlag.None? ==> !r.value.2
    ensures r.Success? && !perLeafEvents ==> (r.value.2 <==> exists t <- fullList :: t !in r.value.1)
    ensures r.Success? && perLeafEvents ==>
              var included := IncludedLeaves(f, fullList, matches, includeFlag);
              var excluded := ExcludedLeaves(f, fullList, matches, excludeFlag);
              (r.value.2 <==>
               && (includeFlag.Some? || excludeFlag.Some?)
               && exists t <- fullList ::
                    || (t !in included && t !in RootsOf(f, included))
                    || t in excluded || t in RootsOf(f, excluded))
  {
    var lists := ApplyTableListFlagsOnFullListAndAddLeafPartitions(
      f, perLeafEvents, fullList, matches, includeFlag, excludeFlag);
    if lists.Failure? {
      return Failure(lists.error);
    }
    var first := Difference(lists.value.0, lists.value.1);
    var modified := false;
    if includeFlag.Some? || excludeFlag.Some? {
      var missing := Difference(fullList, first);
      assert missing != [] ==> missing[0] in missing;
      modified := |missing| != 0;
    }
    var toRoot, list := AddLeafPartitionsInTableList(f, perLeafEvents, first, false);
    assert perLeafEvents ==> LeavesOf(f, first, false)
                             == IncludedLeaves(f, fullList, matches, includeFlag) - ExcludedLeaves(f, fullList,
                                   matches, excludeFlag) by {
      if perLeafEvents {
        LeavesOfDifference(f, IncludedLeaves(f, fullList, matches, includeFlag),
              ExcludedLeaves(f, fullList, matches, excludeFlag),
                           lists.value.0, lists.value.1);
      }
    }
    return Success((toRoot, list, modified));
  }

  /** A root that is itself a leaf is a normal table, its own root. */
  lemma LeafRoots(f: Forest, leaves: set<Table>, x: Table)
    requires f.Valid() && leaves <= f.level.Keys && f.IsLeaf(x) && x in RootsOf(f, leaves)
    ensures x in leaves
  {
    var y :| y in leaves && f.Root(y) == x;
    if y != x {
      DescendsIsLower(f, y, x);
      var c := DescendsFromChild(f, y, x);
      assert false;
    }
  }

  lemma LeavesOfDifference(f: Forest, included: set<Table>, excluded: set<Table>, a: seq<Table>, b: seq<Table>)
    requires f.Valid() && included <= f.level.Keys && excluded <= f.level.Keys
    requires forall x <- included + excluded :: f.IsLeaf(x)
    requires Lists(f, included, a) && Lists(f, excluded, b)
    ensures Known(f, Difference(a, b))
    ensures LeavesOf(f, Difference(a, b), false) == included - excluded
  {
    forall x | x in f.level && f.IsLeaf(x)
      ensures x in Difference(a, b) <==> x in included - excluded
    {
      if x in RootsOf(f, included) {
        LeafRoots(f, included, x);
      }
      if x in RootsOf(f, excluded) {
        LeafRoots(f, excluded, x);
      }
    }
  }

  /** Normalising a list with all leaves, and the result again without adding any, changes neither the tables nor
      the map. */
  lemma NormalisingAgain(f: Forest, list: seq<Table>, once: seq<Table>, map1: map<Table, Table>, twice: seq<Table>,
                         map2: map<Table, Table>)
    requires f.Valid() && Known(f, list)
    requires Lists(f, LeavesOf(f, list, true), once) && Maps(f, LeavesOf(f, list, true), map1)
    requires Lists(f, LeavesOf(f, once, false), twice) && Maps(f, LeavesOf(f, once, false), map2)
    ensures multiset(once) == multiset(twice) && map1 == map2
  {
    LeavesStay(f, LeavesOf(f, list, true), once);
    ListsAgree(f, LeavesOf(f, list, true), once, twice);
    assert map1.Keys == map2.Keys;
  }

  lemma LeavesStay(f: Forest, leaves: set<Table>, once: seq<Table>)
    requires f.Valid() && leaves <= f.level.Keys && (forall x <- leaves :: f.IsLeaf(x)) && Lists(f, leaves, once)
    ensures LeavesOf(f, once, false) == leaves
  {
    LeavesOfDifference(f, leaves, {}, once, []);
    DifferenceOfNone(once);
  }

  lemma ListsAgree(f: Forest, leaves: set<Table>, a: seq<Table>, b: seq<Table>)
    requires f.Valid() && leaves <= f.level.Keys && Lists(f, leaves, a) && Lists(f, leaves, b)
    ensures multiset(a) == multiset(b)
  {
    SameElementsOnce(a, b);
  }

  lemma {:induction false} DifferenceOfNone(a: seq<Table>)
    ensures Difference(a, []) == a
  {
    if a != [] {
      DifferenceOfNone(a[1..]);
    }
  }

  lemma SameElementsOnce(a: seq<Table>, b: seq<Table>)
    requires NoDup(a) && NoDup(b) && forall x :: x in a <==> x in b
    ensures multiset(a) == multiset(b)
  {
    forall x
      ensures multiset(a)[x] == multiset(b)[x]
    {
      CountOnce(a, x);
      CountOnce(b, x);
    }
  }

  lemma {:induction false} CountOnce(a: seq<Table>, x: Table)
    requires NoDup(a)
    ensures multiset(a)[x] == if x in a then 1 else 0
  {
    if a != [] {
      assert a == [a[0]] + a[1..];
      CountOnce(a[1..], x);
    }
  }

  // ---------- inverting the map ----------

  /** Each leaf not left `todo` is listed under the root the map gives it, once, and nothing else is. */
  ghost predicate InvertsSoFar(toRoot: map<Table, Table>, todo: map<Table, Table>, byRoot: map<Table, seq<Table>>) {
    && (forall r {:trigger byRoot[r]} :: r in byRoot ==> byRoot[r] != [] && NoDup(byRoot[r]))
    && (forall x, r {:trigger x in byRoot[r]} :: r in byRoot && x in byRoot[r] ==>
          x in toRoot && x !in todo && toRoot[x] == r)
    && (forall x {:trigger toRoot[x]} :: x in toRoot && x !in todo ==> toRoot[x] in byRoot && x in byRoot[toRoot[x]])
  }

  ghost predicate Inverts(toRoot: map<Table, Table>, byRoot: map<Table, seq<Table>>) {
    && (forall r <- byRoot :: byRoot[r] != [] && NoDup(byRoot[r]))
    && (forall x, r :: (r in byRoot && x in byRoot[r]) <==> (x in toRoot && toRoot[x] == r))
  }

  lemma OneMoreLeaf(toRoot: map<Table, Table>, todo: map<Table, Table>, byRoot: map<Table, seq<Table>>, leaf: Table,
                    leaves: seq<Table>)
    requires InvertsSoFar(toRoot, todo, byRoot) && leaf in todo && leaf in toRoot
    requires leaves == if toRoot[leaf] in byRoot then byRoot[toRoot[leaf]] else []
    ensures InvertsSoFar(toRoot, todo - {leaf}, byRoot[toRoot[leaf] := leaves + [leaf]])
  {
    NoDupAppend(leaves, [leaf]);
  }

  /** Fails, naming the table, if and only if the map speaks of one that is not listed. */
  method BuildRootToLeafPartitionsMap(toRoot: map<Table, Table>, finalList: seq<Table>)
    returns (r: Result<map<Table, seq<Table>>, Table>)
    ensures r.Success? <==> forall x <- toRoot :: x in finalList && toRoot[x] in finalList
    ensures r.Success? ==> Inverts(toRoot, r.value)
    ensures r.Failure? ==> r.error !in finalList && (r.error in toRoot || r.error in toRoot.Values)
  {
    var byRoot: map<Table, seq<Table>> := map[];
    var todo := toRoot;
    while todo != map[]
      invariant todo.Keys <= toRoot.Keys
      invariant forall x <- toRoot :: x !in todo ==> x in finalList && toRoot[x] in finalList
      invariant InvertsSoFar(toRoot, todo, byRoot)
      decreases |todo.Keys|
    {
      ghost var some := SomeKey(todo);
      var leaf :| leaf in todo;
      var root := toRoot[leaf];
      if leaf !in finalList {
        return Failure(leaf);
      }
      if root !in finalList {
        assert root in toRoot.Values;
        return Failure(root);
      }
      var leaves := if root in byRoot then byRoot[root] else [];
      OneMoreLeaf(toRoot, todo, byRoot, leaf, leaves);
      byRoot := byRoot[root := leaves + [leaf]];
      todo := todo - {leaf};
    }
    return Success(byRoot);
  }

  /** On a normalised list every lookup of the inversion succeeds. */
  lemma NormalisedListInverts(f: Forest, leaves: set<Table>, list: seq<Table>, toRoot: map<Table, Table>)
    requires f.Valid() && leaves <= f.level.Keys && Lists(f, leaves, list) && Maps(f, leaves, toRoot)
    ensures Invertible(f, list, toRoot)
  {
  }
}
