/**
 Resolving redundant indexes: an index reported redundant because of an index that is itself
 redundant is reported against the index at the end of the chain. The table of indexes is
 compressed in place while later chains are still being followed through it.
 */
module RedundantIndexes {
  import opened Wrappers
  import opened Sequences
  import opened TableList

  datatype IndexRef = IndexRef(schema: string, table: string, name: string)

  datatype Info = Info(redundant: IndexRef, redundantDDL: string, existing: IndexRef, existingDDL: string)

  // ---------- chains of the reported relation ----------

  function Last<T>(s: seq<T>): T
    requires s != []
  {
    s[|s| - 1]
  }

  /** Each entry's existing index is the next entry's redundant one. */
  ghost predicate Chain(list: seq<Info>, path: seq<Info>) {
    && path != []
    && (forall i :: 0 <= i < |path| ==> path[i] in list)
    && (forall i :: 0 <= i < |path| - 1 ==> path[i].existing == path[i + 1].redundant)
  }

  /** No index is, through a chain, redundant because of itself. */
  ghost predicate Acyclic(list: seq<Info>) {
    forall path: seq<Info> {:trigger Chain(list, path)} :: Chain(list, path) ==>
          Last(path).existing != path[0].redundant
  }

  ghost predicate IsRedundant(list: seq<Info>, index: IndexRef) {
    exists e <- list :: e.redundant == index
  }

  /** The report of a chain's first index against the existing index, and its DDL, at the chain's end. */
  ghost predicate Reports(list: seq<Info>, path: seq<Info>, info: Info) {
    Chain(list, path) && info == path[0].(existing := Last(path).existing, existingDDL := Last(path).existingDDL)
  }

  ghost predicate Sound(list: seq<Info>, info: Info) {
    exists path :: Reports(list, path, info)
  }

  lemma ChainsJoin(list: seq<Info>, p: seq<Info>, q: seq<Info>)
    requires Chain(list, p) && Chain(list, q) && Last(p).existing == q[0].redundant
    ensures Chain(list, p + q) && (p + q)[0] == p[0] && Last(p + q) == Last(q)
  {
  }

  /** A chain of an acyclic relation meets no index twice. */
  lemma ChainsAreSimple(list: seq<Info>, path: seq<Info>)
    requires Acyclic(list) && Chain(list, path)
    ensures NoDup(path) && |path| <= |list|
  {
    forall i, j | 0 <= i < j < |path|
      ensures path[i] != path[j]
    {
      assert Chain(list, path[i..j]);
      assert Last(path[i..j]) == path[j - 1];
    }
    FewerThan(path, list);
  }

  lemma {:induction false} FewerThan<T(!new)>(a: seq<T>, b: seq<T>)
    requires NoDup(a) && forall i :: 0 <= i < |a| ==> a[i] in b
    ensures |a| <= |b|
    decreases |a|
  {
    if a != [] {
      var j :| 0 <= j < |b| && b[j] == a[0];
      var rest := b[..j] + b[j + 1..];
      assert b == b[..j] + [b[j]] + b[j + 1..];
      assert forall i :: 0 <= i < |a[1..]| ==> a[1..][i] in rest;
      FewerThan(a[1..], rest);
    }
  }

  // ---------- resolution ----------

  type Table = map<IndexRef, Info>

  /** Follows the table to an index that is not redundant. */
  method GetRootRedundantIndexInfo(table: Table, start: Info, ghost list: seq<Info>) returns (root: Info)
    requires Acyclic(list) && start in list && forall k <- table :: table[k].redundant == k && Sound(list, table[k])
    ensures root.existing !in table
    ensures Sound(list, start.(existing := root.existing, existingDDL := root.existingDDL))
    ensures root.existing == start.existing ==> start.existing !in table
  {
    root := start;
    ghost var path := [start];
    while root.existing in table
      invariant Chain(list, path) && path[0] == start
      invariant Last(path).existing == root.existing && Last(path).existingDDL == root.existingDDL
      invariant root.existing == start.existing ==> root == start
      decreases |list| - |path|
    {
      ghost var rest :| Reports(list, rest, table[root.existing]);
      ChainsJoin(list, path, rest);
      path := path + rest;
      ChainsAreSimple(list, path);
      root := table[root.existing];
      StartIsBehind(list, path);
    }
    assert Reports(list, path, start.(existing := root.existing, existingDDL := root.existingDDL));
  }

  lemma StartIsBehind(list: seq<Info>, path: seq<Info>)
    requires Acyclic(list) && Chain(list, path) && |path| > 1
    ensures Last(path).existing != path[0].existing
  {
    assert Chain(list, path[1..]);
  }

  /** Resolved: against an index that is not itself redundant. */
  ghost predicate Resolved(list: seq<Info>, info: Info) {
    Sound(list, info) && !IsRedundant(list, info.existing)
  }

  /** The table while resolving: what is not yet against an end is an entry still to come. */
  ghost predicate InProgress(list: seq<Info>, i: nat, table: Table)
    requires i <= |list|
  {
    && (forall k :: k in table <==> IsRedundant(list, k))
    && (forall k {:trigger table[k]} :: k in table ==> table[k].redundant == k && Sound(list, table[k]))
    && (forall k {:trigger table[k]} :: k in table ==> table[k].existing !in table || table[k] in list[i..])
  }

  /** The table filled from the list; of entries for one index the last one counts. */
  method FillTable(list: seq<Info>) returns (table: Table)
    ensures InProgress(list, 0, table)
    ensures DistinctNames(list) ==> Filled(list, table)
  {
    table := map[];
    for i := 0 to |list|
      invariant forall k :: k in table <==> IsRedundant(list[..i], k)
      invariant forall k <- table :: table[k].redundant == k && table[k] in list[..i]
    {
      table := table[list[i].redundant := list[i]];
      assert list[..i + 1] == list[..i] + [list[i]];
    }
    assert list[..|list|] == list && list[0..] == list;
    forall k <- table
      ensures Sound(list, table[k])
    {
      assert Reports(list, [table[k]], table[k]);
    }
  }

  lemma OneResolved(list: seq<Info>, i: nat, table: Table, root: Info)
    requires i < |list| && InProgress(list, i, table) && root.existing !in table
    requires Sound(list, list[i].(existing := root.existing, existingDDL := root.existingDDL))
    ensures InProgress(list, i + 1,
              if root.existing != list[i].existing
              then table[list[i].redundant := list[i].(existing := root.existing, existingDDL := root.existingDDL)]
                    else table)
  {
    assert list[i..] == [list[i]] + list[i + 1..];
  }

  /** The same redundant indexes, once each, every one against an index at the end of one of its chains. */
  method GetResolvedRedundantIndexes(list: seq<Info>) returns (r: seq<Info>)
    requires Acyclic(list)
    ensures forall i, j :: 0 <= i < j < |r| ==> r[i].redundant != r[j].redundant
    ensures forall index :: IsRedundant(list, index) <==> IsRedundant(r, index)
    ensures forall info <- r :: Resolved(list, info)
  {
    var table := FillTable(list);
    for i := 0 to |list|
      invariant InProgress(list, i, table)
    {
      var index := list[i];
      var root := GetRootRedundantIndexInfo(table, index, list);
      OneResolved(list, i, table, root);
      if root.existing != index.existing {
        table := table[index.redundant := index.(existing := root.existing, existingDDL := root.existingDDL)];
      }
    }
    r := ValuesOf(table);
    forall index
      ensures IsRedundant(list, index) <==> IsRedundant(r, index)
    {
      if index in table {
        assert table[index] in r;
      }
    }
  }

  /** The entries of the table, in some order. */
  method ValuesOf(table: Table) returns (r: seq<Info>)
    requires forall k <- table :: table[k].redundant == k
    ensures forall i, j :: 0 <= i < j < |r| ==> r[i].redundant != r[j].redundant
    ensures forall info <- r :: info.redundant in table && info == table[info.redundant]
    ensures forall k <- table :: table[k] in r
  {
    r := [];
    var todo := table;
    while todo != map[]
      invariant todo.Keys <= table.Keys && forall k <- todo :: todo[k] == table[k]
      invariant forall info <- r :: info.redundant in table && info.redundant !in todo && info == table[info.redundant]
      invariant forall k <- table :: k !in todo ==> table[k] in r
      invariant forall i, j :: 0 <= i < j < |r| ==> r[i].redundant != r[j].redundant
      decreases |todo.Keys|
    {
      ghost var some := SomeKey(todo);
      var k :| k in todo;
      assert forall i :: 0 <= i < |r| ==> r[i] in r;
      r := r + [todo[k]];
      todo := todo - {k};
    }
  }

  // ---------- what the contract pins down ----------

  ghost predicate DistinctNames(list: seq<Info>) {
    forall a, b :: a in list && b in list && a.redundant == b.redundant ==> a == b
  }

  /** With distinct redundant names an index has one chain to an end, so its resolution is unique. */
  lemma {:induction false} ResolutionIsUnique(list: seq<Info>, p: seq<Info>, q: seq<Info>)
    requires DistinctNames(list) && Chain(list, p) && Chain(list, q) && p[0].redundant == q[0].redundant
    requires !IsRedundant(list, Last(p).existing) && !IsRedundant(list, Last(q).existing)
    ensures p == q
    decreases |p|
  {
    assert p[0] == q[0];
    assert |p| > 1 ==> p[1] in list && IsRedundant(list, p[0].existing);
    assert |q| > 1 ==> q[1] in list && IsRedundant(list, q[0].existing);
    if |p| > 1 && |q| > 1 {
      ResolutionIsUnique(list, p[1..], q[1..]);
    }
  }

  // ---------- termination, exactly ----------

  /** The table as first filled, for distinct names. */
  ghost predicate Filled(list: seq<Info>, table: Table) {
    && (forall k :: k in table <==> IsRedundant(list, k))
    && (forall k <- table :: table[k] in list && table[k].redundant == k)
  }

  /** Whether the following loop is still running after n rounds. */
  ghost predicate StillRunning(table: Table, e: Info, n: nat)
    decreases n
  {
    e.existing in table && (n == 0 || StillRunning(table, table[e.existing], n - 1))
  }

  ghost predicate Ends(table: Table, e: Info) {
    exists n: nat :: !StillRunning(table, e, n)
  }

  /** Every chain can be followed to an end if and only if no index is redundant because of itself. */
  lemma ChainsEndIffAcyclic(list: seq<Info>, table: Table)
    requires DistinctNames(list) && Filled(list, table)
    ensures Acyclic(list) <==> forall e <- list :: Ends(table, e)
  {
    if Acyclic(list) {
      forall e <- list
        ensures Ends(table, e)
      {
        if StillRunning(table, e, |list|) {
          var path := FollowedPath(list, table, e, |list|);
          ChainsAreSimple(list, path);
        }
      }
    } else {
      var cycle: seq<Info> :| Chain(list, cycle) && Last(cycle).existing == cycle[0].redundant;
      forall n: nat
        ensures StillRunning(table, cycle[0], n)
      {
        CycleNeverEnds(list, table, cycle, 0, n);
      }
      assert cycle[0] in list && !Ends(table, cycle[0]);
    }
  }

  lemma {:induction false} FollowedPath(list: seq<Info>, table: Table, e: Info, n: nat) returns (path: seq<Info>)
    requires Filled(list, table) && e in list && StillRunning(table, e, n)
    ensures Chain(list, path) && path[0] == e && |path| == n + 2
    decreases n
  {
    var next := table[e.existing];
    if n == 0 {
      path := [e, next];
    } else {
      var rest := FollowedPath(list, table, next, n - 1);
      path := [e] + rest;
    }
  }

  lemma {:induction false} CycleNeverEnds(list: seq<Info>, table: Table, cycle: seq<Info>, i: nat, n: nat)
    requires DistinctNames(list) && Filled(list, table)
    requires Chain(list, cycle) && Last(cycle).existing == cycle[0].redundant && i < |cycle|
    ensures StillRunning(table, cycle[i], n)
    decreases n
  {
    var next := if i + 1 < |cycle| then i + 1 else 0;
    assert cycle[i].existing == cycle[next].redundant && cycle[next] in list;
    assert table[cycle[i].existing] == cycle[next];
    if n > 0 {
      CycleNeverEnds(list, table, cycle, next, n - 1);
    }
  }
}
