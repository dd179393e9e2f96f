/** Partition keys: which events may never be reordered because they share a channel. */
module Routing {
  import opened Wrappers
  import opened Events
  import opened BucketKey
  import opened Sequences

  datatype Strategy = ByPk | ByTable | ByCustom(columns: seq<string>)

  datatype RouteError = UnknownTable | NoCustomColumns | ColumnUnavailable(column: string)
        | ColumnNotImmutable(column: string)

  const NULL_SENTINEL: string := [0 as char] + "NULL" + [0 as char]

  function ConcatValues(key: seq<(string, string)>): string {
    if key == [] then "" else key[0].1 + ConcatValues(key[1..])
  }

  /** The value of a custom key column; an UPDATE that changes it is rejected. */
  function CustomColumnValue(e: Event, column: string): Result<Value, RouteError> {
    match e.op
    case Create =>
      if column in e.fields then Success(e.fields[column]) else Failure(ColumnUnavailable(column))
    case Update =>
      if column in e.fields then Failure(ColumnNotImmutable(column))
      else if column in e.Before() then Success(e.Before()[column])
      else Failure(ColumnUnavailable(column))
    case Delete =>
      if column in e.Before() then Success(e.Before()[column]) else Failure(ColumnUnavailable(column))
  }

  function CustomValues(e: Event, columns: seq<string>): Result<string, RouteError> {
    if columns == [] then Success("")
    else match CustomColumnValue(e, columns[0])
      case Failure(err) => Failure(err)
      case Success(v) =>
        match CustomValues(e, columns[1..])
        case Failure(err) => Failure(err)
        case Success(rest) => Success(v.GetOr(NULL_SENTINEL) + rest)
  }

  /** Deterministic routing key of an event under its table's strategy. */
  function PartitionKey(strategies: map<string, Strategy>, e: Event): Result<string, RouteError> {
    if e.table !in strategies then Failure(UnknownTable)
    else match strategies[e.table]
      case ByPk => Success(e.table + ConcatValues(e.key))
      case ByTable => Success(e.table)
      case ByCustom(columns) =>
        if columns == [] then Failure(NoCustomColumns)
        else match CustomValues(e, columns)
          case Failure(err) => Failure(err)
          case Success(values) => Success(e.table + values)
  }

  /** Events that read the same values for every custom column route alike. */
  lemma {:induction false} SameCustomValues(e: Event, f: Event, columns: seq<string>)
    requires forall c <- columns :: CustomColumnValue(e, c).Success?
    requires forall c <- columns :: CustomColumnValue(e, c) == CustomColumnValue(f, c)
    ensures CustomValues(e, columns).Success? && CustomValues(e, columns) == CustomValues(f, columns)
  {
    if columns != [] {
      assert columns[0] in columns;
      SameCustomValues(e, f, columns[1..]);
    }
  }

  /** Routing succeeds only when every custom column can be read. */
  lemma {:induction false} CustomValuesReadable(e: Event, columns: seq<string>)
    ensures CustomValues(e, columns).Success? <==> forall c <- columns :: CustomColumnValue(e, c).Success?
  {
    if columns != [] {
      CustomValuesReadable(e, columns[1..]);
      assert columns == [columns[0]] + columns[1..];
    }
  }

  lemma SameFront(front: string, a: string, b: string)
    ensures front + a == front + b <==> a == b
  {
    if front + a == front + b {
      SplitAtLength(front, front, a, b);
    }
  }

  /** Partitioned by primary key, events of one row route alike, and rows with one-column keys that differ
      route apart. */
  lemma PkRoutesByRow(strategies: map<string, Strategy>, e: Event, f: Event)
    requires e.table == f.table && e.table in strategies && strategies[e.table].ByPk?
    ensures e.key == f.key ==> PartitionKey(strategies, e) == PartitionKey(strategies, f)
    ensures |e.key| == 1 && |f.key| == 1 ==>
              (PartitionKey(strategies, e) == PartitionKey(strategies, f) <==> e.key[0].1 == f.key[0].1)
  {
    SameFront(e.table, ConcatValues(e.key), ConcatValues(f.key));
    if |e.key| == 1 && |f.key| == 1 {
      assert e.key[1..] == [] && f.key[1..] == [];
      assert ConcatValues(e.key) == e.key[0].1 && ConcatValues(f.key) == f.key[0].1;
    }
  }

  /** Rows with longer keys may share a partition, and then wait for each other without need. */
  lemma CompositeKeysMayMeet(strategies: map<string, Strategy>, e: Event, f: Event)
    requires e.table == f.table && e.table in strategies && strategies[e.table].ByPk?
    requires e.key == [("a", "1"), ("b", "23")] && f.key == [("a", "12"), ("b", "3")]
    ensures PartitionKey(strategies, e) == PartitionKey(strategies, f)
  {
    assert e.key[1..] == [("b", "23")] && f.key[1..] == [("b", "3")] && e.key[1..][1..] == f.key[1..][1..] == [];
    assert ConcatValues(e.key[1..]) == "23" && ConcatValues(f.key[1..]) == "3";
    assert ConcatValues(e.key) == "1" + "23" == "12" + "3" == ConcatValues(f.key);
  }

  /** Partitioned by table, all its events route alike, and apart from those of another such table. */
  lemma TableRoutesTogether(strategies: map<string, Strategy>, e: Event, f: Event)
    requires e.table in strategies && strategies[e.table].ByTable?
    requires f.table in strategies && strategies[f.table].ByTable?
    ensures PartitionKey(strategies, e) == PartitionKey(strategies, f) <==> e.table == f.table
  {
  }

  /** Partitioned by one custom column, inserts route alike if and only if they hold the same value in it. */
  lemma CustomRoutesByValue(strategies: map<string, Strategy>, e: Event, f: Event, column: string)
    requires e.table == f.table && e.table in strategies && strategies[e.table] == ByCustom([column])
    requires e.op.Create? && f.op.Create? && column in e.fields && column in f.fields
    requires e.fields[column].Some? && f.fields[column].Some?
    ensures PartitionKey(strategies, e) == PartitionKey(strategies, f) <==> e.fields[column] == f.fields[column]
  {
    OneCustomValue(e, column);
    OneCustomValue(f, column);
    SameFront(e.table, e.fields[column].value, f.fields[column].value);
  }

  lemma OneCustomValue(e: Event, column: string)
    requires e.op.Create? && column in e.fields && e.fields[column].Some?
    ensures CustomValues(e, [column]) == Success(e.fields[column].value)
  {
    assert [column][1..] == [] && CustomValues(e, []) == Success("");
    assert CustomColumnValue(e, [column][0]) == Success(e.fields[column]);
    assert e.fields[column].value + "" == e.fields[column].value;
  }

  /** What is read for a custom column is the row's value in it: an insert has it in its fields, a delete in its
      before image, and an update in both images, since one that writes the column is refused. */
  lemma CustomValueIsTheRows(e: Event, column: string)
    ensures CustomColumnValue(e, column).Success? <==>
              match e.op
              case Create => column in e.fields
              case Update => column !in e.fields && e.before.Some? && column in e.before.value
              case Delete => e.before.Some? && column in e.before.value
    ensures CustomColumnValue(e, column).Success? && !e.op.Delete? ==>
              && e.After().Some? && column in e.After().value
              && CustomColumnValue(e, column).value == e.After().value[column]
    ensures CustomColumnValue(e, column).Success? && !e.op.Create? ==>
              CustomColumnValue(e, column).value == e.before.value[column]
    ensures CustomColumnValue(e, column) == Failure(ColumnNotImmutable(column)) <==> e.op.Update? && column in e.fields
  {
  }

  /** An event has a partition key if and only if its table has a strategy and, if that is a custom one,
      it has columns and each can be read. */
  lemma RoutableIff(strategies: map<string, Strategy>, e: Event)
    ensures PartitionKey(strategies, e).Success? <==>
              && e.table in strategies
              && (strategies[e.table].ByCustom? ==>
                    && strategies[e.table].columns != []
                    && forall c <- strategies[e.table].columns :: CustomColumnValue(e, c).Success?)
    ensures PartitionKey(strategies, e) == Failure(UnknownTable) ==> e.table !in strategies
  {
    if e.table in strategies && strategies[e.table].ByCustom? {
      CustomValuesReadable(e, strategies[e.table].columns);
      CustomValuesFail(e, strategies[e.table].columns);
    }
  }

  lemma {:induction false} CustomValuesFail(e: Event, columns: seq<string>)
    ensures CustomValues(e, columns) != Failure(UnknownTable) && CustomValues(e, columns) != Failure(NoCustomColumns)
  {
    if columns != [] {
      CustomValuesFail(e, columns[1..]);
    }
  }

  /** Events of two tables route apart if neither table's name begins with the other's. */
  lemma TablesRouteApart(strategies: map<string, Strategy>, e: Event, f: Event)
    requires PartitionKey(strategies, e).Success? && PartitionKey(strategies, f).Success?
    requires !(e.table <= f.table) && !(f.table <= e.table)
    ensures PartitionKey(strategies, e) != PartitionKey(strategies, f)
  {
    var a, b := PartitionKey(strategies, e).value, PartitionKey(strategies, f).value;
    assert e.table <= a && f.table <= b;
    if a == b {
      PrefixesNest(e.table, f.table, a);
    }
  }

  /** And if it does, they may share one. */
  lemma TablesMayMeet(strategies: map<string, Strategy>, e: Event, f: Event, rest: string)
    requires e.table in strategies && strategies[e.table].ByPk? && f.table in strategies && strategies[f.table].ByPk?
    requires f.table == e.table + rest && |e.key| == 1 && |f.key| == 1 && e.key[0].1 == rest + f.key[0].1
    ensures PartitionKey(strategies, e) == PartitionKey(strategies, f)
  {
    assert e.key[1..] == [] && f.key[1..] == [];
    assert ConcatValues(e.key) == e.key[0].1 && ConcatValues(f.key) == f.key[0].1;
    Associates(e.table, rest, f.key[0].1);
  }

  lemma PrefixesNest(x: string, y: string, whole: string)
    requires x <= whole && y <= whole
    ensures x <= y || y <= x
  {
    assert x == whole[..|x|] && y == whole[..|y|];
  }

  // ---------- the primary key as a conflict index of custom-key tables ----------

  /** The existing-index test: as many columns as the key, all of them key columns. */
  predicate CoversSameColumns(index: UniqueIndex, pkColumns: seq<string>) {
    && |index.columns| == |(set c | c in pkColumns)|
    && forall c <- index.columns :: c in pkColumns
  }

  /** The index looks at key columns; at each of them, unless it lists a column twice. */
  ghost predicate GuardsKey(index: UniqueIndex, pkColumns: seq<string>) {
    && index.columns != [] && (forall c <- index.columns :: c in pkColumns)
    && (NoDup(index.columns) ==> forall c <- pkColumns :: c in index.columns)
  }

  ghost predicate KeyGuarded(indexes: seq<UniqueIndex>, pkColumns: seq<string>) {
    exists index <- indexes :: GuardsKey(index, pkColumns)
  }

  function PkGuard(table: string, pkColumns: seq<string>): UniqueIndex {
    UniqueIndex(table + "_pk_conflict_guard", pkColumns, false, true)
  }

  predicate KeyIsCovered(indexes: seq<UniqueIndex>, pkColumns: seq<string>) {
    exists index <- indexes :: CoversSameColumns(index, pkColumns)
  }

  function WithKey(table: string, indexes: seq<UniqueIndex>, pkColumns: seq<string>): seq<UniqueIndex> {
    if KeyIsCovered(indexes, pkColumns) then indexes else indexes + [PkGuard(table, pkColumns)]
  }

  lemma CoveringGuards(index: UniqueIndex, pkColumns: seq<string>)
    requires pkColumns != [] && CoversSameColumns(index, pkColumns)
    ensures GuardsKey(index, pkColumns)
  {
    var have, want := set c <- index.columns, set c <- pkColumns;
    assert pkColumns[0] in want;
    NoDupIffAsLarge(index.columns);
    if NoDup(index.columns) {
      SameSize(have, want);
      assert forall c <- pkColumns :: c in want;
    }
  }

  lemma WithKeyIsGuarded(table: string, indexes: seq<UniqueIndex>, pkColumns: seq<string>)
    requires pkColumns != []
    ensures KeyGuarded(WithKey(table, indexes, pkColumns), pkColumns)
  {
    if index :| index in indexes && CoversSameColumns(index, pkColumns) {
      CoveringGuards(index, pkColumns);
    } else {
      assert PkGuard(table, pkColumns) in WithKey(table, indexes, pkColumns);
    }
  }

  /** Guarding a table's key a second time adds nothing. */
  lemma WithKeyAgain(table: string, indexes: seq<UniqueIndex>, pkColumns: seq<string>)
    requires NoDup(pkColumns)
    ensures KeyIsCovered(WithKey(table, indexes, pkColumns), pkColumns)
  {
    NoDupIffAsLarge(pkColumns);
    if !KeyIsCovered(indexes, pkColumns) {
      assert CoversSameColumns(PkGuard(table, pkColumns), pkColumns);
      assert PkGuard(table, pkColumns) in WithKey(table, indexes, pkColumns);
    }
  }

  /** No name holds a NUL byte, and the names of a table's indexes are distinct. */
  ghost predicate WellNamed(table: string, indexes: seq<UniqueIndex>) {
    && NUL !in table
    && (forall i <- indexes :: NUL !in i.name)
    && (forall i, j :: 0 <= i < j < |indexes| ==> indexes[i].name != indexes[j].name)
  }

  /** Index names stay distinct if and only if no other index has the name of the added one. */
  lemma WellNamedWithKeyIff(table: string, indexes: seq<UniqueIndex>, pkColumns: seq<string>)
    ensures WellNamed(table, WithKey(table, indexes, pkColumns)) <==>
              && WellNamed(table, indexes)
              && (KeyIsCovered(indexes, pkColumns) || forall i <- indexes :: i.name != table + "_pk_conflict_guard")
  {
    var guarded, guard := WithKey(table, indexes, pkColumns), PkGuard(table, pkColumns);
    assert forall i :: 0 <= i < |indexes| ==> guarded[i] == indexes[i];
    if !KeyIsCovered(indexes, pkColumns) {
      assert guarded[|indexes|] == guard;
      assert NUL !in table ==> NUL !in guard.name;
    }
  }

  datatype GuardError = NoPartitionKey(table: string) | NoPrimaryKey(table: string)

  function IndexesIn(tableToUniqueIndexes: map<string, seq<UniqueIndex>>, table: string): seq<UniqueIndex> {
    if table in tableToUniqueIndexes then tableToUniqueIndexes[table] else []
  }

  /** The table's key is guarded, by its earlier indexes or by one index over it. */
  ghost predicate KeyAdded(before: map<string, seq<UniqueIndex>>, after: map<string, seq<UniqueIndex>>,
                           pkColumns: map<string, seq<string>>, table: string) {
    && table in after && table in pkColumns && KeyGuarded(after[table], pkColumns[table])
    && (NoDup(pkColumns[table]) ==> after[table] == WithKey(table, IndexesIn(before, table), pkColumns[table]))
  }

  /** The tables with a custom partition key. */
  function CustomTables(strategies: map<string, Strategy>, tables: seq<string>): (r: seq<string>)
    ensures forall t :: t in r <==> t in tables && t in strategies && strategies[t].ByCustom?
  {
    if tables == [] then []
    else
      var last := tables[|tables| - 1];
      assert tables == tables[..|tables| - 1] + [last];
      CustomTables(strategies, tables[..|tables| - 1])
      + if last in strategies && strategies[last].ByCustom? then [last] else []
  }

  /** The keys of the given tables have been added, and nothing else. */
  ghost predicate KeysAdded(before: map<string, seq<UniqueIndex>>, after: map<string, seq<UniqueIndex>>,
                            pkColumns: map<string, seq<string>>, tables: seq<string>) {
    && (forall t <- tables :: KeyAdded(before, after, pkColumns, t))
    && (forall t <- before :: t in after && before[t] <= after[t])
    && (forall t <- after :: t in tables || (t in before && after[t] == before[t]))
  }

  lemma ThisKeyAdded(before: map<string, seq<UniqueIndex>>, after: map<string, seq<UniqueIndex>>,
                     pkColumns: map<string, seq<string>>, table: string, indexes: seq<UniqueIndex>)
    requires table in pkColumns && pkColumns[table] != []
    requires KeyAdded(before, after, pkColumns, table) || IndexesIn(after, table) == IndexesIn(before, table)
    requires indexes == WithKey(table, IndexesIn(after, table), pkColumns[table])
    ensures KeyAdded(before, after[table := indexes], pkColumns, table)
  {
    WithKeyIsGuarded(table, IndexesIn(after, table), pkColumns[table]);
    if NoDup(pkColumns[table]) {
      WithKeyAgain(table, IndexesIn(before, table), pkColumns[table]);
    }
  }

  lemma OtherKeyAdded(before: map<string, seq<UniqueIndex>>, after: map<string, seq<UniqueIndex>>,
                      pkColumns: map<string, seq<string>>, other: string, table: string, indexes: seq<UniqueIndex>)
    requires KeyAdded(before, after, pkColumns, other) && other != table
    ensures KeyAdded(before, after[table := indexes], pkColumns, other)
  {
  }

  lemma OneKeyAdded(before: map<string, seq<UniqueIndex>>, after: map<string, seq<UniqueIndex>>,
                    pkColumns: map<string, seq<string>>, tables: seq<string>, table: string)
    requires KeysAdded(before, after, pkColumns, tables) && table in pkColumns && pkColumns[table] != []
    ensures var indexes := WithKey(table, IndexesIn(after, table), pkColumns[table]);
            KeysAdded(before, after[table := indexes], pkColumns, tables + [table])
  {
    var indexes := WithKey(table, IndexesIn(after, table), pkColumns[table]);
    ThisKeyAdded(before, after, pkColumns, table, indexes);
    forall t <- tables + [table]
      ensures KeyAdded(before, after[table := indexes], pkColumns, t)
    {
      if t != table {
        OtherKeyAdded(before, after, pkColumns, t, table, indexes);
      }
    }
  }

  function KeysOf(pkColumns: map<string, seq<string>>, table: string): seq<string> {
    if table in pkColumns then pkColumns[table] else []
  }

  /** The indexes once the keys of the given tables have been added, one after the other. */
  function WithKeys(before: map<string, seq<UniqueIndex>>, pkColumns: map<string, seq<string>>, tables: seq<string>)
    : map<string, seq<UniqueIndex>>
  {
    if tables == [] then before
    else
      var after, last := WithKeys(before, pkColumns, tables[..|tables| - 1]), tables[|tables| - 1];
      after[last := WithKey(last, IndexesIn(after, last), KeysOf(pkColumns, last))]
  }

  lemma {:induction false} WithKeysAdds(before: map<string, seq<UniqueIndex>>, pkColumns: map<string, seq<string>>,
                                        tables: seq<string>)
    requires forall t <- tables :: KeysOf(pkColumns, t) != []
    ensures KeysAdded(before, WithKeys(before, pkColumns, tables), pkColumns, tables)
  {
    if tables != [] {
      var most, table := tables[..|tables| - 1], tables[|tables| - 1];
      assert tables == most + [table];
      WithKeysAdds(before, pkColumns, most);
      var after := WithKeys(before, pkColumns, most);
      assert KeysOf(pkColumns, table) != [];
      OneKeyAdded(before, after, pkColumns, most, table);
    }
  }

  method CollectCustomTables(importTables: seq<string>, strategies: map<string, Strategy>)
    returns (r: Result<seq<string>, GuardError>)
    ensures r.Failure? <==> exists t <- importTables :: t !in strategies
    ensures r.Success? ==> r.value == CustomTables(strategies, importTables)
  {
    var customTables: seq<string> := [];
    for i := 0 to |importTables|
      invariant forall t <- importTables[..i] :: t in strategies
      invariant customTables == CustomTables(strategies, importTables[..i])
    {
      assert importTables[..i + 1][..i] == importTables[..i];
      if importTables[i] !in strategies {
        return Failure(NoPartitionKey(importTables[i]));
      }
      if strategies[importTables[i]].ByCustom? {
        customTables := customTables + [importTables[i]];
      }
    }
    assert importTables[..|importTables|] == importTables;
    return Success(customTables);
  }

  method AddKeys(tableToUniqueIndexes: map<string, seq<UniqueIndex>>, customTables: seq<string>,
                 pkColumns: map<string, seq<string>>)
    returns (r: Result<map<string, seq<UniqueIndex>>, GuardError>)
    ensures r.Failure? <==> exists t <- customTables :: KeysOf(pkColumns, t) == []
    ensures r.Success? ==> r.value == WithKeys(tableToUniqueIndexes, pkColumns, customTables)
  {
    var out := tableToUniqueIndexes;
    for i := 0 to |customTables|
      invariant forall t <- customTables[..i] :: KeysOf(pkColumns, t) != []
      invariant out == WithKeys(tableToUniqueIndexes, pkColumns, customTables[..i])
    {
      var table := customTables[i];
      assert customTables[..i + 1][..i] == customTables[..i];
      if table !in pkColumns || pkColumns[table] == [] {
        assert customTables[i] in customTables && KeysOf(pkColumns, table) == [];
        return Failure(NoPrimaryKey(table));
      }
      var existing := IndexesIn(out, table);
      if KeyIsCovered(existing, pkColumns[table]) {
        assert out == out[table := existing];
        continue;
      }
      out := out[table := existing + [PkGuard(table, pkColumns[table])]];
    }
    assert customTables[..|customTables|] == customTables;
    return Success(out);
  }

  /** Adds the primary key of every custom-key table to its conflict indexes, unless an index over the same
      columns exists; fails exactly on a table without a partition key or, with a custom one, a primary key. */
  method AddPrimaryKeyToConflictSetForCustomTables(
    tableToUniqueIndexes: map<string, seq<UniqueIndex>>, importTables: seq<string>,
    strategies: map<string, Strategy>, pkColumns: map<string, seq<string>>)
    returns (r: Result<map<string, seq<UniqueIndex>>, GuardError>)
    ensures r.Failure? <==> exists t <- importTables ::
      t !in strategies || (strategies[t].ByCustom? && (t !in pkColumns || pkColumns[t] == []))
    ensures r.Success? ==>
              KeysAdded(tableToUniqueIndexes, r.value, pkColumns, CustomTables(strategies, importTables))
  {
    var customTables := CollectCustomTables(importTables, strategies);
    if customTables.Failure? {
      return Failure(customTables.error);
    }
    r := AddKeys(tableToUniqueIndexes, customTables.value, pkColumns);
    if r.Success? {
      WithKeysAdds(tableToUniqueIndexes, pkColumns, customTables.value);
    }
  }
}
