/**
 The commit history of the source database, the table contents it passes through, and
 which pairs of its events the importer must not reorder.
 */
module SourceHistory {
  import opened Wrappers
  import opened Events
  import opened BucketKey
  import opened Routing
  import opened ConflictIndex

  /** A row is identified by its table and primary-key values. */
  type RowId = (string, seq<(string, string)>)
  type Rows = map<RowId, Fields>

  datatype World = World(
    cfg: Config,
    pkColumns: map<string, seq<string>>,
    history: seq<Event>,
    initial: Rows,
    holds: (UniqueIndex, Fields) -> bool,  // predicate of a partial index
    channels: nat,
    capacity: nat,                         // of each event channel
    hash: string -> nat)

  function IdOf(e: Event): RowId { (e.table, e.key) }

  /** The statement of an event, run against some table contents. */
  function Effect(rows: Rows, e: Event): Rows {
    match e.op
    case Create => rows[IdOf(e) := e.fields]
    case Update => if IdOf(e) in rows then rows[IdOf(e) := rows[IdOf(e)] + e.fields] else rows
    case Delete => rows - {IdOf(e)}
  }

  /** Source contents after the first n events. */
  function Source(w: World, n: nat): Rows
    requires n <= |w.history|
  {
    if n == 0 then w.initial else Effect(Source(w, n - 1), w.history[n - 1])
  }

  function At(rows: Rows, id: RowId): Option<Fields> {
    if id in rows then Some(rows[id]) else None
  }

  // ---------- unique indexes ----------

  predicate InIndex(w: World, index: UniqueIndex, row: Fields) {
    index.isPartial ==> w.holds(index, row)
  }

  /** The two rows would collide in the index. */
  predicate SameEntry(w: World, index: UniqueIndex, a: Fields, b: Fields) {
    InIndex(w, index, a) && InIndex(w, index, b) && IndexValuesEqual(a, b, index)
  }

  /** No two rows of a table share an entry of one of its unique indexes. */
  ghost predicate UniqueRows(w: World, rows: Rows) {
    forall a, b, index ::
      && a in rows && b in rows && a != b && a.0 == b.0
      && a.0 in w.cfg.indexes && index in w.cfg.indexes[a.0]
      ==> !SameEntry(w, index, rows[a], rows[b])
  }

  // ---------- what the importer may rely on ----------

  predicate RowComplete(w: World, table: string, row: Fields) {
    forall index <- w.cfg.IndexesOf(table) :: AllColumnsPresent(row, index.columns)
  }

  predicate RowKeyed(w: World, id: RowId, row: Fields) {
    && (forall p <- id.1 :: p.0 in row && row[p.0] == Some(p.1))
    && id.0 in w.pkColumns
    && (forall c <- w.pkColumns[id.0] :: exists p <- id.1 :: p.0 == c)
  }

  /** The event states the change it makes to the given contents: an insert meets no row,
      an update or delete carries the row's before image and keeps its key. */
  predicate Faithful(w: World, rows: Rows, e: Event) {
    match e.op
    case Create =>
      IdOf(e) !in rows && e.before.None? && RowComplete(w, e.table, e.fields) && RowKeyed(w, IdOf(e), e.fields)
    case Update =>
      && IdOf(e) in rows && e.before == Some(rows[IdOf(e)])
      && (forall p <- e.key :: p.0 in e.fields ==> e.fields[p.0] == Some(p.1))
    case Delete =>
      IdOf(e) in rows && e.before == Some(rows[IdOf(e)])
  }

  ghost predicate Wellformed(w: World) {
    && w.channels > 0 && w.capacity > 0
    && (forall e <- w.history :: !e.fromTargetExporter)
    && w.cfg.Wellformed()
    && (forall id <- w.initial :: RowComplete(w, id.0, w.initial[id]) && RowKeyed(w, id, w.initial[id]))
    && (forall i {:trigger Faithful(w, Source(w, i), w.history[i])} :: 0 <= i < |w.history| ==>
          Faithful(w, Source(w, i), w.history[i]))
    && (forall i, j :: 0 <= i < j < |w.history| ==> w.history[i].vsn != w.history[j].vsn)
    && (forall i {:trigger UniqueRows(w, Source(w, i))} :: 0 <= i <= |w.history| ==> UniqueRows(w, Source(w, i)))
    && (forall t :: t in w.cfg.strategies && w.cfg.strategies[t].ByCustom? && t in w.pkColumns ==>
          KeyGuarded(w.cfg.IndexesOf(t), w.pkColumns[t]))
  }

  lemma FaithfulAt(w: World, i: nat)
    requires Wellformed(w) && i < |w.history|
    ensures Faithful(w, Source(w, i), w.history[i])
  {
    assert Faithful(w, Source(w, i), w.history[i]);
  }

  predicate GoodRow(w: World, rows: Rows, id: RowId) {
    id in rows ==> RowComplete(w, id.0, rows[id]) && RowKeyed(w, id, rows[id])
  }

  lemma EffectKeepsGood(w: World, rows: Rows, e: Event, id: RowId)
    requires Faithful(w, rows, e) && GoodRow(w, rows, id)
    ensures GoodRow(w, Effect(rows, e), id)
  {
  }

  /** Every row always has its index columns and the values of its key. */
  lemma {:induction false} RowsComplete(w: World, n: nat, id: RowId)
    requires Wellformed(w) && n <= |w.history|
    ensures GoodRow(w, Source(w, n), id)
  {
    if n > 0 {
      FaithfulAt(w, n - 1);
      RowsComplete(w, n - 1, id);
      EffectKeepsGood(w, Source(w, n - 1), w.history[n - 1], id);
    }
  }

  /** An event leaves every other row alone. */
  lemma EffectElsewhere(rows: Rows, e: Event, id: RowId)
    requires id != IdOf(e)
    ensures At(Effect(rows, e), id) == At(rows, id)
  {
  }

  /** A row keeps its contents while no event touches it. */
  lemma {:induction false} Untouched(w: World, m: nat, n: nat, id: RowId)
    requires m <= n <= |w.history|
    requires forall i :: m <= i < n ==> IdOf(w.history[i]) != id
    ensures At(Source(w, n), id) == At(Source(w, m), id)
    decreases n
  {
    if m < n {
      Untouched(w, m, n - 1, id);
      EffectElsewhere(Source(w, n - 1), w.history[n - 1], id);
    }
  }

  // ---------- which events must stay in order ----------

  /** Position j must not be overtaken by position i: same partition, or i waits for j. */
  predicate Linked(w: World, j: nat, i: nat)
    requires j < |w.history| && i < |w.history|
  {
    || PartitionKey(w.cfg.strategies, w.history[j]) == PartitionKey(w.cfg.strategies, w.history[i])
    || (!w.history[i].op.Delete? && Conflicts(w.cfg, w.history[j], w.history[i]))
  }

  /** The row sits on the entry that `entry` describes. */
  predicate Holds(w: World, index: UniqueIndex, row: Option<Fields>, entry: Fields) {
    row.Some? && InIndex(w, index, row.value) && IndexValuesEqual(row.value, entry, index)
  }

  lemma ValuesEqualVia(a: Fields, entry: Fields, b: Fields, index: UniqueIndex)
    requires IndexValuesEqual(a, entry, index) && IndexValuesEqual(b, entry, index)
    ensures IndexValuesEqual(a, b, index)
  {
  }

  /** An update that changes no index column keeps the row's values in the index. */
  lemma ValuesKept(before: Fields, changes: Fields, entry: Fields, index: UniqueIndex)
    requires AllColumnsPresent(before, index.columns)
    requires !AnyColumnChanged(changes, index.columns)
    ensures IndexValuesEqual(before + changes, entry, index) <==> IndexValuesEqual(before, entry, index)
  {
    forall c <- index.columns ensures c in before + changes && (before + changes)[c] == before[c] {
    }
  }

  lemma ReleaseIsFiled(w: World, b: nat, index: UniqueIndex, entry: Fields)
    requires Wellformed(w) && b < |w.history|
    requires index in w.cfg.IndexesOf(w.history[b].table)
    requires Holds(w, index, At(Source(w, b), IdOf(w.history[b])), entry)
    requires !Holds(w, index, At(Source(w, b + 1), IdOf(w.history[b])), entry)
    ensures w.history[b].before == At(Source(w, b), IdOf(w.history[b]))
    ensures Filed(w.history[b], index)
  {
    var e := w.history[b];
    FaithfulAt(w, b);
    var row := Source(w, b)[IdOf(e)];
    RowsComplete(w, b, IdOf(e));
    if e.op.Update? && !RelevantForUpdate(e, index) {
      ValuesKept(row, e.fields, entry, index);
      assert false;
    }
    KeyComputable(e.table, e.before, index);
  }

  /** The event that takes an entry is found by the probe for the released values. */
  lemma AcquireIsProbed(w: World, q: nat, index: UniqueIndex, entry: Fields)
    requires Wellformed(w) && q < |w.history|
    requires index in w.cfg.IndexesOf(w.history[q].table)
    requires !Holds(w, index, At(Source(w, q), IdOf(w.history[q])), entry)
    requires Holds(w, index, At(Source(w, q + 1), IdOf(w.history[q])), entry)
    ensures !w.history[q].op.Delete?
    ensures || (ProbesAfter(w.history[q], index) && IndexValuesEqual(w.history[q].After().GetOr(map[]), entry, index))
            || (ProbesBefore(w.history[q], index) && IndexValuesEqual(w.history[q].Before(), entry, index))
  {
    var e := w.history[q];
    FaithfulAt(w, q);
    if e.op.Update? && !ProbesAfter(e, index) {
      RowsComplete(w, q, IdOf(e));
      ValuesKept(e.Before(), e.fields, entry, index);
    }
  }

  /** An event that releases an index entry and a later one, on another row, that takes
      it are never reordered. */
  lemma ReleaseThenAcquire(w: World, b: nat, q: nat, index: UniqueIndex, entry: Fields)
    requires Wellformed(w) && b < |w.history| && q < |w.history|
    requires w.history[b].table == w.history[q].table && index in w.cfg.IndexesOf(w.history[b].table)
    requires Holds(w, index, At(Source(w, b), IdOf(w.history[b])), entry)
    requires !Holds(w, index, At(Source(w, b + 1), IdOf(w.history[b])), entry)
    requires !Holds(w, index, At(Source(w, q), IdOf(w.history[q])), entry)
    requires Holds(w, index, At(Source(w, q + 1), IdOf(w.history[q])), entry)
    ensures Linked(w, b, q)
  {
    var cached, incoming := w.history[b], w.history[q];
    ReleaseIsFiled(w, b, index, entry);
    AcquireIsProbed(w, q, index, entry);
    if ProbesAfter(incoming, index) && IndexValuesEqual(incoming.After().GetOr(map[]), entry, index) {
      ValuesEqualVia(cached.before.value, entry, incoming.After().GetOr(map[]), index);
    } else {
      ValuesEqualVia(cached.before.value, entry, incoming.Before(), index);
    }
    assert ConflictOn(index, cached, incoming);
  }

  /** The before image of a row's next event is the after image of the previous one. */
  lemma SuccessiveImages(w: World, j: nat, i: nat)
    requires Wellformed(w) && j < i < |w.history|
    requires IdOf(w.history[j]) == IdOf(w.history[i])
    requires forall k :: j < k < i ==> IdOf(w.history[k]) != IdOf(w.history[i])
    ensures w.history[j].op.Update? ==> w.history[j].before.Some?
    ensures w.history[i].before == w.history[j].After()
    ensures w.history[i].op.Create? <==> w.history[j].op.Delete?
  {
    FaithfulAt(w, j);
    FaithfulAt(w, i);
    Untouched(w, j + 1, i, IdOf(w.history[i]));
    ImagesMeet(w, Source(w, j), w.history[j], Source(w, i), w.history[i]);
  }

  lemma ImagesMeet(w: World, rows: Rows, e: Event, rows': Rows, f: Event)
    requires Faithful(w, rows, e) && Faithful(w, rows', f)
    requires IdOf(e) == IdOf(f) && At(rows', IdOf(e)) == At(Effect(rows, e), IdOf(e))
    ensures e.op.Update? ==> e.before.Some?
    ensures f.before == e.After()
    ensures f.op.Create? <==> e.op.Delete?
  {
  }

  /** Two successive events of a row are never reordered: they share a partition, or the
      first deletes the row and the second re-creates it and waits on the key guard. */
  lemma SuccessiveEventsLinked(w: World, j: nat, i: nat)
    requires Wellformed(w) && j < i < |w.history|
    requires IdOf(w.history[j]) == IdOf(w.history[i])
    requires forall k :: j < k < i ==> IdOf(w.history[k]) != IdOf(w.history[i])
    requires PartitionKey(w.cfg.strategies, w.history[j]).Success?
    requires PartitionKey(w.cfg.strategies, w.history[i]).Success?
    ensures Linked(w, j, i)
  {
    var first, second := w.history[j], w.history[i];
    if w.cfg.strategies[first.table].ByCustom? {
      SuccessiveImages(w, j, i);
      if second.op.Create? {
        RecycledKeyLinked(w, j, i);
      } else {
        CustomKeyStable(w.cfg, first, second);
      }
    }
  }

  /** Within one life of a row the custom key columns, and so the partition, are fixed. */
  lemma CustomKeyStable(cfg: Config, first: Event, second: Event)
    requires first.table == second.table && first.table in cfg.strategies && cfg.strategies[first.table].ByCustom?
    requires !first.op.Delete? && !second.op.Create?
    requires first.op.Update? ==> first.before.Some?
    requires second.before == first.After()
    requires PartitionKey(cfg.strategies, first).Success? && PartitionKey(cfg.strategies, second).Success?
    ensures PartitionKey(cfg.strategies, first) == PartitionKey(cfg.strategies, second)
  {
    var columns := cfg.strategies[first.table].columns;
    CustomValuesReadable(first, columns);
    CustomValuesReadable(second, columns);
    SameCustomValues(first, second, columns);
  }

  /** A deleted row's key and its re-insertion meet in the key-guard index. */
  lemma RecycledKeyLinked(w: World, j: nat, i: nat)
    requires Wellformed(w) && j < i < |w.history|
    requires IdOf(w.history[j]) == IdOf(w.history[i])
    requires w.history[j].op.Delete? && w.history[i].op.Create?
    requires w.history[i].table in w.cfg.strategies && w.cfg.strategies[w.history[i].table].ByCustom?
    ensures Linked(w, j, i)
  {
    var first, second := w.history[j], w.history[i];
    FaithfulAt(w, j);
    FaithfulAt(w, i);
    RowsComplete(w, j, IdOf(first));
    var t := first.table;
    var index :| index in w.cfg.IndexesOf(t) && GuardsKey(index, w.pkColumns[t]);
    forall c <- index.columns ensures first.Before()[c] == second.fields[c] && first.Before()[c].Some? {
      assert c in w.pkColumns[t];
      var p :| p in first.key && p.0 == c;
    }
    KeyComputable(t, first.before, index);
    assert ConflictOn(index, first, second);
  }
}
