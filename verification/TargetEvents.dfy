/**
 Events exported from the target are checked by table and column, not by value. Which hand-overs of a
 unique-index entry from one row to another that rule sees, and which it does not.
 */
module TargetEvents {
  import opened Wrappers
  import opened Events
  import opened ConflictIndex
  import opened ConflictDetectionCache
  import opened SourceHistory

  /** The event takes its row off the entry. */
  predicate Releases(w: World, rows: Rows, e: Event, index: UniqueIndex, entry: Fields) {
    && Holds(w, index, At(rows, IdOf(e)), entry)
    && !Holds(w, index, At(Effect(rows, e), IdOf(e)), entry)
  }

  /** The event puts its row on the entry. */
  predicate Acquires(w: World, rows: Rows, e: Event, index: UniqueIndex, entry: Fields) {
    && !Holds(w, index, At(rows, IdOf(e)), entry)
    && Holds(w, index, At(Effect(rows, e), IdOf(e)), entry)
  }

  predicate IsTrue(w: World, rows: Rows, e: Event) {
    && Faithful(w, rows, e)
    && (IdOf(e) in rows ==> RowComplete(w, e.table, rows[IdOf(e)]))
  }

  /** The cached event leaves an entry of a unique index to the incoming one, which is about another row:
      each is true to the contents that it was made against. */
  predicate HandsOver(w: World, cached: Event, before: Rows, incoming: Event, later: Rows,
                      index: UniqueIndex, entry: Fields) {
    && IsTrue(w, before, cached) && IsTrue(w, later, incoming)
    && cached.table == incoming.table && cached.key != incoming.key
    && cached.table in w.cfg.indexes && index in w.cfg.indexes[cached.table]
    && Releases(w, before, cached, index, entry) && Acquires(w, later, incoming, index, entry)
  }

  /** Both events write some column of the table's unique indexes. */
  predicate WriteSameColumn(cfg: Config, cached: Event, incoming: Event) {
    && incoming.table in cfg.indexes
    && exists index <- cfg.indexes[incoming.table], c <- index.columns :: c in cached.fields && c in incoming.fields
  }

  /** A deleted or updated row alone can block, and only other rows of its table. */
  lemma NeverBlocks(cfg: Config, f: Flying, incoming: Event)
    requires incoming.fromTargetExporter
    requires forall vsn <- f.direct :: var cached := f.direct[vsn];
               || cached.table != incoming.table || cached.key == incoming.key || cached.op.Create?
               || (cached.op.Update? && !WriteSameColumn(cfg, cached, incoming))
    ensures Clear(cfg, f, incoming)
  {
  }

  /** An update that takes its row off an entry of an index without a predicate writes one of its columns. */
  lemma ReleaseWrites(w: World, rows: Rows, e: Event, index: UniqueIndex, entry: Fields)
    requires IsTrue(w, rows, e) && index in w.cfg.IndexesOf(e.table) && !index.isPartial && e.op.Update?
    requires Releases(w, rows, e, index, entry)
    ensures AnyColumnChanged(e.fields, index.columns)
  {
    if !AnyColumnChanged(e.fields, index.columns) {
      ValuesKept(rows[IdOf(e)], e.fields, entry, index);
    }
  }

  /** And so does an event that puts its row on one; an insert writes them all. */
  lemma AcquireWrites(w: World, rows: Rows, e: Event, index: UniqueIndex, entry: Fields)
    requires IsTrue(w, rows, e) && index in w.cfg.IndexesOf(e.table) && !index.isPartial
    requires Acquires(w, rows, e, index, entry)
    ensures e.op.Create? ==> AllColumnsPresent(e.fields, index.columns)
    ensures e.op.Create? || (e.op.Update? && AnyColumnChanged(e.fields, index.columns))
  {
    if e.op.Update? && !AnyColumnChanged(e.fields, index.columns) {
      ValuesKept(rows[IdOf(e)], e.fields, entry, index);
    }
  }

  /**
   The incoming event waits for a cached one that leaves it an index entry if and only if the cached
   one is a delete or both write some column of the table's unique indexes.
   */
  lemma HandOverIsSeenIff(w: World, f: Flying, vsn: int, before: Rows, incoming: Event, later: Rows,
                          index: UniqueIndex, entry: Fields)
    requires incoming.fromTargetExporter && vsn in f.direct
    requires HandsOver(w, f.direct[vsn], before, incoming, later, index, entry)
    requires forall other <- f.direct :: other != vsn ==> !ConflictsByTable(w.cfg, f.direct[other], incoming)
    ensures !Clear(w.cfg, f, incoming) <==>
              f.direct[vsn].op.Delete? || WriteSameColumn(w.cfg, f.direct[vsn], incoming)
  {
    var cached := f.direct[vsn];
    assert cached.op.Delete? || cached.op.Update?;
  }

  /**
   So no hand-over is missed of an entry of an index without a predicate, if the cached event is a delete,
   or the incoming one an insert, or the index has one column.
   */
  lemma HandOverIsSeen(w: World, f: Flying, vsn: int, before: Rows, incoming: Event, later: Rows,
                       index: UniqueIndex, entry: Fields)
    requires incoming.fromTargetExporter && vsn in f.direct
    requires HandsOver(w, f.direct[vsn], before, incoming, later, index, entry)
    requires f.direct[vsn].op.Delete? ||
             (!index.isPartial && (incoming.op.Create? || forall c <- index.columns :: c == index.columns[0]))
    ensures !Clear(w.cfg, f, incoming)
  {
    var cached := f.direct[vsn];
    if !cached.op.Delete? {
      ReleaseWrites(w, before, cached, index, entry);
      AcquireWrites(w, later, incoming, index, entry);
      var c :| c in index.columns && c in cached.fields;
      assert c in incoming.fields;
    }
    assert ConflictsByTable(w.cfg, cached, incoming);
  }

  lemma OffTheEntry(index: UniqueIndex, row: Fields, entry: Fields, c: string)
    requires c in index.columns && c in row && c in entry && row[c] != entry[c]
    ensures !IndexValuesEqual(row, entry, index)
  {
  }

  /** Two updates that hand over an entry of an index over two columns by writing one column each are not
      seen: (1, 2) becomes (3, 2) in one row, and then (1, 5) becomes (1, 2) in another. */
  lemma HandOverIsMissed(w: World) returns (cached: Event, before: Rows, incoming: Event, later: Rows,
                                            index: UniqueIndex, entry: Fields)
    requires "t" in w.cfg.indexes && w.cfg.indexes["t"] == [UniqueIndex("u", ["a", "b"], false, false)]
    ensures HandsOver(w, cached, before, incoming, later, index, entry) && !index.isPartial
    ensures incoming.fromTargetExporter && Clear(w.cfg, Flying(map[1 := cached], map[]), incoming)
  {
    index := UniqueIndex("u", ["a", "b"], false, false);
    entry := map["a" := Some("1"), "b" := Some("2")];
    var row: Fields := map["a" := Some("1"), "b" := Some("5")];
    before, later := map[("t", [("id", "1")]) := entry], map[("t", [("id", "2")]) := row];
    cached := Event(1, Update, "t", [("id", "1")], map["a" := Some("3")], Some(entry), true);
    incoming := Event(2, Update, "t", [("id", "2")], map["b" := Some("2")], Some(row), true);
    assert index.columns[0] == "a" && index.columns[1] == "b";
    OffTheEntry(index, Effect(before, cached)[IdOf(cached)], entry, "a");
    OffTheEntry(index, row, entry, "b");
    assert Effect(later, incoming)[IdOf(incoming)] == entry;
  }

  /** Nor is one of an entry of a partial index, by an update that only takes its row out of the predicate. */
  lemma PartialHandOverIsMissed(w: World) returns (cached: Event, before: Rows, incoming: Event, later: Rows,
                                                   index: UniqueIndex, entry: Fields)
    requires "t" in w.cfg.indexes && w.cfg.indexes["t"] == [UniqueIndex("u", ["a"], true, false)]
    requires "t" in w.pkColumns && w.pkColumns["t"] == ["id"]
    requires forall row: Fields :: w.holds(UniqueIndex("u", ["a"], true, false), row) <==>
               "active" in row && row["active"] == Some("t")
    ensures HandsOver(w, cached, before, incoming, later, index, entry) && incoming.op.Create?
    ensures incoming.fromTargetExporter && Clear(w.cfg, Flying(map[1 := cached], map[]), incoming)
  {
    index := UniqueIndex("u", ["a"], true, false);
    entry := map["id" := Some("1"), "a" := Some("1"), "active" := Some("t")];
    before, later := map[("t", [("id", "1")]) := entry], map[];
    cached := Event(1, Update, "t", [("id", "1")], map["active" := Some("f")], Some(entry), true);
    incoming := Event(2, Create, "t", [("id", "2")], entry["id" := Some("2")], None, true);
    assert index.columns[0] == "a";
  }
}
