/**
 Change events and unique-index descriptions as the importer sees them.
 A Go string is a `string` here, one `char` per byte; a nil column value is `None`.
 */
module Events {
  import opened Wrappers

  type Value = Option<string>
  type Fields = map<string, Value>

  datatype Op = Create | Update | Delete

  datatype UniqueIndex = UniqueIndex(
    name: string,
    columns: seq<string>,
    isPartial: bool,
    nullsNotDistinct: bool)

  /** `key` lists the primary-key columns with their values, in column-name order.
      `before` is None for a nil map. The after image is derived, see `After`. */
  datatype Event = Event(
    vsn: int,
    op: Op,
    table: string,
    key: seq<(string, string)>,
    fields: Fields,
    before: Option<Fields>,
    fromTargetExporter: bool)
  {
    function Before(): Fields { before.GetOr(map[]) }

    /** The after image built when an event is read from the queue. */
    function After(): Option<Fields> {
      match op
      case Create => Some(fields)
      case Update => Some(Before() + fields)
      case Delete => None
    }
  }

  /** Some index column occurs in the changed fields. */
  predicate AnyColumnChanged(fields: Fields, columns: seq<string>) {
    exists c <- columns :: c in fields
  }

  /** Some index column is present with a NULL value. */
  predicate AnyColumnNull(fields: Fields, columns: seq<string>) {
    exists c <- columns :: c in fields && fields[c].None?
  }

  predicate AllColumnsPresent(fields: Fields, columns: seq<string>) {
    forall c <- columns :: c in fields
  }

  /** An UPDATE matters to a partial index always, to any other index only when it
      changes one of the index's columns. */
  predicate RelevantForUpdate(e: Event, index: UniqueIndex) {
    index.isPartial || AnyColumnChanged(e.fields, index.columns)
  }

  /** Two column values count as equal under the index's NULLS [NOT] DISTINCT rule. */
  predicate ColumnValuesEqual(left: Value, right: Value, nullsNotDistinct: bool) {
    if nullsNotDistinct then left == right
    else left.Some? && right.Some? && left.value == right.value
  }

  /** Column-by-column equality of two images of a row on the columns of an index. */
  predicate IndexValuesEqual(left: Fields, right: Fields, index: UniqueIndex) {
    && AllColumnsPresent(left, index.columns)
    && AllColumnsPresent(right, index.columns)
    && forall c <- index.columns :: ColumnValuesEqual(left[c], right[c], index.nullsNotDistinct)
  }

  /** The values of the given columns, in order. */
  function Tuple(fields: Fields, columns: seq<string>): (t: seq<Value>)
    requires AllColumnsPresent(fields, columns)
    ensures |t| == |columns|
    ensures forall i :: 0 <= i < |t| ==> t[i] == fields[columns[i]]
  {
    if columns == [] then [] else [fields[columns[0]]] + Tuple(fields, columns[1..])
  }
}
