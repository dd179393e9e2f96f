/**
 The value-keyed index over in-flight events, as a value: `ukLookup` maps a bucket key to
 the events filed under it, `vsnToBuckets` remembers where each event was filed.
 Represents relates it to the plain set of in-flight events, and FindMatchesScan shows
 that a bucket lookup selects exactly the events a scan of that set would select.
 */
module ConflictIndex {
  import opened Wrappers
  import opened Events
  import opened BucketKey
  import opened Routing

  type Bucket = map<int, Event>

  datatype Lookup = Lookup(ukLookup: map<string, Bucket>, vsnToBuckets: map<int, seq<string>>)

  const EMPTY := Lookup(map[], map[])

  datatype Config = Config(indexes: map<string, seq<UniqueIndex>>, strategies: map<string, Strategy>)
  {
    function IndexesOf(table: string): seq<UniqueIndex> {
      if table in indexes then indexes[table] else []
    }

    /** Identifiers hold no NUL byte, and index names are distinct within a table. */
    ghost predicate Wellformed() {
      forall t <- indexes :: WellNamed(t, indexes[t])
    }
  }

  // ---------- which buckets an event is filed under ----------

  datatype Filing = Filing(keys: seq<string>, error: Option<KeyError>)

  /** The event is passed over for this index. */
  predicate Skipped(e: Event, index: UniqueIndex) {
    || (e.op.Update? && !RelevantForUpdate(e, index))
    || (!index.nullsNotDistinct && AnyColumnNull(e.Before(), index.columns))
  }

  /** The added key index is passed over only by updates that leave the key alone: never because of a NULL, and
      never by a delete. */
  lemma GuardIsSkippedIff(e: Event, table: string, pkColumns: seq<string>)
    ensures Skipped(e, PkGuard(table, pkColumns)) <==> e.op.Update? && forall c <- pkColumns :: c !in e.fields
  {
  }

  /** Keys in index order, up to the first index whose key cannot be computed. */
  function FilingOf(indexes: seq<UniqueIndex>, e: Event): Filing {
    if indexes == [] then Filing([], None)
    else if Skipped(e, indexes[0]) then FilingOf(indexes[1..], e)
    else match KeyOf(e.table, e.before, indexes[0])
      case Failure(err) => Filing([], Some(err))
      case Success(key) =>
        var rest := FilingOf(indexes[1..], e);
        Filing([key] + rest.keys, rest.error)
  }

  /** The event is filed under the index's bucket for its before image. */
  predicate Filed(e: Event, index: UniqueIndex) {
    !Skipped(e, index) && KeyOf(e.table, e.before, index).Success?
  }

  lemma {:induction false} FilingMembers(indexes: seq<UniqueIndex>, e: Event, key: string)
    requires FilingOf(indexes, e).error.None?
    ensures key in FilingOf(indexes, e).keys <==>
            exists index <- indexes :: Filed(e, index) && KeyOf(e.table, e.before, index) == Success(key)
  {
    if indexes != [] {
      FilingMembers(indexes[1..], e, key);
      assert indexes == [indexes[0]] + indexes[1..];
    }
  }

  lemma {:induction false} FilingSucceeds(indexes: seq<UniqueIndex>, e: Event)
    requires e.before.Some?
    requires forall index <- indexes :: AllColumnsPresent(e.before.value, index.columns)
    ensures FilingOf(indexes, e).error.None?
  {
    if indexes != [] {
      KeyComputable(e.table, e.before, indexes[0]);
      assert indexes[0] in indexes;
      FilingSucceeds(indexes[1..], e);
    }
  }

  // ---------- the two maps ----------

  predicate InBucket(l: Lookup, key: string, vsn: int) {
    key in l.ukLookup && vsn in l.ukLookup[key]
  }

  predicate Recorded(l: Lookup, vsn: int, key: string) {
    vsn in l.vsnToBuckets && key in l.vsnToBuckets[vsn]
  }

  /** The two maps are mutually inverse and hold nothing empty. */
  ghost predicate Inverse(l: Lookup) {
    && (forall key <- l.ukLookup :: l.ukLookup[key] != map[])
    && (forall vsn <- l.vsnToBuckets :: l.vsnToBuckets[vsn] != [])
    && (forall key, vsn :: InBucket(l, key, vsn) <==> Recorded(l, vsn, key))
  }

  function File(l: Lookup, key: string, e: Event): Lookup {
    var bucket := if key in l.ukLookup then l.ukLookup[key] else map[];
    var keys := if e.vsn in l.vsnToBuckets then l.vsnToBuckets[e.vsn] else [];
    Lookup(l.ukLookup[key := bucket[e.vsn := e]], l.vsnToBuckets[e.vsn := keys + [key]])
  }

  function FileAll(l: Lookup, keys: seq<string>, e: Event): Lookup
    decreases |keys|
  {
    if keys == [] then l else FileAll(File(l, keys[0], e), keys[1..], e)
  }

  /** One bucket loses the event; an emptied bucket is dropped. */
  function Unfile(m: map<string, Bucket>, key: string, vsn: int): map<string, Bucket> {
    if key !in m then m
    else
      var bucket := m[key] - {vsn};
      if |bucket| == 0 then m - {key} else m[key := bucket]
  }

  function UnfileAll(m: map<string, Bucket>, keys: seq<string>, vsn: int): map<string, Bucket>
    decreases |keys|
  {
    if keys == [] then m else UnfileAll(Unfile(m, keys[0], vsn), keys[1..], vsn)
  }

  function Remove(l: Lookup, vsn: int): Lookup {
    if vsn !in l.vsnToBuckets then l
    else Lookup(UnfileAll(l.ukLookup, l.vsnToBuckets[vsn], vsn), l.vsnToBuckets - {vsn})
  }

  lemma FileKeepsInverse(l: Lookup, key: string, e: Event)
    requires Inverse(l)
    ensures Inverse(File(l, key, e))
  {
    var l' := File(l, key, e);
    forall k, v ensures InBucket(l', k, v) <==> Recorded(l', v, k) {
      assert InBucket(l, k, v) <==> Recorded(l, v, k);
    }
    assert e.vsn in l'.ukLookup[key];
    forall k <- l'.ukLookup ensures l'.ukLookup[k] != map[] {
    }
  }

  /** Filing an event, even only under its first few keys, keeps the maps inverse. */
  lemma {:induction false} FileAllKeepsInverse(l: Lookup, keys: seq<string>, e: Event)
    requires Inverse(l)
    ensures Inverse(FileAll(l, keys, e))
    decreases |keys|
  {
    if keys != [] {
      FileKeepsInverse(l, keys[0], e);
      FileAllKeepsInverse(File(l, keys[0], e), keys[1..], e);
    }
  }

  /** Pointwise meaning of filing under several keys. */
  lemma {:induction false} FileAllAt(l: Lookup, keys: seq<string>, e: Event, key: string, vsn: int)
    ensures InBucket(FileAll(l, keys, e), key, vsn) <==> InBucket(l, key, vsn) || (vsn == e.vsn && key in keys)
    ensures InBucket(FileAll(l, keys, e), key, vsn) ==>
            FileAll(l, keys, e).ukLookup[key][vsn] ==
            if vsn == e.vsn && key in keys then e else l.ukLookup[key][vsn]
    decreases |keys|
  {
    if keys != [] {
      FileAllAt(File(l, keys[0], e), keys[1..], e, key, vsn);
      assert keys == [keys[0]] + keys[1..];
    }
  }

  /** Filing records exactly the new keys behind the event's earlier ones. */
  lemma {:induction false} FileAllRecords(l: Lookup, keys: seq<string>, e: Event)
    requires keys != []
    ensures FileAll(l, keys, e).vsnToBuckets ==
            l.vsnToBuckets[e.vsn := (if e.vsn in l.vsnToBuckets then l.vsnToBuckets[e.vsn] else []) + keys]
    decreases |keys|
  {
    var l1 := File(l, keys[0], e);
    if |keys| == 1 {
      assert keys == [keys[0]];
    } else {
      FileAllRecords(l1, keys[1..], e);
      var was := if e.vsn in l.vsnToBuckets then l.vsnToBuckets[e.vsn] else [];
      assert was + [keys[0]] + keys[1..] == was + keys;
    }
  }

  lemma {:induction false} UnfileAllKeepsNonEmpty(m: map<string, Bucket>, keys: seq<string>, vsn: int)
    requires forall k <- m :: m[k] != map[]
    ensures forall k <- UnfileAll(m, keys, vsn) :: UnfileAll(m, keys, vsn)[k] != map[]
    decreases |keys|
  {
    if keys != [] {
      UnfileStep(m, keys[0], vsn);
      UnfileAllKeepsNonEmpty(Unfile(m, keys[0], vsn), keys[1..], vsn);
    }
  }

  /** What removing the event leaves of a bucket. */
  function Left(m: map<string, Bucket>, key: string, vsn: int): Option<Bucket> {
    if key !in m || m[key].Keys <= {vsn} then None else Some(m[key] - {vsn})
  }

  function BucketOf(m: map<string, Bucket>, key: string): Option<Bucket> {
    if key in m then Some(m[key]) else None
  }

  /** Pointwise meaning of removing an event from several buckets. */
  lemma {:induction false} UnfileAllAt(m: map<string, Bucket>, keys: seq<string>, vsn: int, key: string)
    requires forall k <- m :: m[k] != map[]
    ensures BucketOf(UnfileAll(m, keys, vsn), key) == if key in keys then Left(m, key, vsn) else BucketOf(m, key)
    decreases |keys|
  {
    if keys != [] {
      var m1 := Unfile(m, keys[0], vsn);
      UnfileStep(m, keys[0], vsn);
      UnfileAllAt(m1, keys[1..], vsn, key);
      assert key in keys <==> key == keys[0] || key in keys[1..];
      if key in m && key == keys[0] {
        LeftTwice(m, m1, key, vsn);
      }
    }
  }

  lemma LeftTwice(m: map<string, Bucket>, m1: map<string, Bucket>, key: string, vsn: int)
    requires key in m && BucketOf(m1, key) == Left(m, key, vsn)
    ensures Left(m1, key, vsn) == Left(m, key, vsn)
  {
    if key in m1 {
      assert m1[key].Keys == m[key].Keys - {vsn};
      assert m1[key] - {vsn} == m1[key];
    }
  }

  lemma UnfileStep(m: map<string, Bucket>, key: string, vsn: int)
    requires forall k <- m :: m[k] != map[]
    ensures var m' := Unfile(m, key, vsn);
            && (forall k <- m' :: m'[k] != map[])
            && (forall k :: k != key ==> BucketOf(m', k) == BucketOf(m, k))
            && BucketOf(m', key) == Left(m, key, vsn)
  {
    if key in m {
      var b := m[key] - {vsn};
      assert b.Keys == m[key].Keys - {vsn};
      if m[key].Keys <= {vsn} {
        assert b.Keys == {};
      } else {
        assert b.Keys != {};
      }
    }
  }

  lemma RemoveAt(l: Lookup, vsn: int, key: string, v: int)
    requires Inverse(l)
    ensures InBucket(Remove(l, vsn), key, v) <==> InBucket(l, key, v) && v != vsn
    ensures InBucket(Remove(l, vsn), key, v) ==> Remove(l, vsn).ukLookup[key][v] == l.ukLookup[key][v]
  {
    assert InBucket(l, key, vsn) <==> Recorded(l, vsn, key);
    if vsn in l.vsnToBuckets {
      UnfileAllAt(l.ukLookup, l.vsnToBuckets[vsn], vsn, key);
    }
  }

  lemma RemoveKeepsInverse(l: Lookup, vsn: int)
    requires Inverse(l)
    ensures Inverse(Remove(l, vsn))
  {
    var l' := Remove(l, vsn);
    forall key, v ensures InBucket(l', key, v) <==> Recorded(l', v, key) {
      RemoveAt(l, vsn, key, v);
      assert InBucket(l, key, v) <==> Recorded(l, v, key);
    }
    if vsn in l.vsnToBuckets {
      UnfileAllKeepsNonEmpty(l.ukLookup, l.vsnToBuckets[vsn], vsn);
    }
  }

  /** Removing a freshly filed event restores both maps. */
  lemma FileThenRemove(l: Lookup, keys: seq<string>, e: Event)
    requires Inverse(l) && e.vsn !in l.vsnToBuckets
    ensures Remove(FileAll(l, keys, e), e.vsn) == l
  {
    if keys != [] {
      FileAllRecords(l, keys, e);
      assert Remove(FileAll(l, keys, e), e.vsn).vsnToBuckets == l.vsnToBuckets;
      BucketsRestored(l, keys, e);
    }
  }

  lemma BucketsRestored(l: Lookup, keys: seq<string>, e: Event)
    requires Inverse(l) && e.vsn !in l.vsnToBuckets
    ensures Remove(FileAll(l, keys, e), e.vsn).ukLookup == l.ukLookup
  {
    var m := Remove(FileAll(l, keys, e), e.vsn).ukLookup;
    forall key ensures (key in m <==> key in l.ukLookup) && (key in m ==> m[key] == l.ukLookup[key]) {
      BucketRestored(l, keys, e, key);
    }
  }

  lemma BucketRestored(l: Lookup, keys: seq<string>, e: Event, key: string)
    requires Inverse(l) && e.vsn !in l.vsnToBuckets
    ensures var m := Remove(FileAll(l, keys, e), e.vsn).ukLookup;
            (key in m <==> key in l.ukLookup) && (key in m ==> m[key] == l.ukLookup[key])
  {
    var l1 := FileAll(l, keys, e);
    var l2 := Remove(l1, e.vsn);
    FileAllKeepsInverse(l, keys, e);
    RemoveKeepsInverse(l1, e.vsn);
    forall v ensures (InBucket(l2, key, v) <==> InBucket(l, key, v)) &&
                     (InBucket(l, key, v) ==> l2.ukLookup[key][v] == l.ukLookup[key][v]) {
      FileAllAt(l, keys, e, key, v);
      RemoveAt(l1, e.vsn, key, v);
      assert InBucket(l, key, v) <==> Recorded(l, v, key);
    }
    if key in l.ukLookup {
      var v := SomeKey(l.ukLookup[key]);
      assert InBucket(l2, key, v);
    }
    if key in l2.ukLookup {
      var v := SomeKey(l2.ukLookup[key]);
      assert InBucket(l, key, v);
      forall v ensures v in l2.ukLookup[key] <==> v in l.ukLookup[key] {
        assert InBucket(l2, key, v) <==> InBucket(l, key, v);
      }
      forall v <- l2.ukLookup[key] ensures l2.ukLookup[key][v] == l.ukLookup[key][v] {
        assert InBucket(l, key, v);
      }
      assert l2.ukLookup[key] == l.ukLookup[key];
    }
  }

  // ---------- the set of in-flight events the index stands for ----------

  /** `inflight` is exactly what is filed, each event under all its keys. */
  ghost predicate Represents(cfg: Config, l: Lookup, inflight: map<int, Event>) {
    && Inverse(l)
    && (forall vsn <- inflight ::
          && inflight[vsn].vsn == vsn
          && FilingOf(cfg.IndexesOf(inflight[vsn].table), inflight[vsn]).error.None?)
    && (forall key, vsn :: InBucket(l, key, vsn) <==>
          vsn in inflight && key in FilingOf(cfg.IndexesOf(inflight[vsn].table), inflight[vsn]).keys)
    && (forall key, vsn :: InBucket(l, key, vsn) && vsn in inflight ==> l.ukLookup[key][vsn] == inflight[vsn])
  }

  lemma EmptyRepresents(cfg: Config)
    ensures Represents(cfg, EMPTY, map[])
  {
  }

  /** An event that files without error joins the in-flight set. */
  lemma PutRepresents(cfg: Config, l: Lookup, inflight: map<int, Event>, e: Event)
    requires Represents(cfg, l, inflight) && e.vsn !in inflight
    requires FilingOf(cfg.IndexesOf(e.table), e).error.None?
    ensures Represents(cfg, FileAll(l, FilingOf(cfg.IndexesOf(e.table), e).keys, e), inflight[e.vsn := e])
  {
    var keys := FilingOf(cfg.IndexesOf(e.table), e).keys;
    var l', f' := FileAll(l, keys, e), inflight[e.vsn := e];
    FileAllKeepsInverse(l, keys, e);
    forall key, vsn
      ensures InBucket(l', key, vsn) <==>
              vsn in f' && key in FilingOf(cfg.IndexesOf(f'[vsn].table), f'[vsn]).keys
      ensures InBucket(l', key, vsn) && vsn in f' ==> l'.ukLookup[key][vsn] == f'[vsn]
    {
      FileAllAt(l, keys, e, key, vsn);
      assert InBucket(l, key, vsn) ==> vsn in inflight;
    }
  }

  /** A removed event leaves the in-flight set. */
  lemma RemoveRepresents(cfg: Config, l: Lookup, inflight: map<int, Event>, vsn: int)
    requires Represents(cfg, l, inflight)
    ensures Represents(cfg, Remove(l, vsn), inflight - {vsn})
  {
    var l', f' := Remove(l, vsn), inflight - {vsn};
    RemoveKeepsInverse(l, vsn);
    forall key, v
      ensures InBucket(l', key, v) <==>
              v in f' && key in FilingOf(cfg.IndexesOf(f'[v].table), f'[v]).keys
      ensures InBucket(l', key, v) && v in f' ==> l'.ukLookup[key][v] == f'[v]
    {
      RemoveAt(l, vsn, key, v);
      assert InBucket(l, key, v) ==> v in inflight;
    }
  }

  // ---------- the scan the lookup must agree with ----------

  /** The after image of the incoming event is looked up for this index. */
  predicate ProbesAfter(e: Event, index: UniqueIndex) {
    e.op.Create? || (e.op.Update? && AnyColumnChanged(e.fields, index.columns))
  }

  /** The before image of the incoming event is looked up for this index. */
  predicate ProbesBefore(e: Event, index: UniqueIndex) {
    e.op.Update? && index.isPartial
  }

  /** The stated rule for one index: the released values are the claimed ones
      (before-after), or both rows sit on them in a partial index (before-before). */
  predicate ConflictOn(index: UniqueIndex, cached: Event, incoming: Event) {
    && Filed(cached, index)
    && cached.before.Some?
    && ((ProbesAfter(incoming, index) && IndexValuesEqual(cached.before.value, incoming.After().GetOr(map[]), index))
        || (ProbesBefore(incoming, index) && IndexValuesEqual(cached.before.value, incoming.Before(), index)))
  }

  /** The incoming event must wait for the cached one. */
  predicate Conflicts(cfg: Config, cached: Event, incoming: Event) {
    && cached.table == incoming.table
    && PartitionKey(cfg.strategies, cached) != PartitionKey(cfg.strategies, incoming)
    && exists index <- cfg.IndexesOf(incoming.table) :: ConflictOn(index, cached, incoming)
  }

  /** Over an index without a predicate, nothing waits for an update, and no update waits, that writes none of
      the index's columns; and the cached event's row was on the entry that the incoming one's row is put on. */
  lemma ConflictIsNeeded(index: UniqueIndex, cached: Event, incoming: Event)
    requires ConflictOn(index, cached, incoming) && !index.isPartial && !incoming.op.Delete?
    ensures cached.op.Update? ==> exists c <- index.columns :: c in cached.fields
    ensures incoming.op.Update? ==> exists c <- index.columns :: c in incoming.fields
    ensures cached.before.Some? && incoming.After().Some?
    ensures forall c <- index.columns ::
              && c in cached.before.value && c in incoming.After().value
              && cached.before.value[c] == incoming.After().value[c]
              && (cached.before.value[c].Some? || index.nullsNotDistinct)
  {
  }

  // ---------- the lookup ----------

  datatype MatchType = BeforeAfter | BeforeBefore | TableLevel

  datatype Conflict = Conflict(indexName: string, vsns: set<int>, columns: seq<string>, matchType: MatchType)

  datatype FindError =
    | IncomingDelete
    | KeyFailed(keyError: KeyError)
    | IncomingRouteFailed(routeError: RouteError)
    | CachedRouteFailed

  function BucketAt(l: Lookup, key: string): Bucket {
    if key in l.ukLookup then l.ukLookup[key] else map[]
  }

  /** Events of one bucket that route to another partition. */
  function Others(cfg: Config, bucket: Bucket, incoming: Event): Result<set<int>, FindError> {
    match PartitionKey(cfg.strategies, incoming)
    case Failure(err) => Failure(IncomingRouteFailed(err))
    case Success(mine) =>
      if exists vsn <- bucket :: PartitionKey(cfg.strategies, bucket[vsn]).Failure? then Failure(CachedRouteFailed)
      else Success(set vsn | vsn in bucket && PartitionKey(cfg.strategies, bucket[vsn]) != Success(mine))
  }

  /** A bucket is refused if and only if the incoming event or one of its own cannot be routed. */
  lemma OthersFailIff(cfg: Config, bucket: Bucket, incoming: Event)
    ensures Others(cfg, bucket, incoming).Failure? <==>
              || PartitionKey(cfg.strategies, incoming).Failure?
              || exists vsn <- bucket :: PartitionKey(cfg.strategies, bucket[vsn]).Failure?
    ensures Others(cfg, bucket, incoming) != Failure(IncomingDelete)
  {
  }

  lemma {:induction false} CheckAllNotRefused(cfg: Config, l: Lookup, incoming: Event, indexes: seq<UniqueIndex>)
    ensures CheckAll(cfg, l, incoming, indexes) != Failure(IncomingDelete)
  {
    if indexes != [] {
      CheckAllNotRefused(cfg, l, incoming, indexes[1..]);
    }
  }

  function CheckImage(cfg: Config, l: Lookup, incoming: Event, image: Option<Fields>, index: UniqueIndex)
    : Result<set<int>, FindError>
  {
    if !index.nullsNotDistinct && AnyColumnNull(image.GetOr(map[]), index.columns) then Success({})
    else match KeyOf(incoming.table, image, index)
      case Failure(err) => Failure(KeyFailed(err))
      case Success(key) => Others(cfg, BucketAt(l, key), incoming)
  }

  function Report(index: UniqueIndex, vsns: set<int>, matchType: MatchType): seq<Conflict> {
    if vsns == {} then [] else [Conflict(index.name, vsns, index.columns, matchType)]
  }

  function CheckIndex(cfg: Config, l: Lookup, incoming: Event, index: UniqueIndex): Result<seq<Conflict>, FindError> {
    var after := if ProbesAfter(incoming, index)
                 then CheckImage(cfg, l, incoming, incoming.After(), index) else Success({});
    match after
    case Failure(err) => Failure(err)
    case Success(a) =>
      var before := if ProbesBefore(incoming, index)
                    then CheckImage(cfg, l, incoming, incoming.before, index) else Success({});
      match before
      case Failure(err) => Failure(err)
      case Success(b) => Success(Report(index, a, BeforeAfter) + Report(index, b, BeforeBefore))
  }

  function CheckAll(cfg: Config, l: Lookup, incoming: Event, indexes: seq<UniqueIndex>)
    : Result<seq<Conflict>, FindError>
  {
    if indexes == [] then Success([])
    else match CheckIndex(cfg, l, incoming, indexes[0])
      case Failure(err) => Failure(err)
      case Success(first) =>
        match CheckAll(cfg, l, incoming, indexes[1..])
        case Failure(err) => Failure(err)
        case Success(rest) => Success(first + rest)
  }

  function Find(cfg: Config, l: Lookup, incoming: Event): Result<seq<Conflict>, FindError> {
    if incoming.op.Delete? then Failure(IncomingDelete)
    else CheckAll(cfg, l, incoming, cfg.IndexesOf(incoming.table))
  }

  /** Only inserts and updates are looked up. */
  lemma DeletesAreRefused(cfg: Config, l: Lookup, incoming: Event)
    ensures Find(cfg, l, incoming) == Failure(IncomingDelete) <==> incoming.op.Delete?
  {
    CheckAllNotRefused(cfg, l, incoming, cfg.IndexesOf(incoming.table));
  }

  predicate Reported(conflicts: seq<Conflict>, vsn: int) {
    exists c <- conflicts :: vsn in c.vsns
  }

  // ---------- lookup == scan ----------

  /** What one bucket lookup returns, in terms of the in-flight set. */
  lemma CheckImageMeaning(cfg: Config, l: Lookup, inflight: map<int, Event>, incoming: Event,
                          image: Option<Fields>, index: UniqueIndex, vsn: int)
    requires cfg.Wellformed() && Represents(cfg, l, inflight)
    requires index in cfg.IndexesOf(incoming.table)
    requires CheckImage(cfg, l, incoming, image, index).Success?
    ensures vsn in CheckImage(cfg, l, incoming, image, index).value <==>
            && vsn in inflight
            && inflight[vsn].table == incoming.table
            && PartitionKey(cfg.strategies, inflight[vsn]) != PartitionKey(cfg.strategies, incoming)
            && inflight[vsn].before.Some?
            && Filed(inflight[vsn], index)
            && IndexValuesEqual(inflight[vsn].before.value, image.GetOr(map[]), index)
  {
    if !index.nullsNotDistinct && AnyColumnNull(image.GetOr(map[]), index.columns) {
      var f := image.GetOr(map[]);
      var c :| c in index.columns && c in f && f[c].None?;
    } else {
      KeyComputable(incoming.table, image, index);
      var key := KeyOf(incoming.table, image, index).value;
      if vsn in inflight {
        var cached := inflight[vsn];
        FilingMembers(cfg.IndexesOf(cached.table), cached, key);
        if InBucket(l, key, vsn) {
          var index' :| index' in cfg.IndexesOf(cached.table) && Filed(cached, index') &&
                        KeyOf(cached.table, cached.before, index') == Success(key);
          SameKey(cfg, cached, index', incoming.table, image.value, index);
        }
        if cached.table == incoming.table && cached.before.Some? && Filed(cached, index) {
          SameKey(cfg, cached, index, incoming.table, image.value, index);
        }
      } else {
        assert !InBucket(l, key, vsn);
      }
    }
  }

  lemma SameKey(cfg: Config, cached: Event, index': UniqueIndex, table: string, image: Fields, index: UniqueIndex)
    requires cfg.Wellformed()
    requires index' in cfg.IndexesOf(cached.table) && index in cfg.IndexesOf(table)
    requires cached.before.Some? && KeyOf(cached.table, cached.before, index').Success?
    requires KeyOf(table, Some(image), index).Success?
    ensures KeyOf(cached.table, cached.before, index') == KeyOf(table, Some(image), index) <==>
            cached.table == table && index' == index && IndexValuesEqual(cached.before.value, image, index)
  {
    KeysEqualIffTuplesEqual(cached.table, cached.before.value, index', table, image, index);
  }

  lemma CheckIndexMeaning(cfg: Config, l: Lookup, inflight: map<int, Event>, incoming: Event, index: UniqueIndex,
                          vsn: int)
    requires cfg.Wellformed() && Represents(cfg, l, inflight)
    requires index in cfg.IndexesOf(incoming.table)
    requires CheckIndex(cfg, l, incoming, index).Success?
    ensures Reported(CheckIndex(cfg, l, incoming, index).value, vsn) <==>
            && vsn in inflight
            && inflight[vsn].table == incoming.table
            && PartitionKey(cfg.strategies, inflight[vsn]) != PartitionKey(cfg.strategies, incoming)
            && ConflictOn(index, inflight[vsn], incoming)
  {
    var after, before := {}, {};
    if ProbesAfter(incoming, index) {
      CheckImageMeaning(cfg, l, inflight, incoming, incoming.After(), index, vsn);
      after := CheckImage(cfg, l, incoming, incoming.After(), index).value;
    }
    if ProbesBefore(incoming, index) {
      CheckImageMeaning(cfg, l, inflight, incoming, incoming.before, index, vsn);
      before := CheckImage(cfg, l, incoming, incoming.before, index).value;
    }
    ReportedSplit(Report(index, after, BeforeAfter), Report(index, before, BeforeBefore), vsn);
    ReportMeaning(index, after, BeforeAfter, vsn);
    ReportMeaning(index, before, BeforeBefore, vsn);
  }

  lemma ReportMeaning(index: UniqueIndex, vsns: set<int>, matchType: MatchType, vsn: int)
    ensures Reported(Report(index, vsns, matchType), vsn) <==> vsn in vsns
  {
    if vsn in vsns {
      assert Report(index, vsns, matchType)[0] in Report(index, vsns, matchType);
    }
  }

  lemma ReportedSplit(a: seq<Conflict>, b: seq<Conflict>, vsn: int)
    ensures Reported(a + b, vsn) <==> Reported(a, vsn) || Reported(b, vsn)
  {
  }

  lemma {:induction false} CheckAllMeaning(cfg: Config, l: Lookup, inflight: map<int, Event>, incoming: Event,
                                           indexes: seq<UniqueIndex>, vsn: int)
    requires cfg.Wellformed() && Represents(cfg, l, inflight)
    requires forall index <- indexes :: index in cfg.IndexesOf(incoming.table)
    requires CheckAll(cfg, l, incoming, indexes).Success?
    ensures Reported(CheckAll(cfg, l, incoming, indexes).value, vsn) <==>
            && vsn in inflight
            && inflight[vsn].table == incoming.table
            && PartitionKey(cfg.strategies, inflight[vsn]) != PartitionKey(cfg.strategies, incoming)
            && exists index <- indexes :: ConflictOn(index, inflight[vsn], incoming)
  {
    if indexes != [] {
      CheckIndexMeaning(cfg, l, inflight, incoming, indexes[0], vsn);
      CheckAllMeaning(cfg, l, inflight, incoming, indexes[1..], vsn);
      ReportedSplit(CheckIndex(cfg, l, incoming, indexes[0]).value, CheckAll(cfg, l, incoming, indexes[1..]).value,
            vsn);
      assert indexes == [indexes[0]] + indexes[1..];
    }
  }

  /** The bucket lookup reports exactly the events a scan of the in-flight set selects. */
  lemma FindMatchesScan(cfg: Config, l: Lookup, inflight: map<int, Event>, incoming: Event)
    requires cfg.Wellformed() && Represents(cfg, l, inflight)
    requires Find(cfg, l, incoming).Success?
    ensures forall vsn :: Reported(Find(cfg, l, incoming).value, vsn) <==>
                          vsn in inflight && Conflicts(cfg, inflight[vsn], incoming)
    ensures Find(cfg, l, incoming).value == [] <==>
            forall vsn <- inflight :: !Conflicts(cfg, inflight[vsn], incoming)
  {
    forall vsn ensures Reported(Find(cfg, l, incoming).value, vsn) <==>
                       vsn in inflight && Conflicts(cfg, inflight[vsn], incoming)
    {
      CheckAllMeaning(cfg, l, inflight, incoming, cfg.IndexesOf(incoming.table), vsn);
    }
    var found := Find(cfg, l, incoming).value;
    ReportsNonEmpty(cfg, l, incoming, cfg.IndexesOf(incoming.table));
    if found != [] {
      assert found[0] in found;
      var vsn := SomeElement(found[0].vsns);
      assert Reported(found, vsn);
    } else {
      forall vsn <- inflight ensures !Conflicts(cfg, inflight[vsn], incoming) {
        assert !Reported(found, vsn);
      }
    }
  }

  /** What a reported conflict says: the index, and that the rows of the events it names were on the entry that
      the incoming event's row is put on (before-after) or is on (before-before). */
  ghost predicate IsTrueReport(cfg: Config, inflight: map<int, Event>, incoming: Event, index: UniqueIndex,
                               c: Conflict) {
    && c.indexName == index.name && c.columns == index.columns && c.vsns != {} && c.matchType != TableLevel
    && (c.matchType == BeforeBefore ==> index.isPartial && incoming.op.Update?)
    && forall vsn <- c.vsns ::
      && vsn in inflight && inflight[vsn].table == incoming.table && inflight[vsn].before.Some?
      && PartitionKey(cfg.strategies, inflight[vsn]) != PartitionKey(cfg.strategies, incoming)
      && var image := if c.matchType == BeforeAfter then incoming.After() else incoming.before;
         IndexValuesEqual(inflight[vsn].before.value, image.GetOr(map[]), index)
  }

  lemma OneReportIsTrue(cfg: Config, l: Lookup, inflight: map<int, Event>, incoming: Event, index: UniqueIndex,
                        matchType: MatchType, vsns: set<int>)
    requires cfg.Wellformed() && Represents(cfg, l, inflight) && index in cfg.IndexesOf(incoming.table)
    requires matchType == BeforeAfter || (matchType == BeforeBefore && ProbesBefore(incoming, index))
    requires var image := if matchType == BeforeAfter then incoming.After() else incoming.before;
             CheckImage(cfg, l, incoming, image, index) == Success(vsns)
    ensures forall c <- Report(index, vsns, matchType) :: IsTrueReport(cfg, inflight, incoming, index, c)
  {
    var image := if matchType == BeforeAfter then incoming.After() else incoming.before;
    forall vsn <- vsns
      ensures && vsn in inflight && inflight[vsn].table == incoming.table && inflight[vsn].before.Some?
              && PartitionKey(cfg.strategies, inflight[vsn]) != PartitionKey(cfg.strategies, incoming)
              && IndexValuesEqual(inflight[vsn].before.value, image.GetOr(map[]), index)
    {
      CheckImageMeaning(cfg, l, inflight, incoming, image, index, vsn);
    }
  }

  lemma IndexReportsTruly(cfg: Config, l: Lookup, inflight: map<int, Event>, incoming: Event, index: UniqueIndex)
    requires cfg.Wellformed() && Represents(cfg, l, inflight) && index in cfg.IndexesOf(incoming.table)
    requires CheckIndex(cfg, l, incoming, index).Success?
    ensures forall c <- CheckIndex(cfg, l, incoming, index).value :: IsTrueReport(cfg, inflight, incoming, index, c)
  {
    if ProbesAfter(incoming, index) {
      OneReportIsTrue(cfg, l, inflight, incoming, index, BeforeAfter,
                      CheckImage(cfg, l, incoming, incoming.After(), index).value);
    }
    if ProbesBefore(incoming, index) {
      OneReportIsTrue(cfg, l, inflight, incoming, index, BeforeBefore,
                      CheckImage(cfg, l, incoming, incoming.before, index).value);
    }
  }

  /** Every conflict the lookup reports is about an index of the incoming event's table, and true. */
  lemma {:induction false} ReportsAreTrue(cfg: Config, l: Lookup, inflight: map<int, Event>, incoming: Event,
                                          indexes: seq<UniqueIndex>, c: Conflict)
    requires cfg.Wellformed() && Represents(cfg, l, inflight)
    requires forall index <- indexes :: index in cfg.IndexesOf(incoming.table)
    requires CheckAll(cfg, l, incoming, indexes).Success? && c in CheckAll(cfg, l, incoming, indexes).value
    ensures exists index <- indexes :: IsTrueReport(cfg, inflight, incoming, index, c)
  {
    IndexReportsTruly(cfg, l, inflight, incoming, indexes[0]);
    if c in CheckIndex(cfg, l, incoming, indexes[0]).value {
      assert indexes[0] in indexes;
    } else {
      ReportsAreTrue(cfg, l, inflight, incoming, indexes[1..], c);
    }
  }

  lemma FindReportsTruly(cfg: Config, l: Lookup, inflight: map<int, Event>, incoming: Event, c: Conflict)
    requires cfg.Wellformed() && Represents(cfg, l, inflight)
    requires Find(cfg, l, incoming).Success? && c in Find(cfg, l, incoming).value
    ensures incoming.table in cfg.indexes
    ensures exists index <- cfg.indexes[incoming.table] :: IsTrueReport(cfg, inflight, incoming, index, c)
  {
    ReportsAreTrue(cfg, l, inflight, incoming, cfg.IndexesOf(incoming.table), c);
  }

  lemma {:induction false} ReportsNonEmpty(cfg: Config, l: Lookup, incoming: Event, indexes: seq<UniqueIndex>)
    requires CheckAll(cfg, l, incoming, indexes).Success?
    ensures forall c <- CheckAll(cfg, l, incoming, indexes).value :: c.vsns != {}
  {
    if indexes != [] {
      ReportsNonEmpty(cfg, l, incoming, indexes[1..]);
    }
  }

  /** The lookup answers whenever both images are complete and every event routes. */
  lemma {:induction false} CheckAllSucceeds(cfg: Config, l: Lookup, inflight: map<int, Event>, incoming: Event,
                                            indexes: seq<UniqueIndex>)
    requires Represents(cfg, l, inflight)
    requires PartitionKey(cfg.strategies, incoming).Success?
    requires forall vsn <- inflight :: PartitionKey(cfg.strategies, inflight[vsn]).Success?
    requires incoming.After().Some?
    requires forall index <- indexes :: AllColumnsPresent(incoming.After().value, index.columns)
    requires incoming.op.Update? ==>
      incoming.before.Some? && forall index <- indexes :: AllColumnsPresent(incoming.before.value, index.columns)
    ensures CheckAll(cfg, l, incoming, indexes).Success?
  {
    if indexes != [] {
      assert indexes[0] in indexes;
      KeyComputable(incoming.table, incoming.After(), indexes[0]);
      KeyComputable(incoming.table, incoming.before, indexes[0]);
      forall key ensures Others(cfg, BucketAt(l, key), incoming).Success? {
        forall vsn <- BucketAt(l, key) ensures PartitionKey(cfg.strategies, BucketAt(l, key)[vsn]).Success? {
          assert InBucket(l, key, vsn);
        }
      }
      CheckAllSucceeds(cfg, l, inflight, incoming, indexes[1..]);
    }
  }
}
