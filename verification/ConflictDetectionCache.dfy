/**
 The cache as the importer runs it: three maps updated in place under one lock.
 Each method is proved equal to the operation on ConflictIndex values; the properties
 of those operations are the lemmas of that module and the ones at the end of this one.
 A broadcast on the condition variable is counted in `broadcasts`.
 */
module ConflictDetectionCache {
  import opened Wrappers
  import opened Events
  import opened BucketKey
  import opened Routing
  import opened ConflictIndex

  datatype PutError = NotCacheable | FilingFailed(error: KeyError)

  /** The rule for events exported from the target, which looks at tables and columns but not at values. */
  predicate ConflictsByTable(cfg: Config, cached: Event, incoming: Event) {
    && cached.table == incoming.table
    && cached.key != incoming.key
    && (cached.op.Delete?
        || (cached.op.Update?
            && exists index <- cfg.IndexesOf(cached.table), c <- index.columns ::
                 c in cached.fields && c in incoming.fields))
  }

  class Cache {
    const cfg: Config
    var m: map<int, Event>
    var ukLookup: map<string, Bucket>
    var vsnToBuckets: map<int, seq<string>>
    var broadcasts: nat

    function Index(): Lookup
      reads this
    {
      Lookup(ukLookup, vsnToBuckets)
    }

    ghost predicate Valid()
      reads this
    {
      Inverse(Index())
    }

    constructor (cfg: Config)
      ensures this.cfg == cfg && m == map[] && Index() == EMPTY && broadcasts == 0
      ensures Valid()
    {
      this.cfg := cfg;
      m := map[];
      ukLookup, vsnToBuckets := map[], map[];
      broadcasts := 0;
    }

    method Put(event: Event) returns (r: Result<(), PutError>)
      requires Valid()
      modifies this`m, this`ukLookup, this`vsnToBuckets
      ensures Valid()
      ensures event.before.None? || event.op.Create? ==>
                r == Failure(NotCacheable) && m == old(m) && Index() == old(Index())
      ensures event.before.Some? && !event.op.Create? && event.fromTargetExporter ==>
                r.Success? && m == old(m)[event.vsn := event] && Index() == old(Index())
      ensures event.before.Some? && !event.op.Create? && !event.fromTargetExporter ==>
                var filing := FilingOf(cfg.IndexesOf(event.table), event);
                && m == old(m)
                && Index() == FileAll(old(Index()), filing.keys, event)
                && r == (match filing.error case None => Success(()) case Some(err) => Failure(FilingFailed(err)))
    {
      if event.before.None? || event.op.Create? {
        return Failure(NotCacheable);
      }
      if event.fromTargetExporter {
        m := m[event.vsn := event];
        return Success(());
      }
      r := IndexEventLocked(event);
    }

    method IndexEventLocked(event: Event) returns (r: Result<(), PutError>)
      requires Valid()
      modifies this`ukLookup, this`vsnToBuckets
      ensures Valid()
      ensures var filing := FilingOf(cfg.IndexesOf(event.table), event);
              && Index() == FileAll(old(Index()), filing.keys, event)
              && r == (match filing.error case None => Success(()) case Some(err) => Failure(FilingFailed(err)))
    {
      var uniqueIndexes := cfg.IndexesOf(event.table);
      ghost var filing := FilingOf(uniqueIndexes, event);
      FileAllKeepsInverse(Index(), filing.keys, event);
      var k := 0;
      assert uniqueIndexes[0..] == uniqueIndexes;
      while k < |uniqueIndexes|
        invariant 0 <= k <= |uniqueIndexes|
        invariant FilingOf(uniqueIndexes[k..], event).error == filing.error
        invariant FileAll(Index(), FilingOf(uniqueIndexes[k..], event).keys, event) ==
                  FileAll(old(Index()), filing.keys, event)
      {
        var index := uniqueIndexes[k];
        assert uniqueIndexes[k..][1..] == uniqueIndexes[k + 1..];
        k := k + 1;
        if event.op.Update? && !RelevantForUpdate(event, index) {
          continue;
        }
        if !index.nullsNotDistinct && AnyColumnNull(event.Before(), index.columns) {
          continue;
        }
        var key := ComputeConflictBucketKey(event.table, event.before, index);
        if key.Failure? {
          return Failure(FilingFailed(key.error));
        }
        FileAllStep(Index(), key.value, FilingOf(uniqueIndexes[k..], event).keys, event);
        AddToBucket(key.value, event);
      }
      return Success(());
    }

    method AddToBucket(key: string, event: Event)
      modifies this`ukLookup, this`vsnToBuckets
      ensures Index() == File(old(Index()), key, event)
    {
      if key !in ukLookup {
        ukLookup := ukLookup[key := map[]];
      }
      ukLookup := ukLookup[key := ukLookup[key][event.vsn := event]];
      var keys := if event.vsn in vsnToBuckets then vsnToBuckets[event.vsn] else [];
      vsnToBuckets := vsnToBuckets[event.vsn := keys + [key]];
    }

    method DeindexEventLocked(vsn: int)
      modifies this`ukLookup, this`vsnToBuckets
      ensures Index() == Remove(old(Index()), vsn)
    {
      if vsn !in vsnToBuckets {
        return;
      }
      var keys := vsnToBuckets[vsn];
      var k := 0;
      while k < |keys|
        invariant 0 <= k <= |keys|
        invariant UnfileAll(ukLookup, keys[k..], vsn) == UnfileAll(old(ukLookup), keys, vsn)
        invariant vsnToBuckets == old(vsnToBuckets)
      {
        assert keys[k..][1..] == keys[k + 1..];
        var key := keys[k];
        k := k + 1;
        if key !in ukLookup {
          continue;
        }
        var bucket := ukLookup[key] - {vsn};
        if |bucket| == 0 {
          ukLookup := ukLookup - {key};
        } else {
          ukLookup := ukLookup[key := bucket];
        }
      }
      vsnToBuckets := vsnToBuckets - {vsn};
    }

    method GetConflictingEventsWithDifferentPartitionKey(key: string, incoming: Event)
      returns (r: Result<set<int>, FindError>)
      ensures r == Others(cfg, BucketAt(Index(), key), incoming)
    {
      var mine := PartitionKey(cfg.strategies, incoming);
      if mine.Failure? {
        return Failure(IncomingRouteFailed(mine.error));
      }
      var bucket := BucketAt(Index(), key);
      var todo := bucket.Keys;
      var matching: set<int> := {};
      while todo != {}
        invariant todo <= bucket.Keys
        invariant forall vsn <- bucket :: vsn !in todo ==> PartitionKey(cfg.strategies, bucket[vsn]).Success?
        invariant matching == set vsn | vsn in bucket && vsn !in todo &&
              PartitionKey(cfg.strategies, bucket[vsn]) != mine
      {
        ghost var some := SomeElement(todo);
        var vsn :| vsn in todo;
        var theirs := PartitionKey(cfg.strategies, bucket[vsn]);
        if theirs.Failure? {
          return Failure(CachedRouteFailed);
        }
        todo := todo - {vsn};
        if theirs.value == mine.value {
          continue;
        }
        matching := matching + {vsn};
      }
      assert matching == set vsn | vsn in bucket && PartitionKey(cfg.strategies, bucket[vsn]) != Success(mine.value);
      return Success(matching);
    }

    method CheckBeforeAfterConflict(incoming: Event, index: UniqueIndex) returns (r: Result<set<int>, FindError>)
      ensures r == CheckImage(cfg, Index(), incoming, incoming.After(), index)
    {
      if !index.nullsNotDistinct && AnyColumnNull(incoming.After().GetOr(map[]), index.columns) {
        return Success({});
      }
      var key := ComputeConflictBucketKey(incoming.table, incoming.After(), index);
      if key.Failure? {
        return Failure(KeyFailed(key.error));
      }
      r := GetConflictingEventsWithDifferentPartitionKey(key.value, incoming);
    }

    method CheckBeforeBeforeConflict(incoming: Event, index: UniqueIndex) returns (r: Result<set<int>, FindError>)
      ensures r == CheckImage(cfg, Index(), incoming, incoming.before, index)
    {
      if !index.nullsNotDistinct && AnyColumnNull(incoming.Before(), index.columns) {
        return Success({});
      }
      var key := ComputeConflictBucketKey(incoming.table, incoming.before, index);
      if key.Failure? {
        return Failure(KeyFailed(key.error));
      }
      r := GetConflictingEventsWithDifferentPartitionKey(key.value, incoming);
    }

    method FindValueConflictLocked(incoming: Event) returns (r: Result<seq<Conflict>, FindError>)
      ensures r == Find(cfg, Index(), incoming)
    {
      if incoming.op.Delete? {
        return Failure(IncomingDelete);
      }
      var uniqueIndexes := cfg.IndexesOf(incoming.table);
      var total: seq<Conflict> := [];
      var k := 0;
      assert uniqueIndexes[0..] == uniqueIndexes;
      assert forall rest: seq<Conflict> :: total + rest == rest;
      while k < |uniqueIndexes|
        invariant 0 <= k <= |uniqueIndexes|
        invariant CheckAll(cfg, Index(), incoming, uniqueIndexes) ==
                  match CheckAll(cfg, Index(), incoming, uniqueIndexes[k..])
                  case Failure(err) => Failure(err)
                  case Success(rest) => Success(total + rest)
      {
        var index := uniqueIndexes[k];
        assert uniqueIndexes[k..][1..] == uniqueIndexes[k + 1..];
        ghost var was := total;
        if incoming.op.Create? || AnyColumnChanged(incoming.fields, index.columns) {
          var after := CheckBeforeAfterConflict(incoming, index);
          if after.Failure? {
            return Failure(after.error);
          }
          if after.value != {} {
            total := total + [Conflict(index.name, after.value, index.columns, BeforeAfter)];
          }
        }
        if incoming.op.Update? && index.isPartial {
          var before := CheckBeforeBeforeConflict(incoming, index);
          if before.Failure? {
            return Failure(before.error);
          }
          if before.value != {} {
            total := total + [Conflict(index.name, before.value, index.columns, BeforeBefore)];
          }
        }
        assert total == was + CheckIndex(cfg, Index(), incoming, index).value;
        CheckAllStep(cfg, Index(), incoming, uniqueIndexes[k..], was);
        k := k + 1;
      }
      assert uniqueIndexes[k..] == [] && total + [] == total;
      return Success(total);
    }

    /** Removes applied events and wakes the waiting dispatcher iff something was removed. */
    method RemoveEvents(events: seq<Event>)
      modifies this
      ensures var r := RemoveEach(old(m), old(Index()), events);
              && m == r.0 && Index() == r.1
              && broadcasts == old(broadcasts) + (if r.2 then 1 else 0)
    {
      var eventsRemoved := false;
      var k := 0;
      while k < |events|
        invariant 0 <= k <= |events|
        invariant broadcasts == old(broadcasts)
        invariant RemoveEach(m, Index(), events[k..]).0 == RemoveEach(old(m), old(Index()), events).0
        invariant RemoveEach(m, Index(), events[k..]).1 == RemoveEach(old(m), old(Index()), events).1
        invariant eventsRemoved || RemoveEach(m, Index(), events[k..]).2 <==> RemoveEach(old(m), old(Index()), events).2
      {
        assert events[k..][1..] == events[k + 1..];
        if events[k].vsn in m {
          m := m - {events[k].vsn};
          eventsRemoved := true;
        } else if events[k].vsn in vsnToBuckets {
          DeindexEventLocked(events[k].vsn);
          eventsRemoved := true;
        }
        k := k + 1;
      }
      assert events[k..] == [];
      if eventsRemoved {
        broadcasts := broadcasts + 1;
      }
    }

    /** The scan over events exported from the target stops at the first conflict; other events use the index. */
    method FindConflictLocked(incoming: Event) returns (r: Result<seq<Conflict>, FindError>)
      ensures !incoming.fromTargetExporter ==> r == Find(cfg, Index(), incoming)
      ensures incoming.fromTargetExporter ==>
                && r.Success? && |r.value| <= 1
                && (r.value == [] <==> forall vsn <- m :: !ConflictsByTable(cfg, m[vsn], incoming))
                && (r.value != [] ==>
                      exists vsn <- m :: ConflictsByTable(cfg, m[vsn], incoming) &&
                            r.value[0] == Conflict("", {vsn}, [], TableLevel))
    {
      if !incoming.fromTargetExporter {
        r := FindValueConflictLocked(incoming);
        return;
      }
      var todo := m.Keys;
      while todo != {}
        invariant todo <= m.Keys && forall vsn <- m :: vsn !in todo ==> !ConflictsByTable(cfg, m[vsn], incoming)
      {
        ghost var some := SomeElement(todo);
        var vsn :| vsn in todo;
        if ConflictsByTable(cfg, m[vsn], incoming) {
          return Success([Conflict("", {vsn}, [], TableLevel)]);
        }
        todo := todo - {vsn};
      }
      return Success([]);
    }

    /** The cache holds exactly the given in-flight events, each in one of its two forms. */
    ghost predicate Holding(f: Flying)
      reads this
    {
      m == f.direct && Represents(cfg, Index(), f.indexed) && f.direct.Keys !! f.indexed.Keys
    }

    /** One pending RemoveEvents call gets the lock while the dispatcher sleeps. If it
        does not wake the dispatcher, the dispatcher had no reason to wake. */
    method RunPending(events: seq<Event>, incoming: Event, ghost left: Flying) returns (woken: bool)
      requires Holding(left)
      modifies this
      ensures Holding(Without(left, events))
      ensures !woken && !Clear(cfg, left, incoming) ==> !Clear(cfg, Without(left, events), incoming)
    {
      RemoveEachRepresents(cfg, m, Index(), left.indexed, events);
      if !RemoveEach(m, Index(), events).2 && !Clear(cfg, left, incoming) {
        SilentRemoval(cfg, Index(), left, events, incoming);
      }
      var seen := broadcasts;
      RemoveEvents(events);
      woken := broadcasts != seen;
    }

    /** Sleeping on the condition variable: the lock is released and pending RemoveEvents
        calls run, from position `k` on, until one of them broadcasts. */
    method CondWait(removals: seq<seq<Event>>, k: nat, ghost flying: Flying, incoming: Event)
      returns (k': nat, woken: bool)
      requires k <= |removals|
      requires Holding(Survivors(flying, removals, k))
      requires !ClearAfter(cfg, flying, removals, incoming, k)
      modifies this
      decreases |removals| - k
      ensures k <= k' <= |removals| && (woken ==> k < k') && (!woken ==> k' == |removals|)
      ensures Holding(Survivors(flying, removals, k'))
      ensures Blocked(cfg, flying, removals, incoming, k, if woken then k' - 1 else k')
    {
      if k == |removals| {
        return k, false;
      }
      woken := RunPending(removals[k], incoming, Survivors(flying, removals, k));
      SurvivorsOfOneMore(flying, removals, k);
      k' := k + 1;
      if !woken {
        k', woken := CondWait(removals, k + 1, flying, incoming);
        BlockedFrom(cfg, flying, removals, incoming, k, if woken then k' - 1 else k');
      }
    }

    /** The dispatcher's wait loop. While it sleeps, the workers' RemoveEvents calls run:
        `removals` is the order in which they get the lock. It gets through (true) after
        the first `k` of them that leave nothing in its way, and is still asleep at the
        end (false) only if no prefix of them does: no wake-up is ever lost. */
    method WaitUntilNoConflict(incoming: Event, removals: seq<seq<Event>>, ghost flying: Flying)
      returns (r: Result<bool, FindError>, k: nat)
      requires cfg.Wellformed() && Holding(flying)
      modifies this
      ensures k <= |removals|
      ensures Blocked(cfg, flying, removals, incoming, 0, k - 1)
      ensures Holding(Survivors(flying, removals, k))
      ensures r == Success(true) ==> ClearAfter(cfg, flying, removals, incoming, k)
      ensures r == Success(false) ==> k == |removals| && !ClearAfter(cfg, flying, removals, incoming, k)
      ensures r.Failure? ==> !incoming.fromTargetExporter && Find(cfg, Index(), incoming) == Failure(r.error)
    {
      k := 0;
      while true
        invariant 0 <= k <= |removals|
        invariant Holding(Survivors(flying, removals, k))
        invariant Blocked(cfg, flying, removals, incoming, 0, k - 1)
        decreases |removals| - k
      {
        var conflicts := FindConflictLocked(incoming);
        if conflicts.Failure? {
          return Failure(conflicts.error), k;
        }
        if !incoming.fromTargetExporter {
          FoundNothingIffClear(cfg, Index(), Survivors(flying, removals, k), incoming);
        }
        if conflicts.value == [] {
          return Success(true), k;
        }
        var woken;
        k, woken := CondWait(removals, k, flying, incoming);
        if !woken {
          return Success(false), k;
        }
      }
    }
  }

  // ---------- removal of several events ----------

  /** Removing a batch: remaining target-exporter events, remaining index, and whether
      anything was removed. */
  function RemoveEach(m: map<int, Event>, l: Lookup, events: seq<Event>): (map<int, Event>, Lookup, bool)
    decreases |events|
  {
    if events == [] then (m, l, false)
    else if events[0].vsn in m then
      var r := RemoveEach(m - {events[0].vsn}, l, events[1..]);
      (r.0, r.1, true)
    else if events[0].vsn in l.vsnToBuckets then
      var r := RemoveEach(m, Remove(l, events[0].vsn), events[1..]);
      (r.0, r.1, true)
    else RemoveEach(m, l, events[1..])
  }

  /** In-flight events: those exported from the target, kept as they are, and those filed in the index. */
  datatype Flying = Flying(direct: map<int, Event>, indexed: map<int, Event>)

  function WithoutEvents(inflight: map<int, Event>, events: seq<Event>): map<int, Event> {
    inflight - (set e | e in events :: e.vsn)
  }

  function Without(f: Flying, events: seq<Event>): Flying {
    Flying(WithoutEvents(f.direct, events), WithoutEvents(f.indexed, events))
  }

  /** The in-flight events left after the first k removals. */
  function Survivors(f: Flying, removals: seq<seq<Event>>, k: nat): Flying
    requires k <= |removals|
  {
    if k == 0 then f else Without(Survivors(f, removals, k - 1), removals[k - 1])
  }

  /** No in-flight event blocks the incoming one. */
  predicate Clear(cfg: Config, f: Flying, incoming: Event) {
    if incoming.fromTargetExporter then forall vsn <- f.direct :: !ConflictsByTable(cfg, f.direct[vsn], incoming)
    else forall vsn <- f.indexed :: !Conflicts(cfg, f.indexed[vsn], incoming)
  }

  lemma WithoutFirst(inflight: map<int, Event>, events: seq<Event>)
    requires events != []
    ensures WithoutEvents(inflight - {events[0].vsn}, events[1..]) == WithoutEvents(inflight, events)
    ensures events[0].vsn !in inflight ==> WithoutEvents(inflight, events[1..]) == WithoutEvents(inflight, events)
  {
    assert events == [events[0]] + events[1..];
  }

  /** Removing a batch removes it from the in-flight set; if nothing was removed the cache is untouched. */
  lemma {:induction false} RemoveEachRepresents(cfg: Config, m: map<int, Event>, l: Lookup, indexed: map<int, Event>,
                                                events: seq<Event>)
    requires Represents(cfg, l, indexed) && m.Keys !! indexed.Keys
    ensures RemoveEach(m, l, events).0 == WithoutEvents(m, events)
    ensures Represents(cfg, RemoveEach(m, l, events).1, WithoutEvents(indexed, events))
    ensures !RemoveEach(m, l, events).2 ==> RemoveEach(m, l, events).1 == l && RemoveEach(m, l, events).0 == m
    decreases |events|
  {
    if events == [] {
      assert WithoutEvents(m, events) == m && WithoutEvents(indexed, events) == indexed;
    } else {
      var vsn := events[0].vsn;
      WithoutFirst(m, events);
      WithoutFirst(indexed, events);
      if vsn in m {
        RemoveEachRepresents(cfg, m - {vsn}, l, indexed, events[1..]);
      } else if vsn in l.vsnToBuckets {
        RemoveRepresents(cfg, l, indexed, vsn);
        RemoveEachRepresents(cfg, m, Remove(l, vsn), indexed - {vsn}, events[1..]);
      } else {
        RemoveRepresents(cfg, l, indexed, vsn);
        RemoveEachRepresents(cfg, m, l, indexed - {vsn}, events[1..]);
      }
    }
  }

  /** The first k removals leave nothing in the way. */
  predicate ClearAfter(cfg: Config, flying: Flying, removals: seq<seq<Event>>, incoming: Event, k: nat)
    requires k <= |removals|
  {
    Clear(cfg, Survivors(flying, removals, k), incoming)
  }

  /** Some conflict is left after each of the first lo..hi removals. */
  ghost predicate Blocked(cfg: Config, flying: Flying, removals: seq<seq<Event>>, incoming: Event, lo: nat, hi: int)
    requires hi <= |removals|
  {
    forall j {:trigger ClearAfter(cfg, flying, removals, incoming, j)} :: 0 <= lo <= j <= hi ==>
      !ClearAfter(cfg, flying, removals, incoming, j)
  }

  lemma SurvivorsOfOneMore(flying: Flying, removals: seq<seq<Event>>, k: nat)
    requires k < |removals|
    ensures Survivors(flying, removals, k + 1) == Without(Survivors(flying, removals, k), removals[k])
  {
  }

  lemma BlockedFrom(cfg: Config, flying: Flying, removals: seq<seq<Event>>, incoming: Event, lo: nat, hi: int)
    requires lo <= |removals| && hi <= |removals|
    requires !ClearAfter(cfg, flying, removals, incoming, lo) && Blocked(cfg, flying, removals, incoming, lo + 1, hi)
    ensures Blocked(cfg, flying, removals, incoming, lo, hi)
  {
  }

  lemma FoundNothingIffClear(cfg: Config, l: Lookup, f: Flying, incoming: Event)
    requires cfg.Wellformed() && Represents(cfg, l, f.indexed) && !incoming.fromTargetExporter
    requires Find(cfg, l, incoming).Success?
    ensures Find(cfg, l, incoming).value == [] <==> Clear(cfg, f, incoming)
  {
    FindMatchesScan(cfg, l, f.indexed, incoming);
  }

  /** A batch wakes the waiting events if and only if one of its own was in either form of the cache. */
  lemma {:induction false} BroadcastsIff(m: map<int, Event>, l: Lookup, events: seq<Event>)
    ensures RemoveEach(m, l, events).2 <==> exists e <- events :: e.vsn in m || e.vsn in l.vsnToBuckets
    decreases |events|
  {
    if events != [] {
      BroadcastsIff(m, l, events[1..]);
      assert events == [events[0]] + events[1..] && events[0] in events;
    }
  }

  /** An event that blocks another is filed somewhere. */
  lemma ConflictingIsRecorded(cfg: Config, l: Lookup, inflight: map<int, Event>, vsn: int, incoming: Event)
    requires Represents(cfg, l, inflight) && vsn in inflight
    requires Conflicts(cfg, inflight[vsn], incoming)
    ensures vsn in l.vsnToBuckets
  {
    var cached := inflight[vsn];
    var index :| index in cfg.IndexesOf(incoming.table) && ConflictOn(index, cached, incoming);
    var key := KeyOf(cached.table, cached.before, index).value;
    FilingMembers(cfg.IndexesOf(cached.table), cached, key);
    assert InBucket(l, key, vsn);
    assert Recorded(l, vsn, key);
  }

  /** A removal that wakes nobody leaves every conflict in place. */
  lemma SilentRemoval(cfg: Config, l: Lookup, f: Flying, events: seq<Event>, incoming: Event)
    requires Represents(cfg, l, f.indexed)
    requires !RemoveEach(f.direct, l, events).2
    requires !Clear(cfg, f, incoming)
    ensures !Clear(cfg, Without(f, events), incoming)
  {
    BroadcastsIff(f.direct, l, events);
    if incoming.fromTargetExporter {
      var vsn :| vsn in f.direct && ConflictsByTable(cfg, f.direct[vsn], incoming);
      assert vsn in WithoutEvents(f.direct, events);
    } else {
      var vsn :| vsn in f.indexed && Conflicts(cfg, f.indexed[vsn], incoming);
      ConflictingIsRecorded(cfg, l, f.indexed, vsn, incoming);
      assert vsn in WithoutEvents(f.indexed, events);
    }
  }

  lemma FileAllStep(l: Lookup, key: string, rest: seq<string>, e: Event)
    ensures FileAll(l, [key] + rest, e) == FileAll(File(l, key, e), rest, e)
  {
    assert ([key] + rest)[1..] == rest;
  }

  lemma CheckAllStep(cfg: Config, l: Lookup, incoming: Event, indexes: seq<UniqueIndex>, was: seq<Conflict>)
    requires indexes != [] && CheckIndex(cfg, l, incoming, indexes[0]).Success?
    ensures CheckAll(cfg, l, incoming, indexes).Success? <==> CheckAll(cfg, l, incoming, indexes[1..]).Success?
    ensures CheckAll(cfg, l, incoming, indexes).Failure? ==>
              CheckAll(cfg, l, incoming, indexes) == CheckAll(cfg, l, incoming, indexes[1..])
    ensures CheckAll(cfg, l, incoming, indexes).Success? ==>
              was + CheckAll(cfg, l, incoming, indexes).value ==
              was + CheckIndex(cfg, l, incoming, indexes[0]).value + CheckAll(cfg, l, incoming, indexes[1..]).value
  {
  }
}
