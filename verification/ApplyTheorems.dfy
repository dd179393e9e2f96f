/**
 What every run of the streaming phase guarantees: unique indexes are never broken on
 the target, every statement meets the row state it had on the source, the final target
 is the final source, and the run cannot get stuck.
 */
module ApplyTheorems {
  import opened Wrappers
  import opened Events
  import opened Routing
  import opened ConflictIndex
  import opened SourceHistory
  import opened ApplyProtocol
  import opened ApplyInvariants

  // ---------- unique indexes ----------

  /** A row that sits on an entry at m and not at n is taken off it by one of its own events. */
  lemma {:induction false} FindRelease(w: World, id: RowId, index: UniqueIndex, entry: Fields, m: nat, n: nat)
    returns (b: nat)
    requires m <= n <= |w.history|
    requires Holds(w, index, At(Source(w, m), id), entry) && !Holds(w, index, At(Source(w, n), id), entry)
    ensures m <= b < n && IdOf(w.history[b]) == id
    ensures Holds(w, index, At(Source(w, b), id), entry) && !Holds(w, index, At(Source(w, b + 1), id), entry)
    decreases n - m
  {
    if Holds(w, index, At(Source(w, m + 1), id), entry) {
      b := FindRelease(w, id, index, entry, m + 1, n);
    } else {
      b := m;
      if IdOf(w.history[m]) != id {
        EffectElsewhere(Source(w, m), w.history[m], id);
      }
    }
  }

  /** A row that sits on an entry at n and not at m is put on it by one of its own events. */
  lemma {:induction false} FindAcquire(w: World, id: RowId, index: UniqueIndex, entry: Fields, m: nat, n: nat)
    returns (q: nat)
    requires m <= n <= |w.history|
    requires !Holds(w, index, At(Source(w, m), id), entry) && Holds(w, index, At(Source(w, n), id), entry)
    ensures m <= q < n && IdOf(w.history[q]) == id
    ensures !Holds(w, index, At(Source(w, q), id), entry) && Holds(w, index, At(Source(w, q + 1), id), entry)
    decreases n - m
  {
    if !Holds(w, index, At(Source(w, m + 1), id), entry) {
      q := FindAcquire(w, id, index, entry, m + 1, n);
    } else {
      q := m;
      if IdOf(w.history[m]) != id {
        EffectElsewhere(Source(w, m), w.history[m], id);
      }
    }
  }

  /** On the source, two rows of a table are never on the same entry. */
  lemma OneHolder(w: World, n: nat, a: RowId, b: RowId, index: UniqueIndex, entry: Fields)
    requires Wellformed(w) && n <= |w.history|
    requires a != b && a.0 == b.0 && index in w.cfg.IndexesOf(a.0)
    ensures !Holds(w, index, At(Source(w, n), a), entry) || !Holds(w, index, At(Source(w, n), b), entry)
  {
    var rows := Source(w, n);
    assert UniqueRows(w, Source(w, n));
    if Holds(w, index, At(rows, a), entry) && Holds(w, index, At(rows, b), entry) {
      ValuesEqualVia(rows[a], entry, rows[b], index);
      assert SameEntry(w, index, rows[a], rows[b]);
    }
  }

  /** If row a holds an entry at m and row b holds it later, at n, then an event of a that
      gives the entry up is linked to a later event of b that takes it. */
  lemma HandOver(w: World, a: RowId, m: nat, b: RowId, n: nat, index: UniqueIndex, entry: Fields)
    returns (release: nat, acquire: nat)
    requires Wellformed(w) && m <= n <= |w.history|
    requires a != b && a.0 == b.0 && index in w.cfg.IndexesOf(a.0)
    requires Holds(w, index, At(Source(w, m), a), entry) && Holds(w, index, At(Source(w, n), b), entry)
    ensures m <= release < acquire < n
    ensures IdOf(w.history[release]) == a && IdOf(w.history[acquire]) == b
    ensures Linked(w, release, acquire)
  {
    OneHolder(w, n, a, b, index, entry);
    release := FindRelease(w, a, index, entry, m, n);
    OneHolder(w, release, a, b, index, entry);
    EffectElsewhere(Source(w, release), w.history[release], b);
    acquire := FindAcquire(w, b, index, entry, release + 1, n);
    ReleaseThenAcquire(w, release, acquire, index, entry);
  }

  /** The two rows' frontiers, the lagging one first: no common entry. */
  lemma NoCommonEntry(w: World, s: State, a: RowId, m: nat, b: RowId, n: nat, index: UniqueIndex, entry: Fields)
    requires Wellformed(w) && InvShape(w, s) && InvFifo(w, s) && InvCleared(w, s)
    requires a != b && a.0 == b.0 && index in w.cfg.IndexesOf(a.0)
    requires m <= n && Frontier(w, s, a, m) && Frontier(w, s, b, n)
    requires Holds(w, index, At(Source(w, m), a), entry)
    ensures !Holds(w, index, At(Source(w, n), b), entry)
  {
    if Holds(w, index, At(Source(w, n), b), entry) {
      var release, acquire := HandOver(w, a, m, b, n, index, entry);
      LinkedInOrder(w, s, release, acquire);
      assert false;
    }
  }

  lemma TargetIsUnique(w: World, s: State)
    requires Wellformed(w) && Inv(w, s)
    ensures UniqueRows(w, s.target)
  {
    forall a, b, index |
      && a in s.target && b in s.target && a != b && a.0 == b.0
      && a.0 in w.cfg.indexes && index in w.cfg.indexes[a.0]
      ensures !SameEntry(w, index, s.target[a], s.target[b])
    {
      RowsDisjoint(w, s, a, b, index);
    }
  }

  lemma RowsDisjoint(w: World, s: State, a: RowId, b: RowId, index: UniqueIndex)
    requires Wellformed(w) && Inv(w, s)
    requires a in s.target && b in s.target && a != b && a.0 == b.0 && index in w.cfg.IndexesOf(a.0)
    ensures !SameEntry(w, index, s.target[a], s.target[b])
  {
    var m := SomeFrontier(w, s, a, |w.history|);
    var n := SomeFrontier(w, s, b, |w.history|);
    if SameEntry(w, index, s.target[a], s.target[b]) {
      assert At(s.target, a) == At(Source(w, m), a) && At(s.target, b) == At(Source(w, n), b);
      if m <= n {
        NoCommonEntry(w, s, a, m, b, n, index, s.target[a]);
      } else {
        NoCommonEntry(w, s, b, n, a, m, index, s.target[b]);
      }
    }
  }

  /** Main theorem. If every prefix of the source history satisfies the unique indexes,
      so does the target after every step of every run. */
  lemma UniqueIndexesNeverBroken(w: World, run: seq<State>, k: nat)
    requires Wellformed(w) && Run(w, run) && k < |run|
    ensures UniqueRows(w, run[k].target)
  {
    RunKeepsInv(w, run, k);
    TargetIsUnique(w, run[k]);
  }

  /** Every statement a worker runs meets exactly the row it met on the source: an insert
      finds its key free, an update or delete finds its own before image. */
  lemma StatementsMeetTheirRow(w: World, run: seq<State>, k: nat, c: nat)
    requires Wellformed(w) && Run(w, run) && k + 1 < |run| && ApplyStep(w, c, run[k], run[k + 1])
    ensures var e := w.history[run[k].queues[c][0]];
            At(run[k].target, IdOf(e)) == e.before
  {
    RunKeepsInv(w, run, k);
    AppliedAtFrontier(w, c, run[k]);
    FaithfulAt(w, run[k].queues[c][0]);
  }

  // ---------- confluence ----------

  ghost predicate AllApplied(w: World, s: State) {
    forall i: nat :: i < |w.history| ==> i in s.applied
  }

  /** Whatever the interleaving, once everything is applied the target is the source. */
  lemma Confluence(w: World, run: seq<State>, k: nat)
    requires Wellformed(w) && Run(w, run) && k < |run| && AllApplied(w, run[k])
    ensures run[k].target == Source(w, |w.history|)
  {
    RunKeepsInv(w, run, k);
    var t, n := run[k].target, |w.history|;
    forall id ensures At(t, id) == At(Source(w, n), id) {
      assert Frontier(w, run[k], id, n);
    }
    SameRows(t, Source(w, n));
  }

  lemma SameRows(a: Rows, b: Rows)
    requires forall id :: At(a, id) == At(b, id)
    ensures a == b
  {
    forall id ensures (id in a <==> id in b) && (id in a ==> a[id] == b[id]) {
      assert At(a, id) == At(b, id);
    }
  }

  // ---------- progress ----------

  /** Every event can be routed: no update changes a custom key column. */
  ghost predicate Routable(w: World) {
    forall e <- w.history :: PartitionKey(w.cfg.strategies, e).Success?
  }

  ghost predicate Done(w: World, s: State) {
    s.next == |w.history| && s.phase == Idle && AllApplied(w, s) && s.cache == {}
  }

  /** The dispatcher only ever waits on strictly earlier, already enqueued events. */
  lemma WaitsOnEnqueued(w: World, s: State, vsn: int)
    requires Wellformed(w) && Inv(w, s) && s.phase == Idle && s.next < |w.history|
    requires Find(w.cfg, s.index, w.history[s.next]).Success?
    requires Reported(Find(w.cfg, s.index, w.history[s.next]).value, vsn)
    ensures exists j :: j in s.cache && j < s.next && w.history[j].vsn == vsn
              && (j in s.applied || j in s.queues[Channel(w, j)])
  {
    var j := FoundInFlight(w, s.index, s.cache, w.history[s.next], vsn);
    assert Put(s, j);
    assert 0 <= Channel(w, j) < |s.queues|;
  }

  lemma FoundInFlight(w: World, l: Lookup, cache: set<nat>, e: Event, vsn: int) returns (j: nat)
    requires w.cfg.Wellformed()
    requires forall k <- cache :: k < |w.history|
    requires forall a, b :: 0 <= a < b < |w.history| ==> w.history[a].vsn != w.history[b].vsn
    requires Represents(w.cfg, l, InFlight(w, cache))
    requires Find(w.cfg, l, e).Success? && Reported(Find(w.cfg, l, e).value, vsn)
    ensures j in cache && w.history[j].vsn == vsn
  {
    var inflight := InFlight(w, cache);
    Selected(w.cfg, l, inflight, e, vsn);
    j :| j in cache && w.history[j].vsn == vsn;
  }

  lemma Selected(cfg: Config, l: Lookup, inflight: map<int, Event>, e: Event, vsn: int)
    requires cfg.Wellformed() && Represents(cfg, l, inflight)
    requires Find(cfg, l, e).Success? && Reported(Find(cfg, l, e).value, vsn)
    ensures vsn in inflight
  {
    FindMatchesScan(cfg, l, inflight, e);
  }

  /** Lookups and filings of well-formed events never fail. */
  lemma LookupSucceeds(w: World, s: State)
    requires Wellformed(w) && Routable(w) && Inv(w, s) && s.next < |w.history|
    ensures !w.history[s.next].op.Delete? ==> Find(w.cfg, s.index, w.history[s.next]).Success?
    ensures !w.history[s.next].op.Create? ==>
              FilingOf(w.cfg.IndexesOf(w.history[s.next].table), w.history[s.next]).error.None?
  {
    var e := w.history[s.next];
    FaithfulAt(w, s.next);
    RowsComplete(w, s.next, IdOf(e));
    if !e.op.Create? {
      FilingSucceeds(w.cfg.IndexesOf(e.table), e);
    }
    if !e.op.Delete? {
      CheckAllSucceeds(w.cfg, s.index, InFlight(w, s.cache), e, w.cfg.IndexesOf(e.table));
    }
  }

  /** A queued event can be applied, and a cached applied one removed. */
  lemma WorkerStep(w: World, s: State, j: nat) returns (s': State)
    requires Wellformed(w) && Inv(w, s) && j < s.next && (j in s.applied ==> j in s.cache)
    ensures Step(w, s, s')
  {
    if j in s.applied {
      s' := s.(cache := s.cache - {j}, index := Remove(s.index, w.history[j].vsn));
      assert RemoveStep(w, j, s, s');
    } else {
      var c := Channel(w, j);
      assert j in s.queues[c];
      HeadIsEarliest(w, c, s);
      var i := s.queues[c][0];
      s' := s.(queues := s.queues[c := s.queues[c][1..]], applied := s.applied + {i},
               target := Effect(s.target, w.history[i]));
      assert ApplyStep(w, c, s, s');
    }
  }

  /** Unless everything is done, some step is possible. */
  lemma Progress(w: World, s: State) returns (s': State)
    requires Wellformed(w) && Routable(w) && Inv(w, s) && !Done(w, s)
    ensures Step(w, s, s')
  {
    if s.next == |w.history| {
      if i: nat :| i < |w.history| && i !in s.applied {
        s' := WorkerStep(w, s, i);
      } else {
        var i := SomeElement(s.cache);
        s' := WorkerStep(w, s, i);
      }
    } else {
      var e := w.history[s.next];
      assert e in w.history;
      match s.phase
      case Idle =>
        LookupSucceeds(w, s);
        if Handled(w.cfg, e) && !e.op.Delete? && Find(w.cfg, s.index, e).value != [] {
          var j := Blocker(w, s);
          s' := WorkerStep(w, s, j);
        } else {
          s' := s.(phase := Checked);
          assert CheckStep(w, s, s');
        }
      case Checked =>
        LookupSucceeds(w, s);
        s' := if Cacheable(w.cfg, e)
              then s.(phase := Registered, cache := s.cache + {s.next},
                      index := FileAll(s.index, FilingOf(w.cfg.IndexesOf(e.table), e).keys, e))
              else s.(phase := Registered);
        assert RegisterStep(w, s, s');
      case Registered =>
        var h := Channel(w, s.next);
        if |s.queues[h]| < w.capacity {
          s' := s.(next := s.next + 1, phase := Idle, queues := s.queues[h := s.queues[h] + [s.next]]);
          assert EnqueueStep(w, s, s');
        } else {
          HeadIsEarliest(w, h, s);
          s' := WorkerStep(w, s, s.queues[h][0]);
        }
    }
  }

  lemma Blocker(w: World, s: State) returns (j: nat)
    requires Wellformed(w) && Inv(w, s) && s.phase == Idle && s.next < |w.history|
    requires Find(w.cfg, s.index, w.history[s.next]).Success? && Find(w.cfg, s.index, w.history[s.next]).value != []
    ensures j in s.cache && j < s.next
  {
    var found := Find(w.cfg, s.index, w.history[s.next]).value;
    ReportsNonEmpty(w.cfg, s.index, w.history[s.next], w.cfg.IndexesOf(w.history[s.next].table));
    assert found[0] in found;
    var vsn := SomeElement(found[0].vsns);
    j := FoundInFlight(w, s.index, s.cache, w.history[s.next], vsn);
  }

  lemma AppliedBounded(s: State, n: nat)
    requires forall i <- s.applied :: i < n
    ensures |s.applied| <= n
  {
    BelowSize(n);
    SubsetSize(s.applied, Below(n));
  }

  ghost function Below(n: nat): set<nat> {
    if n == 0 then {} else Below(n - 1) + {n - 1}
  }

  lemma {:induction false} BelowSize(n: nat)
    ensures |Below(n)| == n && forall i: nat :: i in Below(n) <==> i < n
  {
    if n > 0 {
      BelowSize(n - 1);
    }
  }

  lemma {:induction false} SubsetSize(a: set<nat>, b: set<nat>)
    requires a <= b
    ensures |a| <= |b|
  {
    if a != {} {
      var x := SomeElement(a);
      SubsetSize(a - {x}, b - {x});
    }
  }

  lemma Extend(w: World, run: seq<State>, s': State) returns (longer: seq<State>)
    requires Run(w, run) && Step(w, run[|run| - 1], s')
    ensures Run(w, longer) && longer == run + [s'] && longer[|longer| - 1] == s'
  {
    longer := run + [s'];
    forall k | 0 <= k < |longer| - 1 ensures Step(w, longer[k], longer[k + 1]) {
      if k < |run| - 1 {
        assert longer[k] == run[k] && longer[k + 1] == run[k + 1];
      }
    }
  }

  /** An upper bound on the steps still to come. */
  ghost function StepsLeft(w: World, s: State): int {
    var done := match s.phase case Idle => 0 case Checked => 1 case Registered => 2;
    2 * (3 * (|w.history| - s.next) - done) + (|w.history| - |s.applied|) + |s.cache|
  }

  lemma EveryStepCounts(w: World, s: State, s': State)
    requires Wellformed(w) && Inv(w, s) && Step(w, s, s')
    ensures 0 <= StepsLeft(w, s') < StepsLeft(w, s)
  {
    StepKeepsInv(w, s, s');
    LeftIsNatural(w, s');
    if c :| ApplyStep(w, c, s, s') {
      HeadIsEarliest(w, c, s);
      ApplyCounts(w, c, s, s');
    } else if i :| RemoveStep(w, i, s, s') {
      RemoveCounts(w, i, s, s');
    } else {
      DispatchCounts(w, s, s');
    }
  }

  lemma LeftIsNatural(w: World, s: State)
    requires Wellformed(w) && Inv(w, s)
    ensures 0 <= StepsLeft(w, s)
  {
    AppliedBounded(s, |w.history|);
  }

  lemma RemoveCounts(w: World, i: nat, s: State, s': State)
    requires RemoveStep(w, i, s, s')
    ensures StepsLeft(w, s') < StepsLeft(w, s)
  {
  }

  lemma FirstStepsLeft(w: World)
    ensures StepsLeft(w, Init(w)) == 7 * |w.history|
  {
  }

  lemma DispatchCounts(w: World, s: State, s': State)
    requires CheckStep(w, s, s') || RegisterStep(w, s, s') || EnqueueStep(w, s, s')
    ensures StepsLeft(w, s') < StepsLeft(w, s)
  {
  }

  lemma ApplyCounts(w: World, c: nat, s: State, s': State)
    requires ApplyStep(w, c, s, s') && s.queues[c][0] !in s.applied
    ensures StepsLeft(w, s') < StepsLeft(w, s)
  {
  }

  /** No run goes on for ever: seven steps per event are enough. */
  lemma {:induction false} RunsAreFinite(w: World, run: seq<State>, k: nat)
    requires Wellformed(w) && Run(w, run) && k < |run|
    ensures 0 <= StepsLeft(w, run[k]) <= 7 * |w.history| - k
  {
    if k == 0 {
      FirstStepsLeft(w);
    } else {
      RunsAreFinite(w, run, k - 1);
      RunKeepsInv(w, run, k - 1);
      EveryStepCounts(w, run[k - 1], run[k]);
    }
  }

  ghost function Last(run: seq<State>): State
    requires run != []
  {
    run[|run| - 1]
  }

  lemma NextState(w: World, run: seq<State>) returns (longer: seq<State>)
    requires Wellformed(w) && Routable(w) && Run(w, run) && !Done(w, Last(run))
    ensures Run(w, longer) && longer == run + [Last(longer)]
    ensures 0 <= StepsLeft(w, Last(longer)) < StepsLeft(w, Last(run))
  {
    RunKeepsInv(w, run, |run| - 1);
    var s' := Progress(w, Last(run));
    EveryStepCounts(w, Last(run), s');
    longer := Extend(w, run, s');
  }

  /** From every state a run can reach, the run can be carried on to completion, and it
      then leaves the target equal to the source. */
  lemma {:induction false} EveryRunCanFinish(w: World, run: seq<State>) returns (full: seq<State>)
    requires Wellformed(w) && Routable(w) && Run(w, run)
    ensures Run(w, full) && run <= full
    ensures Done(w, Last(full)) && Last(full).target == Source(w, |w.history|)
    decreases StepsLeft(w, Last(run))
  {
    if Done(w, Last(run)) {
      full := run;
      Confluence(w, run, |run| - 1);
    } else {
      var longer := NextState(w, run);
      full := EveryRunCanFinish(w, longer);
    }
  }

  /** A run that cannot be continued has finished, with the target equal to the source. */
  lemma StuckMeansFinished(w: World, run: seq<State>)
    requires Wellformed(w) && Routable(w) && Run(w, run)
    requires forall s' :: !Step(w, Last(run), s')
    ensures Done(w, Last(run)) && Last(run).target == Source(w, |w.history|)
  {
    RunKeepsInv(w, run, |run| - 1);
    if !Done(w, Last(run)) {
      var s' := Progress(w, Last(run));
    }
    Confluence(w, run, |run| - 1);
  }
}
