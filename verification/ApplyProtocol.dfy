/**
 The importer's streaming phase as a transition system. One dispatcher takes the events
 in commit order: wait until nothing in flight is in the way, file the event in the
 conflict cache, send it to the channel of its partition key. One worker per channel
 applies its events in order, and removes each from the cache some time later. Every
 interleaving of these steps is a run.
 */
module ApplyProtocol {
  import opened Wrappers
  import opened Events
  import opened Routing
  import opened ConflictIndex
  import opened SourceHistory

  datatype Phase = Idle | Checked | Registered

  /** `next` is the position the dispatcher works on. `index` is the cache's lookup
      structure; `cache` records the positions put and not yet removed. */
  datatype State = State(
    next: nat,
    phase: Phase,
    cache: set<nat>,
    index: Lookup,
    queues: seq<seq<nat>>,
    applied: set<nat>,
    target: Rows)

  ghost function Init(w: World): State {
    State(0, Idle, {}, EMPTY, seq(w.channels, _ => []), {}, w.initial)
  }

  /** Conflicts are handled for tables with unique indexes unless one channel takes the table. */
  predicate Handled(cfg: Config, e: Event) {
    && cfg.IndexesOf(e.table) != []
    && e.table in cfg.strategies && !cfg.strategies[e.table].ByTable?
  }

  /** The event is put into the cache: handled updates and deletes. */
  predicate Cacheable(cfg: Config, e: Event) {
    Handled(cfg, e) && !e.op.Create?
  }

  function Channel(w: World, i: nat): nat
    requires i < |w.history| && w.channels > 0
  {
    match PartitionKey(w.cfg.strategies, w.history[i])
    case Success(key) => w.hash(key) % w.channels
    case Failure(_) => 0
  }

  // ---------- steps ----------

  ghost predicate CheckStep(w: World, s: State, s': State) {
    && s.phase == Idle && s.next < |w.history|
    && var e := w.history[s.next];
    && PartitionKey(w.cfg.strategies, e).Success?
    && (Handled(w.cfg, e) && !e.op.Delete? ==> Find(w.cfg, s.index, e) == Success([]))
    && s' == s.(phase := Checked)
  }

  ghost predicate RegisterStep(w: World, s: State, s': State) {
    && s.phase == Checked && s.next < |w.history|
    && var e := w.history[s.next];
    if Cacheable(w.cfg, e) then
      var filing := FilingOf(w.cfg.IndexesOf(e.table), e);
      && filing.error.None?
      && s' == s.(phase := Registered, cache := s.cache + {s.next}, index := FileAll(s.index, filing.keys, e))
    else
      s' == s.(phase := Registered)
  }

  ghost predicate EnqueueStep(w: World, s: State, s': State) {
    && s.phase == Registered && s.next < |w.history| && w.channels > 0
    && var h := Channel(w, s.next);
    && h < |s.queues| && |s.queues[h]| < w.capacity
    && s' == s.(next := s.next + 1, phase := Idle, queues := s.queues[h := s.queues[h] + [s.next]])
  }

  ghost predicate ApplyStep(w: World, c: nat, s: State, s': State) {
    && c < |s.queues| && s.queues[c] != []
    && var i := s.queues[c][0];
    && i < |w.history|
    && s' == s.(queues := s.queues[c := s.queues[c][1..]],
                applied := s.applied + {i},
                target := Effect(s.target, w.history[i]))
  }

  ghost predicate RemoveStep(w: World, i: nat, s: State, s': State) {
    && i in s.applied && i in s.cache && i < |w.history|
    && s' == s.(cache := s.cache - {i}, index := Remove(s.index, w.history[i].vsn))
  }

  ghost predicate Step(w: World, s: State, s': State) {
    || CheckStep(w, s, s')
    || RegisterStep(w, s, s')
    || EnqueueStep(w, s, s')
    || (exists c :: ApplyStep(w, c, s, s'))
    || (exists i :: RemoveStep(w, i, s, s'))
  }

  ghost predicate Run(w: World, run: seq<State>) {
    && run != [] && run[0] == Init(w)
    && forall k :: 0 <= k < |run| - 1 ==> Step(w, run[k], run[k + 1])
  }

  // ---------- the invariant ----------

  /** Positions the dispatcher has got past the wait. */
  predicate Past(s: State, i: nat) { i < s.next || (i == s.next && s.phase != Idle) }

  /** Positions already put, if cacheable. */
  predicate Put(s: State, i: nat) { i < s.next || (i == s.next && s.phase == Registered) }

  predicate Sorted(q: seq<nat>) { forall a, b :: 0 <= a < b < |q| ==> q[a] < q[b] }

  ghost predicate InvShape(w: World, s: State) {
    && w.channels > 0
    && s.next <= |w.history| && (s.phase != Idle ==> s.next < |w.history|)
    && |s.queues| == w.channels
    && (forall i <- s.applied :: i < s.next)
    && (forall i: nat :: Past(s, i) && i < |w.history| ==> PartitionKey(w.cfg.strategies, w.history[i]).Success?)
  }

  ghost predicate InvQueues(w: World, s: State)
    requires InvShape(w, s)
  {
    forall c :: 0 <= c < |s.queues| ==>
      && Sorted(s.queues[c])
      && forall i: nat :: i in s.queues[c] <==> i < s.next && i !in s.applied && Channel(w, i) == c
  }

  ghost predicate InvCache(w: World, s: State)
    requires InvShape(w, s)
  {
    && (forall i <- s.cache :: Put(s, i) && i < |w.history| && Cacheable(w.cfg, w.history[i]))
    && (forall i: nat :: Put(s, i) && i < |w.history| && Cacheable(w.cfg, w.history[i]) && i !in s.applied ==>
          i in s.cache)
  }

  /** Position i may not get past the wait while j is in flight. */
  predicate Waits(w: World, j: nat, i: nat)
    requires j < |w.history| && i < |w.history|
  {
    && !w.history[i].op.Delete? && Handled(w.cfg, w.history[i])
    && Conflicts(w.cfg, w.history[j], w.history[i])
  }

  /** What got past the wait has nothing unapplied in its way. */
  ghost predicate InvCleared(w: World, s: State) {
    forall i, j :: 0 <= j < i < |w.history| && Past(s, i) && Waits(w, j, i) ==> j in s.applied
  }

  /** Within a channel, events are applied in order. */
  ghost predicate InvFifo(w: World, s: State)
    requires w.channels > 0
  {
    forall i, j :: 0 <= j < i < |w.history| && i in s.applied && Channel(w, j) == Channel(w, i) ==> j in s.applied
  }

  /** m separates the applied events of the row from the others. */
  ghost predicate Frontier(w: World, s: State, id: RowId, m: nat) {
    m <= |w.history| && forall i :: 0 <= i < |w.history| && IdOf(w.history[i]) == id ==> (i in s.applied <==> i < m)
  }

  /** Each target row is the source row at the row's frontier. */
  ghost predicate InvTarget(w: World, s: State) {
    forall id, m :: Frontier(w, s, id, m) ==> At(s.target, id) == At(Source(w, m), id)
  }

  function InFlight(w: World, cache: set<nat>): map<int, Event>
    requires forall i <- cache :: i < |w.history|
    requires forall i, j :: 0 <= i < j < |w.history| ==> w.history[i].vsn != w.history[j].vsn
  {
    map i | i in cache :: w.history[i].vsn := w.history[i]
  }

  ghost predicate InvIndex(w: World, s: State)
    requires Wellformed(w) && InvShape(w, s) && InvCache(w, s)
  {
    Represents(w.cfg, s.index, InFlight(w, s.cache))
  }

  ghost predicate Inv(w: World, s: State)
    requires Wellformed(w)
  {
    && InvShape(w, s) && InvQueues(w, s) && InvCache(w, s) && InvCleared(w, s)
    && InvFifo(w, s) && InvTarget(w, s) && InvIndex(w, s)
  }

  // ---------- order ----------

  /** Linked events are applied in order. */
  lemma LinkedInOrder(w: World, s: State, j: nat, i: nat)
    requires InvShape(w, s) && InvFifo(w, s) && InvCleared(w, s)
    requires j < i < |w.history| && i in s.applied && Linked(w, j, i)
    requires w.history[i].table == w.history[j].table
    ensures j in s.applied
  {
    if PartitionKey(w.cfg.strategies, w.history[j]) == PartitionKey(w.cfg.strategies, w.history[i]) {
      assert Channel(w, j) == Channel(w, i);
    } else {
      assert Past(s, i);
      ConflictingAreHandled(w, j, i);
    }
  }

  lemma ConflictingAreHandled(w: World, j: nat, i: nat)
    requires j < |w.history| && i < |w.history|
    requires Conflicts(w.cfg, w.history[j], w.history[i])
    requires PartitionKey(w.cfg.strategies, w.history[j]).Success? &&
          PartitionKey(w.cfg.strategies, w.history[i]).Success?
    ensures Handled(w.cfg, w.history[i]) && Handled(w.cfg, w.history[j])
  {
  }

  /** The events of a row are applied in order. */
  lemma {:induction false} RowOrder(w: World, s: State, j: nat, i: nat)
    requires Wellformed(w) && InvShape(w, s) && InvFifo(w, s) && InvCleared(w, s)
    requires j < i < |w.history| && i in s.applied && IdOf(w.history[j]) == IdOf(w.history[i])
    ensures j in s.applied
    decreases i - j
  {
    if k: nat :| j < k < i && IdOf(w.history[k]) == IdOf(w.history[i]) {
      RowOrder(w, s, k, i);
      RowOrder(w, s, j, k);
    } else {
      assert Past(s, i) && Past(s, j);
      SuccessiveEventsLinked(w, j, i);
      LinkedInOrder(w, s, j, i);
    }
  }

  /** Every row has a frontier. */
  lemma {:induction false} SomeFrontier(w: World, s: State, id: RowId, n: nat) returns (m: nat)
    requires Wellformed(w) && InvShape(w, s) && InvFifo(w, s) && InvCleared(w, s)
    requires n <= |w.history|
    requires forall i :: n <= i < |w.history| && IdOf(w.history[i]) == id ==> i !in s.applied
    ensures m <= n && Frontier(w, s, id, m)
  {
    if n == 0 {
      m := 0;
    } else if IdOf(w.history[n - 1]) == id && n - 1 in s.applied {
      m := n;
      forall i | 0 <= i < n - 1 && IdOf(w.history[i]) == id ensures i in s.applied {
        RowOrder(w, s, i, n - 1);
      }
    } else {
      m := SomeFrontier(w, s, id, n - 1);
    }
  }
}
