/** Every step of the streaming phase keeps the invariant. */
module ApplyInvariants {
  import opened Wrappers
  import opened Events
  import opened Routing
  import opened ConflictIndex
  import opened SourceHistory
  import opened ApplyProtocol

  lemma InitInv(w: World)
    requires Wellformed(w)
    ensures Inv(w, Init(w))
  {
    var s := Init(w);
    EmptyRepresents(w.cfg);
    assert InFlight(w, s.cache) == map[];
    forall id, m | Frontier(w, s, id, m) ensures At(s.target, id) == At(Source(w, m), id) {
      Untouched(w, 0, m, id);
    }
  }

  // ---------- check ----------

  lemma CheckKeepsInv(w: World, s: State, s': State)
    requires Wellformed(w) && Inv(w, s) && CheckStep(w, s, s')
    ensures Inv(w, s')
  {
    CheckClears(w, s);
    assert InvShape(w, s') && InvQueues(w, s') && InvCache(w, s');
    assert forall id, m :: Frontier(w, s', id, m) ==> Frontier(w, s, id, m);
    forall i, j | 0 <= j < i < |w.history| && Past(s', i) && Waits(w, j, i) ensures j in s'.applied {
      if i < s.next {
        assert Past(s, i);
      }
    }
  }

  /** An empty lookup result means everything in the way has been applied. */
  lemma CheckClears(w: World, s: State)
    requires Wellformed(w) && Inv(w, s)
    requires s.phase == Idle && s.next < |w.history|
    requires PartitionKey(w.cfg.strategies, w.history[s.next]).Success?
    requires Handled(w.cfg, w.history[s.next]) && !w.history[s.next].op.Delete? ==>
               Find(w.cfg, s.index, w.history[s.next]) == Success([])
    ensures forall j :: 0 <= j < s.next && Waits(w, j, s.next) ==> j in s.applied
  {
    forall j | 0 <= j < s.next && Waits(w, j, s.next) ensures j in s.applied {
      assert Past(s, j) && Put(s, j);
      ConflictingIsCacheable(w, j, s.next);
      NothingFound(w, s.index, s.cache, j, w.history[s.next]);
    }
  }

  lemma NothingFound(w: World, l: Lookup, cache: set<nat>, j: nat, e: Event)
    requires w.cfg.Wellformed()
    requires forall k <- cache :: k < |w.history|
    requires forall a, b :: 0 <= a < b < |w.history| ==> w.history[a].vsn != w.history[b].vsn
    requires Represents(w.cfg, l, InFlight(w, cache))
    requires Find(w.cfg, l, e) == Success([])
    requires j < |w.history| && Conflicts(w.cfg, w.history[j], e)
    ensures j !in cache
  {
    var inflight := InFlight(w, cache);
    InFlightHas(w, cache, j);
    ScanIsEmpty(w.cfg, l, inflight, e);
  }

  lemma ScanIsEmpty(cfg: Config, l: Lookup, inflight: map<int, Event>, e: Event)
    requires cfg.Wellformed() && Represents(cfg, l, inflight) && Find(cfg, l, e) == Success([])
    ensures forall vsn <- inflight :: !Conflicts(cfg, inflight[vsn], e)
  {
    FindMatchesScan(cfg, l, inflight, e);
  }

  lemma InFlightHas(w: World, cache: set<nat>, j: nat)
    requires forall k <- cache :: k < |w.history|
    requires forall a, b :: 0 <= a < b < |w.history| ==> w.history[a].vsn != w.history[b].vsn
    requires j < |w.history|
    ensures j in cache ==>
              w.history[j].vsn in InFlight(w, cache) && InFlight(w, cache)[w.history[j].vsn] == w.history[j]
  {
  }

  lemma ConflictingIsCacheable(w: World, j: nat, i: nat)
    requires Wellformed(w) && j < |w.history| && i < |w.history|
    requires Conflicts(w.cfg, w.history[j], w.history[i])
    requires PartitionKey(w.cfg.strategies, w.history[j]).Success? &&
          PartitionKey(w.cfg.strategies, w.history[i]).Success?
    ensures Cacheable(w.cfg, w.history[j])
  {
    ConflictingAreHandled(w, j, i);
    FaithfulAt(w, j);
  }

  // ---------- register ----------

  lemma InFlightAdd(w: World, cache: set<nat>, i: nat)
    requires forall k <- cache :: k < |w.history|
    requires forall a, b :: 0 <= a < b < |w.history| ==> w.history[a].vsn != w.history[b].vsn
    requires i < |w.history| && i !in cache
    ensures w.history[i].vsn !in InFlight(w, cache)
    ensures InFlight(w, cache + {i}) == InFlight(w, cache)[w.history[i].vsn := w.history[i]]
  {
  }

  lemma InFlightRemove(w: World, cache: set<nat>, i: nat)
    requires forall k <- cache :: k < |w.history|
    requires forall a, b :: 0 <= a < b < |w.history| ==> w.history[a].vsn != w.history[b].vsn
    requires i in cache
    ensures InFlight(w, cache - {i}) == InFlight(w, cache) - {w.history[i].vsn}
  {
  }

  lemma RegisterKeepsInv(w: World, s: State, s': State)
    requires Wellformed(w) && Inv(w, s) && RegisterStep(w, s, s')
    ensures Inv(w, s')
  {
    RegisterKeepsShape(w, s, s');
    RegisterKeepsIndex(w, s, s');
    assert forall i: nat :: Past(s', i) <==> Past(s, i);
    assert InvCleared(w, s');
    assert forall id, m :: Frontier(w, s', id, m) ==> Frontier(w, s, id, m);
  }

  lemma RegisterKeepsShape(w: World, s: State, s': State)
    requires InvShape(w, s) && InvQueues(w, s) && InvCache(w, s) && RegisterStep(w, s, s')
    ensures InvShape(w, s') && InvQueues(w, s') && InvCache(w, s')
  {
  }

  lemma RegisterKeepsIndex(w: World, s: State, s': State)
    requires Wellformed(w) && InvShape(w, s) && InvCache(w, s) && InvIndex(w, s) && RegisterStep(w, s, s')
    requires InvShape(w, s') && InvCache(w, s')
    ensures InvIndex(w, s')
  {
    var e := w.history[s.next];
    if Cacheable(w.cfg, e) {
      assert s.next !in s.cache;
      InFlightAdd(w, s.cache, s.next);
      PutRepresents(w.cfg, s.index, InFlight(w, s.cache), e);
    }
  }

  // ---------- enqueue ----------

  lemma EnqueueKeepsQueues(w: World, s: State, s': State)
    requires InvShape(w, s) && InvShape(w, s') && InvQueues(w, s) && EnqueueStep(w, s, s')
    ensures InvQueues(w, s')
  {
    forall c | 0 <= c < |s'.queues|
      ensures Sorted(s'.queues[c])
      ensures forall i: nat :: i in s'.queues[c] <==> i < s'.next && i !in s'.applied && Channel(w, i) == c
    {
      assert forall i <- s.queues[c] :: i < s.next;
      SortedAppend(s.queues[c], s.next);
    }
  }

  lemma SortedAppend(q: seq<nat>, n: nat)
    requires Sorted(q) && forall i <- q :: i < n
    ensures Sorted(q + [n])
  {
    forall a, b | 0 <= a < b < |q + [n]| ensures (q + [n])[a] < (q + [n])[b] {
      assert q[a] in q;
    }
  }

  lemma EnqueueKeepsInv(w: World, s: State, s': State)
    requires Wellformed(w) && Inv(w, s) && EnqueueStep(w, s, s')
    ensures Inv(w, s')
  {
    assert InvShape(w, s');
    EnqueueKeepsQueues(w, s, s');
    assert InvCache(w, s');
    assert forall i: nat :: Past(s', i) ==> Past(s, i);
    assert forall id, m :: Frontier(w, s', id, m) ==> Frontier(w, s, id, m);
  }

  // ---------- remove ----------

  lemma RemoveKeepsOrder(w: World, i: nat, s: State, s': State)
    requires RemoveStep(w, i, s, s')
    requires InvShape(w, s) && InvQueues(w, s) && InvCache(w, s) && InvCleared(w, s) && InvFifo(w, s)
    ensures InvShape(w, s') && InvQueues(w, s') && InvCache(w, s') && InvCleared(w, s') && InvFifo(w, s')
  {
    assert forall k: nat :: Past(s', k) <==> Past(s, k);
    assert forall k: nat :: Put(s', k) <==> Put(s, k);
  }

  lemma RemoveKeepsTarget(w: World, i: nat, s: State, s': State)
    requires RemoveStep(w, i, s, s') && InvTarget(w, s)
    ensures InvTarget(w, s')
  {
    assert forall id, m :: Frontier(w, s', id, m) ==> Frontier(w, s, id, m);
  }

  lemma RemoveKeepsInv(w: World, i: nat, s: State, s': State)
    requires Wellformed(w) && Inv(w, s) && RemoveStep(w, i, s, s')
    ensures Inv(w, s')
  {
    RemoveKeepsOrder(w, i, s, s');
    RemoveKeepsTarget(w, i, s, s');
    InFlightRemove(w, s.cache, i);
    RemoveRepresents(w.cfg, s.index, InFlight(w, s.cache), w.history[i].vsn);
  }

  // ---------- apply ----------

  /** The head of a channel is its earliest unapplied event. */
  lemma HeadIsEarliest(w: World, c: nat, s: State)
    requires InvShape(w, s) && InvQueues(w, s) && c < |s.queues| && s.queues[c] != []
    ensures var i := s.queues[c][0]; i < s.next && i !in s.applied && Channel(w, i) == c
    ensures forall j: nat :: j < s.queues[c][0] && Channel(w, j) == c ==> j in s.applied
  {
    var q := s.queues[c];
    assert q[0] in q;
    forall j: nat | j < q[0] && Channel(w, j) == c ensures j in s.applied {
      assert j !in q;
    }
  }

  lemma ApplyKeepsQueues(w: World, c: nat, s: State, s': State)
    requires InvShape(w, s) && InvShape(w, s') && InvQueues(w, s) && ApplyStep(w, c, s, s')
    ensures InvQueues(w, s')
  {
    var i := s.queues[c][0];
    HeadIsEarliest(w, c, s);
    assert s.queues[c] == [i] + s.queues[c][1..];
    forall d | 0 <= d < |s'.queues|
      ensures Sorted(s'.queues[d])
      ensures forall k: nat :: k in s'.queues[d] <==> k < s'.next && k !in s'.applied && Channel(w, k) == d
    {
      if d == c {
        assert forall k <- s.queues[c][1..] :: k > i;
        forall k: nat ensures k in s'.queues[d] <==> k in s.queues[d] && k != i {
        }
      } else {
        assert i !in s.queues[d];
      }
    }
  }

  /** Just before an event is applied, its target row is at the event's own position. */
  lemma AppliedAtFrontier(w: World, c: nat, s: State)
    requires Wellformed(w) && Inv(w, s) && c < |s.queues| && s.queues[c] != []
    requires s.queues[c][0] < |w.history|
    ensures var i := s.queues[c][0];
            && Frontier(w, s, IdOf(w.history[i]), i)
            && At(s.target, IdOf(w.history[i])) == At(Source(w, i), IdOf(w.history[i]))
  {
    var i := s.queues[c][0];
    var id := IdOf(w.history[i]);
    HeadIsEarliest(w, c, s);
    forall j | 0 <= j < |w.history| && IdOf(w.history[j]) == id ensures j in s.applied <==> j < i {
      if j < i {
        RowReady(w, s, j, i);
      } else if j in s.applied && j != i {
        RowOrder(w, s, i, j);
      }
    }
    assert Frontier(w, s, id, i);
  }

  /** Earlier events of the row of a channel's head have been applied. */
  lemma {:induction false} RowReady(w: World, s: State, j: nat, i: nat)
    requires Wellformed(w) && Inv(w, s)
    requires j < i < s.next && IdOf(w.history[j]) == IdOf(w.history[i])
    requires forall k: nat :: k < i && Channel(w, k) == Channel(w, i) ==> k in s.applied
    ensures j in s.applied
    decreases i - j
  {
    if k: nat :| j < k < i && IdOf(w.history[k]) == IdOf(w.history[i]) {
      RowReady(w, s, k, i);
      RowOrder(w, s, j, k);
    } else {
      assert Past(s, i) && Past(s, j);
      SuccessiveEventsLinked(w, j, i);
      if PartitionKey(w.cfg.strategies, w.history[j]) == PartitionKey(w.cfg.strategies, w.history[i]) {
        assert Channel(w, j) == Channel(w, i);
      } else {
        ConflictingAreHandled(w, j, i);
        assert Waits(w, j, i);
      }
    }
  }

  lemma ApplyKeepsTarget(w: World, c: nat, s: State, s': State)
    requires Wellformed(w) && Inv(w, s) && ApplyStep(w, c, s, s')
    ensures InvTarget(w, s')
  {
    var i := s.queues[c][0];
    AppliedAtFrontier(w, c, s);
    forall id, m | Frontier(w, s', id, m) ensures At(s'.target, id) == At(Source(w, m), id) {
      RowAfterApply(w, s, s', i, id, m);
    }
  }

  lemma RowAfterApply(w: World, s: State, s': State, i: nat, id: RowId, m: nat)
    requires i < |w.history| && InvTarget(w, s)
    requires s'.applied == s.applied + {i} && s'.target == Effect(s.target, w.history[i])
    requires Frontier(w, s, IdOf(w.history[i]), i) && Frontier(w, s', id, m)
    ensures At(s'.target, id) == At(Source(w, m), id)
  {
    var e := w.history[i];
    if id == IdOf(e) {
      FrontierMoves(w, s, s', i, m);
      Untouched(w, i + 1, m, id);
      SameEffect(s.target, Source(w, i), e);
    } else {
      FrontierStays(w, s, s', i, id, m);
      EffectElsewhere(s.target, e, id);
    }
  }

  /** Applying position i moves its row's frontier from i to just behind i. */
  lemma FrontierMoves(w: World, s: State, s': State, i: nat, m: nat)
    requires i < |w.history| && s'.applied == s.applied + {i}
    requires Frontier(w, s, IdOf(w.history[i]), i) && Frontier(w, s', IdOf(w.history[i]), m)
    ensures i < m && forall k :: i + 1 <= k < m ==> IdOf(w.history[k]) != IdOf(w.history[i])
  {
    assert i in s'.applied;
    forall k | i + 1 <= k < m ensures IdOf(w.history[k]) != IdOf(w.history[i]) {
      assert IdOf(w.history[k]) == IdOf(w.history[i]) ==> (k in s'.applied <==> k in s.applied);
    }
  }

  lemma FrontierStays(w: World, s: State, s': State, i: nat, id: RowId, m: nat)
    requires i < |w.history| && s'.applied == s.applied + {i} && id != IdOf(w.history[i])
    requires Frontier(w, s', id, m)
    ensures Frontier(w, s, id, m)
  {
    forall k | 0 <= k < |w.history| && IdOf(w.history[k]) == id ensures k in s.applied <==> k < m {
      assert k in s'.applied <==> k < m;
    }
  }

  lemma SameEffect(a: Rows, b: Rows, e: Event)
    requires At(a, IdOf(e)) == At(b, IdOf(e))
    ensures At(Effect(a, e), IdOf(e)) == At(Effect(b, e), IdOf(e))
  {
  }

  lemma ApplyKeepsInv(w: World, c: nat, s: State, s': State)
    requires Wellformed(w) && Inv(w, s) && ApplyStep(w, c, s, s')
    ensures Inv(w, s')
  {
    HeadIsEarliest(w, c, s);
    assert InvShape(w, s') && InvCache(w, s');
    ApplyKeepsQueues(w, c, s, s');
    ApplyKeepsTarget(w, c, s, s');
    assert forall k: nat :: Past(s', k) <==> Past(s, k);
    assert InvCleared(w, s');
    assert InvFifo(w, s');
  }

  // ---------- all steps ----------

  lemma StepKeepsInv(w: World, s: State, s': State)
    requires Wellformed(w) && Inv(w, s) && Step(w, s, s')
    ensures Inv(w, s')
  {
    if CheckStep(w, s, s') {
      CheckKeepsInv(w, s, s');
    } else if RegisterStep(w, s, s') {
      RegisterKeepsInv(w, s, s');
    } else if EnqueueStep(w, s, s') {
      EnqueueKeepsInv(w, s, s');
    } else if c :| ApplyStep(w, c, s, s') {
      ApplyKeepsInv(w, c, s, s');
    } else {
      var i :| RemoveStep(w, i, s, s');
      RemoveKeepsInv(w, i, s, s');
    }
  }

  lemma {:induction false} RunKeepsInv(w: World, run: seq<State>, k: nat)
    requires Wellformed(w) && Run(w, run) && k < |run|
    ensures Inv(w, run[k])
  {
    if k == 0 {
      InitInv(w);
    } else {
      RunKeepsInv(w, run, k - 1);
      StepKeepsInv(w, run[k - 1], run[k]);
    }
  }
}
