/**
 What the cutover statuses report, in terms of what has happened: a cutover is reported completed
 exactly when every process that its workflow needs has done its part.
 */
module CutoverHistory {
  import opened Wrappers
  import opened CutoverRecord
  import opened CutoverProtocol

  datatype Cutover = OfTarget | OfReplica | OfSource

  /** Something the record keeps a flag for. */
  datatype Fact =
    | Requested(cutover: Cutover)
    | FallbackChosen | GrpcChosen | RestartChosen
    | Streamed(x: Exporter) | CleanedUpBy(x: Exporter)
    | Did(a: Action)

  predicate IsFlagged(a: Action) { !a.Exporting? && !a.Crash? && !a.Initiate? }

  predicate IsFact(fact: Fact) { fact.Did? ==> IsFlagged(fact.a) }

  predicate Asks(a: Action, cutover: Cutover) {
    a.Initiate? &&
    match cutover
    case OfTarget => a.side.ToTarget?
    case OfReplica => a.side.ToReplica?
    case OfSource => a.side.ToSource?
  }

  predicate FirstAsks(actions: seq<Action>, j: nat, cutover: Cutover)
    requires j < |actions|
  {
    Asks(actions[j], cutover) && forall i | 0 <= i < j :: !Asks(actions[i], cutover)
  }

  /** Step j brings the fact about. The answers that count are those of the first request. */
  predicate Makes(run: seq<State>, actions: seq<Action>, j: nat, fact: Fact)
    requires j < |actions| && j < |run|
  {
    match fact
    case Requested(cutover) => Asks(actions[j], cutover)
    case FallbackChosen => FirstAsks(actions, j, OfTarget) && actions[j].side.prepareForFallback
    case GrpcChosen => FirstAsks(actions, j, OfTarget) && actions[j].side.useGrpc
    case RestartChosen => FirstAsks(actions, j, OfSource) && actions[j].side.restart
    case Streamed(x) => actions[j] == Exporting(x) && ProcOf(run[j], x).pc.Streaming?
    case CleanedUpBy(x) => actions[j] == Exporting(x) && ProcOf(run[j], x).pc.CleanedUp?
    case Did(a) => actions[j] == a
  }

  /** It happened in one of the first k steps. */
  predicate Happened(run: seq<State>, actions: seq<Action>, k: nat, fact: Fact)
    requires k <= |actions| && k <= |run|
  {
    exists j: nat :: j < k && Makes(run, actions, j, fact)
  }

  /** The flag of the record that stands for the fact. */
  predicate Flag(s: State, fact: Fact)
    requires IsFact(fact)
  {
    match fact
    case Requested(cutover) =>
      (match cutover
       case OfTarget => s.msr.toTargetRequested
       case OfReplica => s.msr.toReplicaRequested
       case OfSource => s.msr.toSourceRequested)
    case FallbackChosen => s.msr.fallbackEnabled
    case GrpcChosen => s.msr.useGrpcConnector
    case RestartChosen => s.msr.restartNextIteration
    case Streamed(x) => FlagsOf(s.msr, x).started
    case CleanedUpBy(x) => FlagsOf(s.msr, x).processed
    case Did(a) =>
      match a
      case EnableFallForward => s.msr.fallForwardEnabled
      case TargetImporterDone => s.msr.processedByTargetImporter
      case SourceImporterDone => s.msr.processedBySourceImporter
      case ReplicaImporterDone => s.msr.processedByReplicaImporter
      case StartImportToSource => s.msr.importToSourceStarted
      case InitializeNext => s.msr.nextIterationInitialized
      case NextExportStarts => s.next.exportStarted
      case NextImportStarts => s.next.importStarted
  }

  /** What a step does to a flag. */
  predicate Sets(s: State, a: Action, fact: Fact) {
    match fact
    case Requested(cutover) => Asks(a, cutover)
    case FallbackChosen => Asks(a, OfTarget) && !s.msr.toTargetRequested && a.side.prepareForFallback
    case GrpcChosen => Asks(a, OfTarget) && !s.msr.toTargetRequested && a.side.useGrpc
    case RestartChosen => Asks(a, OfSource) && !s.msr.toSourceRequested && a.side.restart
    case Streamed(x) => a == Exporting(x) && ProcOf(s, x).pc.Streaming?
    case CleanedUpBy(x) => a == Exporting(x) && ProcOf(s, x).pc.CleanedUp?
    case Did(b) => a == b
  }

  /** Once a cutover to source is requested its restart choice is fixed, and it has none before. */
  predicate ChoicesOk(msr: Msr) {
    && (msr.fallbackEnabled || msr.useGrpcConnector ==> msr.toTargetRequested)
    && (msr.restartNextIteration ==> msr.toSourceRequested)
  }

  lemma TailSets(f: ExporterFlags, p: Proc, slots: SlotUse, requested: bool, launch: bool)
    requires AdvanceTail(f, p, slots, requested, launch).Some? && TailOk(f, p, slots, requested)
    ensures var f' := AdvanceTail(f, p, slots, requested, launch).value.0;
            && (f'.started <==> f.started || p.pc.Streaming?)
            && (f'.processed <==> f.processed || p.pc.CleanedUp?)
  {
  }

  lemma ExportingSets(s: State, x: Exporter, fact: Fact)
    requires Advance(s, x).Some? && TailInv(s, x) && IsFact(fact)
    ensures Flag(Advanced(s, x), fact) <==> Flag(s, fact) || Sets(s, Exporting(x), fact)
  {
    TailSets(FlagsOf(s.msr, x), ProcOf(s, x), SlotUseOf(s.msr, x), RequestedFor(s.msr, x), MayLaunch(s, x));
    var f := Advance(s, x).value.0;
    AdvancedIs(s, x, x);
    if fact.Streamed? {
      StreamedSets(s, Advanced(s, x), x, f, fact.x);
    } else if fact.CleanedUpBy? {
      CleanedUpSets(s, Advanced(s, x), x, f, fact.x);
    } else {
      WithFlagsKeeps(s, Advanced(s, x), x, f, fact);
    }
  }

  lemma StreamedSets(s: State, s': State, x: Exporter, f: ExporterFlags, y: Exporter)
    requires s'.msr == WithFlags(s.msr, x, f)
    requires f.started <==> FlagsOf(s.msr, x).started || ProcOf(s, x).pc.Streaming?
    ensures Flag(s', Streamed(y)) <==> Flag(s, Streamed(y)) || Sets(s, Exporting(x), Streamed(y))
  {
    OthersUntouched(s.msr, x, f, y);
  }

  lemma CleanedUpSets(s: State, s': State, x: Exporter, f: ExporterFlags, y: Exporter)
    requires s'.msr == WithFlags(s.msr, x, f)
    requires f.processed <==> FlagsOf(s.msr, x).processed || ProcOf(s, x).pc.CleanedUp?
    ensures Flag(s', CleanedUpBy(y)) <==> Flag(s, CleanedUpBy(y)) || Sets(s, Exporting(x), CleanedUpBy(y))
  {
    OthersUntouched(s.msr, x, f, y);
  }

  lemma WithFlagsKeeps(s: State, s': State, x: Exporter, f: ExporterFlags, fact: Fact)
    requires s'.msr == WithFlags(s.msr, x, f) && s'.next == s.next && IsFact(fact)
    requires !fact.Streamed? && !fact.CleanedUpBy?
    ensures !Sets(s, Exporting(x), fact) && (Flag(s', fact) <==> Flag(s, fact))
  {
    match x
    case FromSource =>
    case ForFallForward =>
    case ForFallback =>
  }

  lemma RequestSets(s: State, side: Side, fact: Fact)
    requires ChoicesOk(s.msr) && IsFact(fact)
    ensures var s' := s.(msr := Request(s.msr, side));
            Flag(s', fact) <==> Flag(s, fact) || Sets(s, Initiate(side), fact)
  {
    match side
    case ToTarget(_, _) =>
    case ToReplica =>
    case ToSource(_) =>
  }

  lemma MarkSets(s: State, a: Action, fact: Fact)
    requires Enabled(s, a) && IsFlagged(a) && IsFact(fact)
    ensures Flag(Do(s, a), fact) <==> Flag(s, fact) || Sets(s, a, fact)
  {
    match a
    case EnableFallForward =>
    case TargetImporterDone =>
    case SourceImporterDone =>
    case ReplicaImporterDone =>
    case StartImportToSource =>
    case InitializeNext =>
    case NextExportStarts =>
    case NextImportStarts =>
  }

  lemma StepSets(s: State, a: Action, fact: Fact)
    requires Enabled(s, a) && Inv(s) && ChoicesOk(s.msr) && IsFact(fact)
    ensures Flag(Do(s, a), fact) <==> Flag(s, fact) || Sets(s, a, fact)
  {
    if a.Exporting? {
      assert ExporterOk(s, a.x);
      ExportingSets(s, a.x, fact);
    } else if a.Crash? {
      CrashKeepsRecord(s, a.x);
    } else if a.Initiate? {
      RequestSets(s, a.side, fact);
    } else {
      MarkSets(s, a, fact);
    }
  }

  lemma {:induction false} ChoicesAreKept(run: seq<State>, actions: seq<Action>, pg: bool, k: nat)
    requires Run(run, actions, pg) && k < |run|
    ensures ChoicesOk(run[k].msr)
  {
    if k > 0 {
      ChoicesAreKept(run, actions, pg, k - 1);
      RunKeepsInv(run, actions, pg, k - 1);
      var s, a := run[k - 1], actions[k - 1];
      StepSets(s, a, Requested(OfTarget));
      StepSets(s, a, Requested(OfSource));
      StepSets(s, a, FallbackChosen);
      StepSets(s, a, GrpcChosen);
      StepSets(s, a, RestartChosen);
    }
  }

  lemma InitHasNoFlag(pg: bool, fact: Fact)
    requires IsFact(fact)
    ensures !Flag(Init(pg), fact)
  {
  }

  /** A flag of the record is set exactly when what it stands for has happened. */
  lemma {:induction false} FlagsAreHistory(run: seq<State>, actions: seq<Action>, pg: bool, k: nat, fact: Fact)
    requires Run(run, actions, pg) && k < |run| && IsFact(fact)
    ensures Flag(run[k], fact) <==> Happened(run, actions, k, fact)
    decreases k, fact.FallbackChosen? || fact.GrpcChosen? || fact.RestartChosen?
  {
    if k == 0 {
      InitHasNoFlag(pg, fact);
    } else {
      FlagsAreHistory(run, actions, pg, k - 1, fact);
      FlagsAreHistory(run, actions, pg, k - 1, Requested(OfTarget));
      FlagsAreHistory(run, actions, pg, k - 1, Requested(OfSource));
      OneFlagMore(run, actions, pg, k - 1, fact);
    }
  }

  lemma OneFlagMore(run: seq<State>, actions: seq<Action>, pg: bool, j: nat, fact: Fact)
    requires Run(run, actions, pg) && j < |actions| && IsFact(fact)
    requires Flag(run[j], fact) <==> Happened(run, actions, j, fact)
    requires run[j].msr.toTargetRequested <==> Happened(run, actions, j, Requested(OfTarget))
    requires run[j].msr.toSourceRequested <==> Happened(run, actions, j, Requested(OfSource))
    ensures Flag(run[j + 1], fact) <==> Happened(run, actions, j + 1, fact)
  {
    RunKeepsInv(run, actions, pg, j);
    ChoicesAreKept(run, actions, pg, j);
    StepSets(run[j], actions[j], fact);
    SetsMakes(run, actions, j, fact);
    OneStepMore(run, actions, j, fact);
  }

  lemma SetsMakes(run: seq<State>, actions: seq<Action>, j: nat, fact: Fact)
    requires j < |actions| && j < |run|
    requires run[j].msr.toTargetRequested <==> Happened(run, actions, j, Requested(OfTarget))
    requires run[j].msr.toSourceRequested <==> Happened(run, actions, j, Requested(OfSource))
    ensures Sets(run[j], actions[j], fact) <==> Makes(run, actions, j, fact)
  {
    FirstIsUnrequested(run, actions, j, OfTarget);
    FirstIsUnrequested(run, actions, j, OfSource);
  }

  lemma FirstIsUnrequested(run: seq<State>, actions: seq<Action>, j: nat, cutover: Cutover)
    requires j < |actions| && j < |run|
    ensures FirstAsks(actions, j, cutover) <==>
              Asks(actions[j], cutover) && !Happened(run, actions, j, Requested(cutover))
  {
    forall i: nat | i < j
      ensures Makes(run, actions, i, Requested(cutover)) <==> Asks(actions[i], cutover)
    {
    }
  }

  lemma OneStepMore(run: seq<State>, actions: seq<Action>, j: nat, fact: Fact)
    requires j < |actions| && j < |run|
    ensures Happened(run, actions, j + 1, fact) <==> Happened(run, actions, j, fact) || Makes(run, actions, j, fact)
  {
  }

  // ---------- the statuses ----------

  /** The cutover to the target is reported completed exactly when it was requested, the exporter from the
      source and the importer have done their part, and each process that the chosen workflow needs has
      started: the exporter for fall-forward, or the exporter for fall-back and the import to the source. */
  lemma TargetCompletedIff(run: seq<State>, actions: seq<Action>, pg: bool, k: nat)
    requires Run(run, actions, pg) && k < |run|
    ensures GetCutoverStatus(run[k].msr) == Completed <==>
              && Happened(run, actions, k, Requested(OfTarget))
              && Happened(run, actions, k, CleanedUpBy(FromSource))
              && Happened(run, actions, k, Did(TargetImporterDone))
              && (Happened(run, actions, k, Did(EnableFallForward)) ==>
                    Happened(run, actions, k, Streamed(ForFallForward)))
              && (Happened(run, actions, k, FallbackChosen) ==>
                    && Happened(run, actions, k, Streamed(ForFallback))
                    && Happened(run, actions, k, Did(StartImportToSource)))
    ensures GetCutoverStatus(run[k].msr) == NotInitiated <==> !Happened(run, actions, k, Requested(OfTarget))
  {
    RunKeepsInv(run, actions, pg, k);
    FlagsAreHistory(run, actions, pg, k, Requested(OfTarget));
    FlagsAreHistory(run, actions, pg, k, CleanedUpBy(FromSource));
    FlagsAreHistory(run, actions, pg, k, Did(TargetImporterDone));
    FlagsAreHistory(run, actions, pg, k, Did(EnableFallForward));
    FlagsAreHistory(run, actions, pg, k, Streamed(ForFallForward));
    FlagsAreHistory(run, actions, pg, k, FallbackChosen);
    FlagsAreHistory(run, actions, pg, k, Streamed(ForFallback));
    FlagsAreHistory(run, actions, pg, k, Did(StartImportToSource));
  }

  /** The same for the cutover to the source-replica. */
  lemma ReplicaCompletedIff(run: seq<State>, actions: seq<Action>, pg: bool, k: nat)
    requires Run(run, actions, pg) && k < |run|
    ensures GetCutoverToSourceReplicaStatus(run[k].msr) == Completed <==>
              && Happened(run, actions, k, Requested(OfReplica))
              && Happened(run, actions, k, CleanedUpBy(ForFallForward))
              && Happened(run, actions, k, Did(ReplicaImporterDone))
    ensures GetCutoverToSourceReplicaStatus(run[k].msr) == NotInitiated <==>
              !Happened(run, actions, k, Requested(OfReplica))
  {
    FlagsAreHistory(run, actions, pg, k, Requested(OfReplica));
    FlagsAreHistory(run, actions, pg, k, CleanedUpBy(ForFallForward));
    FlagsAreHistory(run, actions, pg, k, Did(ReplicaImporterDone));
  }

  /** The same for the cutover to the source, which with a restart also waits for the next iteration to be
      initialized and both its commands to have started. */
  lemma SourceCompletedIff(run: seq<State>, actions: seq<Action>, pg: bool, k: nat)
    requires Run(run, actions, pg) && k < |run|
    ensures GetCutoverToSourceStatus(run[k].msr, run[k].next) == Completed <==>
              && Happened(run, actions, k, Requested(OfSource))
              && Happened(run, actions, k, CleanedUpBy(ForFallback))
              && Happened(run, actions, k, Did(SourceImporterDone))
              && (Happened(run, actions, k, RestartChosen) ==>
                    && Happened(run, actions, k, Did(InitializeNext))
                    && Happened(run, actions, k, Did(NextExportStarts))
                    && Happened(run, actions, k, Did(NextImportStarts)))
    ensures GetCutoverToSourceStatus(run[k].msr, run[k].next) == NotInitiated <==>
              !Happened(run, actions, k, Requested(OfSource))
  {
    FlagsAreHistory(run, actions, pg, k, Requested(OfSource));
    FlagsAreHistory(run, actions, pg, k, CleanedUpBy(ForFallback));
    FlagsAreHistory(run, actions, pg, k, Did(SourceImporterDone));
    RestartedIff(run, actions, pg, k);
  }

  lemma RestartedIff(run: seq<State>, actions: seq<Action>, pg: bool, k: nat)
    requires Run(run, actions, pg) && k < |run|
    ensures IsNextIterationStartedIfRequired(run[k].msr, run[k].next) <==>
              (Happened(run, actions, k, RestartChosen) ==>
                 && Happened(run, actions, k, Did(InitializeNext))
                 && Happened(run, actions, k, Did(NextExportStarts))
                 && Happened(run, actions, k, Did(NextImportStarts)))
  {
    FlagsAreHistory(run, actions, pg, k, RestartChosen);
    FlagsAreHistory(run, actions, pg, k, Did(InitializeNext));
    FlagsAreHistory(run, actions, pg, k, Did(NextExportStarts));
    FlagsAreHistory(run, actions, pg, k, Did(NextImportStarts));
  }

  lemma HappenedEarlier(run: seq<State>, actions: seq<Action>, j: nat, k: nat, fact: Fact)
    requires j <= k <= |actions| && k <= |run| && Happened(run, actions, j, fact)
    ensures Happened(run, actions, k, fact)
  {
  }

  /** The next iteration is initialized only with fall-back from a PostgreSQL source, when the cutover to the
      source asked for it and was processed on both sides. */
  lemma {:induction false} NextIterationWaits(run: seq<State>, actions: seq<Action>, pg: bool, k: nat)
    requires Run(run, actions, pg) && k < |run| && Happened(run, actions, k, Did(InitializeNext))
    ensures pg && Happened(run, actions, k, FallbackChosen) && Happened(run, actions, k, RestartChosen)
    ensures Happened(run, actions, k, CleanedUpBy(ForFallback)) && Happened(run, actions, k, Did(SourceImporterDone))
  {
    var j: nat :| j < k && Makes(run, actions, j, Did(InitializeNext));
    assert Enabled(run[j], InitializeNext);
    SourceStays(run, actions, pg, j);
    FlagsAreHistory(run, actions, pg, j, FallbackChosen);
    FlagsAreHistory(run, actions, pg, j, RestartChosen);
    FlagsAreHistory(run, actions, pg, j, CleanedUpBy(ForFallback));
    FlagsAreHistory(run, actions, pg, j, Did(SourceImporterDone));
    HappenedEarlier(run, actions, j, k, FallbackChosen);
    HappenedEarlier(run, actions, j, k, RestartChosen);
    HappenedEarlier(run, actions, j, k, CleanedUpBy(ForFallback));
    HappenedEarlier(run, actions, j, k, Did(SourceImporterDone));
  }

  lemma StepKeepsSource(s: State, a: Action)
    requires Enabled(s, a)
    ensures Do(s, a).msr.sourceIsPostgres == s.msr.sourceIsPostgres
  {
    match a
    case Exporting(x) =>
      AdvancedIs(s, x, x);
      WithFlagsKeepsSource(s.msr, x, Advance(s, x).value.0);
    case Crash(x) => CrashKeepsRecord(s, x);
    case Initiate(side) => RequestKeepsSource(s.msr, side);
    case _ => MarkChanges(s, a);
  }

  lemma WithFlagsKeepsSource(msr: Msr, x: Exporter, f: ExporterFlags)
    ensures WithFlags(msr, x, f).sourceIsPostgres <==> msr.sourceIsPostgres
  {
    match x
    case FromSource =>
    case ForFallForward =>
    case ForFallback =>
  }

  lemma RequestKeepsSource(msr: Msr, side: Side)
    ensures Request(msr, side).sourceIsPostgres <==> msr.sourceIsPostgres
  {
    match side
    case ToTarget(_, _) =>
    case ToReplica =>
    case ToSource(_) =>
  }

  lemma {:induction false} SourceStays(run: seq<State>, actions: seq<Action>, pg: bool, k: nat)
    requires Run(run, actions, pg) && k < |run|
    ensures run[k].msr.sourceIsPostgres == pg
  {
    if k > 0 {
      SourceStays(run, actions, pg, k - 1);
      StepKeepsSource(run[k - 1], actions[k - 1]);
    }
  }
}
