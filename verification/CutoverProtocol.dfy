/**
 Cutover as a transition system. User commands, three exporters and three importers run
 concurrently against the shared status record. An exporter can crash between any two
 persistent writes and is then re-run from the start.
 */
module CutoverProtocol {
  import opened Wrappers
  import opened CutoverRecord

  datatype Exporter = FromSource | ForFallForward | ForFallback

  /** Where an exporter process is. Debezium runs in Streaming only. */
  datatype Pc =
    | Down | Started
    | Preparing | PublicationDropped | PublicationCreated | OldSlotDropped | SlotCreated | SlotRecorded
    | Configured | Streaming | DebeziumExited
    | Cleanup | SlotDropped | CleanedUp | Finished

  /** An exporter process and its replication objects in the database it reads. */
  datatype Proc = Proc(pc: Pc, slot: bool, publication: bool)

  datatype State = State(msr: Msr, next: NextMsr, source: Proc, fallForward: Proc, fallback: Proc)

  function FlagsOf(msr: Msr, x: Exporter): ExporterFlags {
    match x case FromSource => msr.source case ForFallForward => msr.fallForward case ForFallback => msr.fallback
  }

  function WithFlags(msr: Msr, x: Exporter, f: ExporterFlags): Msr {
    match x
    case FromSource => msr.(source := f)
    case ForFallForward => msr.(fallForward := f)
    case ForFallback => msr.(fallback := f)
  }

  function ProcOf(s: State, x: Exporter): Proc {
    match x case FromSource => s.source case ForFallForward => s.fallForward case ForFallback => s.fallback
  }

  function WithProc(s: State, x: Exporter, p: Proc): State {
    match x
    case FromSource => s.(source := p)
    case ForFallForward => s.(fallForward := p)
    case ForFallback => s.(fallback := p)
  }

  /** How an exporter comes by a replication slot and publication: an export from YugabyteDB takes
      those that exist; an export from PostgreSQL drops and creates them anew before every attempt
      at its snapshot, and keeps them once the snapshot is exported. */
  datatype SlotUse = NoSlot | Reuse | Recreate

  function SlotUseOf(msr: Msr, x: Exporter): SlotUse {
    if x.FromSource? then if msr.sourceIsPostgres then Recreate else NoSlot
    else if msr.useGrpcConnector then NoSlot else Reuse
  }

  /** The exporter reads through a replication slot and publication: from PostgreSQL, or from YugabyteDB over
      the logical connector. */
  predicate UsesSlot(msr: Msr, x: Exporter) {
    if x.FromSource? then msr.sourceIsPostgres else !msr.useGrpcConnector
  }

  predicate RequestedFor(msr: Msr, x: Exporter) {
    match x
    case FromSource => msr.toTargetRequested
    case ForFallForward => msr.toReplicaRequested
    case ForFallback => msr.toSourceRequested
  }

  function StatusFor(s: State, x: Exporter): Status {
    match x
    case FromSource => GetCutoverStatus(s.msr)
    case ForFallForward => GetCutoverToSourceReplicaStatus(s.msr)
    case ForFallback => GetCutoverToSourceStatus(s.msr, s.next)
  }

  /** The command may be launched: an export from the target picks its role from the
      enabled workflow and is run after the cutover to the target was requested; a
      command whose cutover is processed and completed exits at once. */
  predicate MayLaunch(s: State, x: Exporter) {
    && !(FlagsOf(s.msr, x).processed && StatusFor(s, x) == Completed)
    && match x
       case FromSource => true
       case ForFallForward => s.msr.toTargetRequested && s.msr.fallForwardEnabled && !s.msr.fallbackEnabled
       case ForFallback => s.msr.toTargetRequested && s.msr.fallbackEnabled
  }

  /** One step of an exporter other than a crash: the new flags and process state, or
      None when the step has to wait for something outside the exporter. */
  function AdvanceTail(f: ExporterFlags, p: Proc, slots: SlotUse, requested: bool, launch: bool)
    : Option<(ExporterFlags, Proc)>
  {
    match p.pc
    case Down => if launch then Some((f, p.(pc := Started))) else None
    case Started => Some((f, p.(pc := if f.detected then Cleanup else Preparing)))
    case Preparing =>
      Some((f, match slots
               case NoSlot => p.(pc := Configured)
               case Reuse => p.(pc := PublicationCreated, publication := true)
               case Recreate =>
                 if f.exported then p.(pc := Configured) else p.(pc := PublicationDropped, publication := false)))
    case PublicationDropped => Some((f, p.(pc := PublicationCreated, publication := true)))
    case PublicationCreated =>
      Some((f, if slots == Recreate then p.(pc := OldSlotDropped, slot := false)
            else p.(pc := SlotCreated, slot := true)))
    case OldSlotDropped => Some((f, p.(pc := SlotCreated, slot := true)))
    case SlotCreated =>
      Some((f.(slotRecorded := true), p.(pc := if slots == Recreate then SlotRecorded else Configured)))
    case SlotRecorded => Some((f.(exported := true), p.(pc := Configured)))
    case Configured => Some((f, p.(pc := Streaming)))
    case Streaming =>
      if !f.started then Some((f.(started := true), p))
      else if requested then Some((f, p.(pc := DebeziumExited)))
      else None
    case DebeziumExited => Some((f.(detected := true), p.(pc := Cleanup)))
    case Cleanup =>
      Some((f, if slots != NoSlot && f.slotRecorded then p.(pc := SlotDropped, slot := false)
               else p.(pc := SlotDropped)))
    case SlotDropped =>
      Some((f, if slots != NoSlot && f.slotRecorded then p.(pc := CleanedUp, publication := false)
               else p.(pc := CleanedUp)))
    case CleanedUp => Some((f.(processed := true), p.(pc := Finished)))
    case Finished => None
  }

  function Advance(s: State, x: Exporter): Option<(ExporterFlags, Proc)> {
    AdvanceTail(FlagsOf(s.msr, x), ProcOf(s, x), SlotUseOf(s.msr, x), RequestedFor(s.msr, x), MayLaunch(s, x))
  }

  function Advanced(s: State, x: Exporter): State
    requires Advance(s, x).Some?
  {
    var (f, p) := Advance(s, x).value;
    WithProc(s, x, p).(msr := WithFlags(s.msr, x, f))
  }

  function Crashed(s: State, x: Exporter): State {
    WithProc(s, x, ProcOf(s, x).(pc := Down))
  }

  datatype Action =
    | EnableFallForward
    | Initiate(side: Side)
    | Exporting(x: Exporter)
    | Crash(x: Exporter)
    | TargetImporterDone | SourceImporterDone | ReplicaImporterDone
    | StartImportToSource
    | InitializeNext | NextExportStarts | NextImportStarts

  /** The action is possible. Importers finish a cutover only after its cutover event,
      which Debezium writes once the cutover is requested. */
  predicate Enabled(s: State, a: Action) {
    match a
    case EnableFallForward => !s.msr.fallbackEnabled
    case Initiate(side) =>
      && Refusal(s.msr, side).None?
      && (side.ToTarget? && side.prepareForFallback ==> !s.msr.fallForwardEnabled)
    case Exporting(x) => Advance(s, x).Some?
    case Crash(_) => true
    case TargetImporterDone => s.msr.toTargetRequested
    case SourceImporterDone => s.msr.toSourceRequested
    case ReplicaImporterDone => s.msr.toReplicaRequested
    case StartImportToSource => s.msr.fallbackEnabled
    case InitializeNext =>
      s.msr.restartNextIteration && s.msr.processedBySourceImporter && s.msr.fallback.processed
      && IterativeCutoverSupported(s.msr)
    case NextExportStarts => s.msr.nextIterationInitialized
    case NextImportStarts => s.msr.nextIterationInitialized
  }

  function Do(s: State, a: Action): State
    requires Enabled(s, a)
  {
    match a
    case EnableFallForward => s.(msr := s.msr.(fallForwardEnabled := true))
    case Initiate(side) => s.(msr := Request(s.msr, side))
    case Exporting(x) => Advanced(s, x)
    case Crash(x) => Crashed(s, x)
    case TargetImporterDone => s.(msr := MarkProcessed(s.msr, TargetImporter))
    case SourceImporterDone => s.(msr := MarkProcessed(s.msr, SourceImporter))
    case ReplicaImporterDone => s.(msr := MarkProcessed(s.msr, ReplicaImporter))
    case StartImportToSource => s.(msr := s.msr.(importToSourceStarted := true))
    case InitializeNext => s.(msr := s.msr.(nextIterationInitialized := true))
    case NextExportStarts => s.(next := s.next.(exportStarted := true))
    case NextImportStarts => s.(next := s.next.(importStarted := true))
  }

  function Init(sourceIsPostgres: bool): State {
    var none, down := ExporterFlags(false, false, false, false, false), Proc(Down, false, false);
    State(Msr(sourceIsPostgres, false, false, false, false, false, false, none, none, none,
              false, false, false, false, false, false),
          NextMsr(false, false), down, down, down)
  }

  /** Fall-forward is set up before the cutover to the target is requested. */
  predicate InTime(s: State, a: Action) {
    a.EnableFallForward? ==> s.msr.fallForwardEnabled || !s.msr.toTargetRequested
  }

  predicate Run(run: seq<State>, actions: seq<Action>, sourceIsPostgres: bool) {
    && |run| == |actions| + 1
    && run[0] == Init(sourceIsPostgres)
    && forall k :: 0 <= k < |actions| ==> Enabled(run[k], actions[k]) && run[k + 1] == Do(run[k], actions[k])
  }

  predicate TimelyRun(run: seq<State>, actions: seq<Action>, sourceIsPostgres: bool) {
    && Run(run, actions, sourceIsPostgres)
    && forall k :: 0 <= k < |actions| ==> InTime(run[k], actions[k])
  }

  // ---------- the exporter's tail ----------

  predicate BeforeDetection(pc: Pc) {
    || pc.Preparing? || pc.PublicationDropped? || pc.PublicationCreated? || pc.OldSlotDropped? || pc.SlotCreated?
    || pc.SlotRecorded? || pc.Configured? || pc.Streaming? || pc.DebeziumExited?
  }

  predicate Reading(pc: Pc) { pc.Configured? || pc.Streaming? || pc.DebeziumExited? }

  /** While slot and publication are being set up. */
  predicate SettingUpOk(f: ExporterFlags, p: Proc, slots: SlotUse) {
    && (p.pc.PublicationDropped? || p.pc.OldSlotDropped? || p.pc.SlotRecorded? ==> slots == Recreate && !f.exported)
    && (p.pc.PublicationCreated? || p.pc.SlotCreated? ==> slots != NoSlot && (slots == Recreate ==> !f.exported))
    && (p.pc.PublicationCreated? || p.pc.OldSlotDropped? || p.pc.SlotCreated? || p.pc.SlotRecorded? ==> p.publication)
    && (p.pc.SlotCreated? || p.pc.SlotRecorded? ==> p.slot)
    && (p.pc.SlotRecorded? ==> f.slotRecorded)
  }

  /** From the first read to the cutover. */
  predicate ReadingOk(f: ExporterFlags, p: Proc, slots: SlotUse) {
    && (slots != NoSlot && Reading(p.pc) ==> f.slotRecorded && p.slot && p.publication)
    && (slots == Recreate && (Reading(p.pc) || f.started) ==> f.exported)
    && (slots == Recreate && f.exported && !f.detected ==> f.slotRecorded && p.slot && p.publication)
    && (f.started && slots != NoSlot ==> f.slotRecorded)
  }

  /** What holds of an exporter in every reachable state. */
  predicate TailOk(f: ExporterFlags, p: Proc, slots: SlotUse, requested: bool) {
    && SettingUpOk(f, p, slots) && ReadingOk(f, p, slots)
    && EndingOk(f, p, slots, requested)
  }

  /** From detection to the end. */
  predicate EndingOk(f: ExporterFlags, p: Proc, slots: SlotUse, requested: bool) {
    FlagsOk(f, p, requested) && (slots != NoSlot ==> GoneOk(f, p))
  }

  predicate FlagsOk(f: ExporterFlags, p: Proc, requested: bool) {
    && (BeforeDetection(p.pc) ==> !f.detected)
    && (p.pc.Cleanup? || p.pc.SlotDropped? || p.pc.CleanedUp? || p.pc.Finished? ==> f.detected)
    && (p.pc.DebeziumExited? ==> f.started && requested)
    && (f.detected ==> f.started && requested)
    && (f.processed ==> f.detected)
    && (p.pc.Finished? ==> f.processed)
  }

  predicate GoneOk(f: ExporterFlags, p: Proc) {
    && (p.pc.SlotDropped? || p.pc.CleanedUp? || p.pc.Finished? ==> !p.slot)
    && (p.pc.CleanedUp? || p.pc.Finished? ==> !p.publication)
    && (f.processed ==> !p.slot && !p.publication)
  }

  predicate TailInv(s: State, x: Exporter) {
    TailOk(FlagsOf(s.msr, x), ProcOf(s, x), SlotUseOf(s.msr, x), RequestedFor(s.msr, x))
  }

  lemma AdvanceKeepsSettingUp(f: ExporterFlags, p: Proc, slots: SlotUse, requested: bool, launch: bool)
    requires TailOk(f, p, slots, requested) && AdvanceTail(f, p, slots, requested, launch).Some?
    ensures var (f', p') := AdvanceTail(f, p, slots, requested, launch).value; SettingUpOk(f', p', slots)
  {
  }

  lemma AdvanceKeepsReading(f: ExporterFlags, p: Proc, slots: SlotUse, requested: bool, launch: bool)
    requires TailOk(f, p, slots, requested) && AdvanceTail(f, p, slots, requested, launch).Some?
    ensures var (f', p') := AdvanceTail(f, p, slots, requested, launch).value; ReadingOk(f', p', slots)
  {
  }

  lemma AdvanceKeepsFlags(f: ExporterFlags, p: Proc, slots: SlotUse, requested: bool, launch: bool)
    requires FlagsOk(f, p, requested) && AdvanceTail(f, p, slots, requested, launch).Some?
    ensures var (f', p') := AdvanceTail(f, p, slots, requested, launch).value; FlagsOk(f', p', requested)
  {
  }

  lemma AdvanceKeepsGone(f: ExporterFlags, p: Proc, slots: SlotUse, requested: bool, launch: bool)
    requires slots != NoSlot && (f.started ==> f.slotRecorded)
    requires FlagsOk(f, p, requested) && GoneOk(f, p) && AdvanceTail(f, p, slots, requested, launch).Some?
    ensures var (f', p') := AdvanceTail(f, p, slots, requested, launch).value; GoneOk(f', p')
  {
  }

  lemma AdvanceKeepsTail(f: ExporterFlags, p: Proc, slots: SlotUse, requested: bool, launch: bool)
    requires TailOk(f, p, slots, requested) && AdvanceTail(f, p, slots, requested, launch).Some?
    ensures var (f', p') := AdvanceTail(f, p, slots, requested, launch).value; TailOk(f', p', slots, requested)
  {
    AdvanceKeepsSettingUp(f, p, slots, requested, launch);
    AdvanceKeepsReading(f, p, slots, requested, launch);
    AdvanceKeepsFlags(f, p, slots, requested, launch);
    if slots != NoSlot {
      AdvanceKeepsGone(f, p, slots, requested, launch);
    }
  }

  lemma CrashKeepsTail(f: ExporterFlags, p: Proc, slots: SlotUse, requested: bool)
    requires TailOk(f, p, slots, requested)
    ensures TailOk(f, p.(pc := Down), slots, requested)
  {
  }

  predicate Untouched(s: State, x: Exporter) {
    FlagsOf(s.msr, x) == ExporterFlags(false, false, false, false, false) && ProcOf(s, x) == Proc(Down, false, false)
  }

  /** The workflow the exporter belongs to has been chosen. */
  predicate WorkflowOf(msr: Msr, x: Exporter) {
    match x
    case FromSource => true
    case ForFallForward => msr.toTargetRequested && msr.fallForwardEnabled
    case ForFallback => msr.toTargetRequested && msr.fallbackEnabled
  }

  /** What holds of one exporter: it does nothing before its workflow is chosen. */
  predicate ExporterOk(s: State, x: Exporter) {
    TailInv(s, x) && (!WorkflowOf(s.msr, x) ==> Untouched(s, x))
  }

  /** What holds of the rest of the record. */
  predicate MsrOk(msr: Msr) {
    && !(msr.fallForwardEnabled && msr.fallbackEnabled)
    && (msr.fallbackEnabled ==> msr.toTargetRequested)
    && (msr.processedByTargetImporter ==> msr.toTargetRequested)
    && (msr.processedBySourceImporter ==> msr.toSourceRequested)
    && (msr.processedByReplicaImporter ==> msr.toReplicaRequested)
  }

  predicate Inv(s: State) {
    && ExporterOk(s, FromSource) && ExporterOk(s, ForFallForward) && ExporterOk(s, ForFallback)
    && MsrOk(s.msr)
  }

  // ---------- each step, one exporter at a time ----------

  lemma LaterRequestKeepsTail(f: ExporterFlags, p: Proc, slots: SlotUse, requested: bool, later: bool)
    requires TailOk(f, p, slots, requested) && (requested ==> later)
    ensures TailOk(f, p, slots, later)
  {
  }

  lemma UntouchedIsOk(slots: SlotUse, requested: bool)
    ensures TailOk(ExporterFlags(false, false, false, false, false), Proc(Down, false, false), slots, requested)
  {
  }

  lemma OwnStepKeepsExporter(s: State, x: Exporter)
    requires ExporterOk(s, x) && Advance(s, x).Some?
    ensures ExporterOk(Advanced(s, x), x)
  {
    var f, p := FlagsOf(s.msr, x), ProcOf(s, x);
    var slots, requested, launch := SlotUseOf(s.msr, x), RequestedFor(s.msr, x), MayLaunch(s, x);
    AdvanceKeepsTail(f, p, slots, requested, launch);
    AdvancedIs(s, x, x);
    FlagsKeepMsr(s.msr, x, Advance(s, x).value.0);
  }

  /** What another exporter's step leaves alone. */
  lemma AdvancedIs(s: State, x: Exporter, y: Exporter)
    requires Advance(s, x).Some?
    ensures Advanced(s, x).msr == WithFlags(s.msr, x, Advance(s, x).value.0) && Advanced(s, x).next == s.next
    ensures ProcOf(Advanced(s, x), y) == if y == x then Advance(s, x).value.1 else ProcOf(s, y)
  {
  }

  lemma FlagsKeepMsr(msr: Msr, x: Exporter, f: ExporterFlags)
    ensures var msr' := WithFlags(msr, x, f);
            && (MsrOk(msr') <==> MsrOk(msr))
            && forall y :: SlotUseOf(msr', y) == SlotUseOf(msr, y) && RequestedFor(msr', y) == RequestedFor(msr, y)
                 && (WorkflowOf(msr', y) <==> WorkflowOf(msr, y))
                 && FlagsOf(msr', y) == if y == x then f else FlagsOf(msr, y)
  {
    match x
    case FromSource =>
    case ForFallForward =>
    case ForFallback =>
  }

  lemma OtherStepKeepsExporter(s: State, x: Exporter, y: Exporter)
    requires ExporterOk(s, y) && Advance(s, x).Some? && y != x
    ensures ExporterOk(Advanced(s, x), y)
  {
    AdvancedIs(s, x, y);
    FlagsKeepMsr(s.msr, x, Advance(s, x).value.0);
  }

  lemma CrashKeepsExporter(s: State, x: Exporter, y: Exporter)
    requires ExporterOk(s, y)
    ensures ExporterOk(Crashed(s, x), y)
  {
    CrashKeepsRecord(s, x);
    if y == x {
      CrashKeepsTail(FlagsOf(s.msr, x), ProcOf(s, x), SlotUseOf(s.msr, x), RequestedFor(s.msr, x));
      assert ProcOf(Crashed(s, x), x) == ProcOf(s, x).(pc := Down);
    } else {
      assert ProcOf(Crashed(s, x), y) == ProcOf(s, y);
    }
  }

  /** A request changes how an exporter comes by its slot only while that exporter is untouched. */
  lemma RequestIs(msr: Msr, side: Side, x: Exporter)
    ensures FlagsOf(Request(msr, side), x) == FlagsOf(msr, x)
    ensures RequestedFor(msr, x) ==> RequestedFor(Request(msr, side), x)
    ensures WorkflowOf(msr, x) ==> WorkflowOf(Request(msr, side), x)
    ensures SlotUseOf(Request(msr, side), x) == SlotUseOf(msr, x) || !WorkflowOf(msr, x)
  {
    match side
    case ToTarget(_, _) =>
    case ToReplica =>
    case ToSource(_) =>
  }

  lemma RequestKeepsExporter(s: State, side: Side, x: Exporter)
    requires ExporterOk(s, x) && Enabled(s, Initiate(side))
    ensures ExporterOk(Do(s, Initiate(side)), x)
  {
    var msr' := Request(s.msr, side);
    RequestIs(s.msr, side, x);
    assert ProcOf(Do(s, Initiate(side)), x) == ProcOf(s, x);
    if WorkflowOf(s.msr, x) {
      LaterRequestKeepsTail(FlagsOf(s.msr, x), ProcOf(s, x), SlotUseOf(s.msr, x), RequestedFor(s.msr, x),
                            RequestedFor(msr', x));
    } else {
      UntouchedIsOk(SlotUseOf(msr', x), RequestedFor(msr', x));
    }
  }

  /** Actions of importers and iterations, and the set-up of fall-forward: they mark the record. */
  predicate Marks(a: Action) { !a.Exporting? && !a.Crash? && !a.Initiate? }

  lemma MarkIs(s: State, a: Action, x: Exporter)
    requires Enabled(s, a) && Marks(a)
    ensures ProcOf(Do(s, a), x) == ProcOf(s, x) && FlagsOf(Do(s, a).msr, x) == FlagsOf(s.msr, x)
  {
    match x
    case FromSource =>
    case ForFallForward =>
    case ForFallback =>
  }

  lemma MarkKeepsRequest(s: State, a: Action, x: Exporter)
    requires Enabled(s, a) && Marks(a)
    ensures var msr := Do(s, a).msr;
            && SlotUseOf(msr, x) == SlotUseOf(s.msr, x) && RequestedFor(msr, x) == RequestedFor(s.msr, x)
            && (WorkflowOf(s.msr, x) ==> WorkflowOf(msr, x))
  {
    MarkChanges(s, a);
    SameMeansSame(s.msr, Do(s, a).msr, x);
  }

  /** The record with the parts that no exporter reads set aside. */
  predicate SameForExporters(msr: Msr, msr': Msr) {
    && msr'.sourceIsPostgres == msr.sourceIsPostgres && msr'.useGrpcConnector == msr.useGrpcConnector
    && msr'.fallbackEnabled == msr.fallbackEnabled && (msr.fallForwardEnabled ==> msr'.fallForwardEnabled)
    && msr'.toTargetRequested == msr.toTargetRequested
    && msr'.toReplicaRequested == msr.toReplicaRequested && msr'.toSourceRequested == msr.toSourceRequested
  }

  lemma MarkChanges(s: State, a: Action)
    requires Enabled(s, a) && Marks(a)
    ensures SameForExporters(s.msr, Do(s, a).msr)
  {
    match a
    case EnableFallForward =>
    case TargetImporterDone =>
    case SourceImporterDone =>
    case ReplicaImporterDone =>
    case StartImportToSource =>
    case InitializeNext =>
    case NextExportStarts =>
    case NextImportStarts =>
    case Initiate(_) =>
    case Exporting(_) =>
    case Crash(_) =>
  }

  lemma SameMeansSame(msr: Msr, msr': Msr, x: Exporter)
    requires SameForExporters(msr, msr')
    ensures SlotUseOf(msr', x) == SlotUseOf(msr, x) && RequestedFor(msr', x) == RequestedFor(msr, x)
    ensures WorkflowOf(msr, x) ==> WorkflowOf(msr', x)
  {
  }

  lemma StepKeepsExporter(s: State, a: Action, x: Exporter)
    requires ExporterOk(s, x) && Enabled(s, a)
    ensures ExporterOk(Do(s, a), x)
  {
    if a == Exporting(x) {
      OwnStepKeepsExporter(s, x);
    } else if a.Exporting? {
      OtherStepKeepsExporter(s, a.x, x);
    } else if a.Crash? {
      CrashKeepsExporter(s, a.x, x);
    } else if a.Initiate? {
      RequestKeepsExporter(s, a.side, x);
    } else {
      MarkIs(s, a, x);
      MarkKeepsRequest(s, a, x);
    }
  }

  lemma RequestKeepsMsr(s: State, side: Side)
    requires MsrOk(s.msr) && Enabled(s, Initiate(side))
    ensures MsrOk(Request(s.msr, side))
  {
    match side
    case ToTarget(_, _) =>
    case ToReplica =>
    case ToSource(_) =>
  }

  lemma MarkKeepsMsr(s: State, a: Action)
    requires MsrOk(s.msr) && Enabled(s, a) && Marks(a)
    ensures MsrOk(Do(s, a).msr)
  {
    match a
    case EnableFallForward =>
    case TargetImporterDone =>
    case SourceImporterDone =>
    case ReplicaImporterDone =>
    case _ =>
  }

  lemma StepKeepsMsr(s: State, a: Action)
    requires MsrOk(s.msr) && Enabled(s, a)
    ensures MsrOk(Do(s, a).msr)
  {
    if a.Exporting? {
      AdvancedIs(s, a.x, a.x);
      FlagsKeepMsr(s.msr, a.x, Advance(s, a.x).value.0);
    } else if a.Crash? {
      CrashKeepsRecord(s, a.x);
    } else if a.Initiate? {
      RequestKeepsMsr(s, a.side);
    } else {
      MarkKeepsMsr(s, a);
    }
  }

  lemma StepKeepsInv(s: State, a: Action)
    requires Inv(s) && Enabled(s, a)
    ensures Inv(Do(s, a))
  {
    StepKeepsExporter(s, a, FromSource);
    StepKeepsExporter(s, a, ForFallForward);
    StepKeepsExporter(s, a, ForFallback);
    StepKeepsMsr(s, a);
  }

  lemma InitInv(pg: bool)
    ensures Inv(Init(pg))
  {
    InitExporterOk(pg, FromSource);
    InitExporterOk(pg, ForFallForward);
    InitExporterOk(pg, ForFallback);
  }

  lemma InitExporterOk(pg: bool, x: Exporter)
    ensures ExporterOk(Init(pg), x)
  {
    UntouchedIsOk(SlotUseOf(Init(pg).msr, x), RequestedFor(Init(pg).msr, x));
    match x
    case FromSource =>
    case ForFallForward =>
    case ForFallback =>
  }

  lemma {:induction false} RunKeepsInv(run: seq<State>, actions: seq<Action>, pg: bool, k: nat)
    requires Run(run, actions, pg) && k < |run|
    ensures Inv(run[k])
  {
    if k == 0 {
      InitInv(pg);
    } else {
      RunKeepsInv(run, actions, pg, k - 1);
      StepKeepsInv(run[k - 1], actions[k - 1]);
    }
  }

  // ---------- the exporter's tail: theorems ----------

  /** When a process that is not running may be launched: never again once its cutover is processed by it and
      completed; and an export from the target only after the cutover to it, in the workflow that was set up. */
  lemma LaunchIff(run: seq<State>, actions: seq<Action>, pg: bool, k: nat, x: Exporter)
    requires Run(run, actions, pg) && k < |run| && ProcOf(run[k], x).pc.Down?
    ensures Enabled(run[k], Exporting(x)) <==>
              match x
              case FromSource => !(run[k].msr.source.processed && GetCutoverStatus(run[k].msr) == Completed)
              case ForFallForward =>
                && run[k].msr.toTargetRequested && run[k].msr.fallForwardEnabled
                && GetCutoverToSourceReplicaStatus(run[k].msr) != Completed
              case ForFallback =>
                && run[k].msr.fallbackEnabled
                && !(run[k].msr.fallback.processed
                     && GetCutoverToSourceStatus(run[k].msr, run[k].next) == Completed)
  {
    RunKeepsInv(run, actions, pg, k);
    assert MsrOk(run[k].msr);
  }

  /** In every reachable state, crashes included: a processed cutover has its slot and
      publication dropped and its detection flag set; an exported PostgreSQL snapshot keeps
      them until detection; and Debezium is only started, and a slot only created, while that
      flag is unset. They are dropped exactly when the exporter cleans up after detection, or
      makes them anew for the snapshot of a PostgreSQL source, which is then neither exported
      nor was anything streamed from them. */
  lemma TailIsSafe(run: seq<State>, actions: seq<Action>, pg: bool, k: nat, x: Exporter)
    requires Run(run, actions, pg) && k < |run|
    ensures var s := run[k];
            && (FlagsOf(s.msr, x).processed ==> FlagsOf(s.msr, x).detected)
            && (FlagsOf(s.msr, x).processed && UsesSlot(s.msr, x) ==> !ProcOf(s, x).slot && !ProcOf(s, x).publication)
            && (s.msr.source.detected ==> s.msr.toTargetRequested)
            && (s.msr.fallForward.detected ==> s.msr.toReplicaRequested)
            && (s.msr.fallback.detected ==> s.msr.toSourceRequested)
            && (ProcOf(s, x).pc.Streaming? ==> !FlagsOf(s.msr, x).detected)
            && (ProcOf(s, x).pc.Streaming? && UsesSlot(s.msr, x) ==>
                  ProcOf(s, x).slot && ProcOf(s, x).publication && FlagsOf(s.msr, x).slotRecorded)
            && (x.FromSource? && s.msr.sourceIsPostgres && s.msr.source.exported && !s.msr.source.detected ==>
                  s.source.slot && s.source.publication)
    ensures k < |actions| && ProcOf(run[k + 1], x).pc.Streaming? ==> !FlagsOf(run[k].msr, x).detected
    ensures k < |actions| && Created(run[k], run[k + 1], x) ==>
              UsesSlot(run[k].msr, x) && !FlagsOf(run[k].msr, x).detected
    ensures k < |actions| ==>
              (Dropped(run[k], run[k + 1], x) <==>
                 actions[k] == Exporting(x) && (StartsOver(run[k], x) || CleansUp(run[k], x)))
    ensures StartsOver(run[k], x) ==> !FlagsOf(run[k].msr, x).detected && NotYetRead(run[k], x)
  {
    RunKeepsInv(run, actions, pg, k);
    InvIsSafe(run[k], x);
    InvIsSafe(run[k], FromSource);
    InvIsSafe(run[k], ForFallForward);
    InvIsSafe(run[k], ForFallback);
    if k < |actions| {
      StepKeepsSlotUntilDone(run[k], actions[k], x);
    }
  }

  lemma InvIsSafe(s: State, x: Exporter)
    requires Inv(s)
    ensures FlagsOf(s.msr, x).processed ==> FlagsOf(s.msr, x).detected
    ensures FlagsOf(s.msr, x).processed && UsesSlot(s.msr, x) ==> !ProcOf(s, x).slot && !ProcOf(s, x).publication
    ensures FlagsOf(s.msr, x).detected ==> RequestedFor(s.msr, x)
    ensures ProcOf(s, x).pc.Streaming? ==> !FlagsOf(s.msr, x).detected
    ensures ProcOf(s, x).pc.Streaming? && UsesSlot(s.msr, x) ==>
              ProcOf(s, x).slot && ProcOf(s, x).publication && FlagsOf(s.msr, x).slotRecorded
    ensures x.FromSource? && s.msr.sourceIsPostgres && s.msr.source.exported && !s.msr.source.detected ==>
              s.source.slot && s.source.publication
  {
    assert TailInv(s, x);
  }

  /** The step creates a slot for the exporter, or a publication. */
  predicate Created(s: State, s': State, x: Exporter) {
    (!ProcOf(s, x).slot && ProcOf(s', x).slot) || (!ProcOf(s, x).publication && ProcOf(s', x).publication)
  }

  /** The step drops the exporter's slot or publication. */
  predicate Dropped(s: State, s': State, x: Exporter) {
    (ProcOf(s, x).slot && !ProcOf(s', x).slot) || (ProcOf(s, x).publication && !ProcOf(s', x).publication)
  }

  /** The exporter is one from a PostgreSQL source that has neither exported its snapshot nor streamed. */
  predicate NotYetRead(s: State, x: Exporter) {
    x.FromSource? && s.msr.sourceIsPostgres && !FlagsOf(s.msr, x).exported && !FlagsOf(s.msr, x).started
  }

  /** The exporter is about to drop a publication or slot left over from an earlier attempt at the snapshot. */
  predicate StartsOver(s: State, x: Exporter) {
    && x.FromSource? && s.msr.sourceIsPostgres && !s.msr.source.exported
    && ((ProcOf(s, x).pc.Preparing? && ProcOf(s, x).publication)
        || (ProcOf(s, x).pc.PublicationCreated? && ProcOf(s, x).slot))
  }

  /** The exporter has detected its cutover and is about to drop the slot, or after it the publication. */
  predicate CleansUp(s: State, x: Exporter) {
    && UsesSlot(s.msr, x) && FlagsOf(s.msr, x).detected
    && ((ProcOf(s, x).pc.Cleanup? && ProcOf(s, x).slot) || (ProcOf(s, x).pc.SlotDropped? && ProcOf(s, x).publication))
  }

  /** An exporter's own step: what it may do to its slot, its publication and Debezium. */
  lemma OwnStep(f: ExporterFlags, p: Proc, slots: SlotUse, requested: bool, launch: bool)
    requires TailOk(f, p, slots, requested) && AdvanceTail(f, p, slots, requested, launch).Some?
    ensures var p' := AdvanceTail(f, p, slots, requested, launch).value.1;
            && ((p'.slot && !p.slot) || (p'.publication && !p.publication) ==> slots != NoSlot && !f.detected)
            && (p'.pc.Streaming? ==> !f.detected)
            && ((p.slot && !p'.slot) || (p.publication && !p'.publication) <==>
                  || (slots == Recreate && !f.exported
                      && ((p.pc.Preparing? && p.publication) || (p.pc.PublicationCreated? && p.slot)))
                  || (slots != NoSlot && f.detected
                      && ((p.pc.Cleanup? && p.slot) || (p.pc.SlotDropped? && p.publication))))
  {
    assert SettingUpOk(f, p, slots) && EndingOk(f, p, slots, requested);
  }

  /** Any other step leaves the exporter alone or stops it. */
  lemma OtherStep(s: State, a: Action, x: Exporter)
    requires Enabled(s, a) && a != Exporting(x)
    ensures ProcOf(Do(s, a), x) == ProcOf(s, x) || ProcOf(Do(s, a), x) == ProcOf(s, x).(pc := Down)
  {
  }

  lemma StepKeepsSlotUntilDone(s: State, a: Action, x: Exporter)
    requires Inv(s) && Enabled(s, a)
    ensures Created(s, Do(s, a), x) ==> UsesSlot(s.msr, x) && !FlagsOf(s.msr, x).detected
    ensures ProcOf(Do(s, a), x).pc.Streaming? ==> !FlagsOf(s.msr, x).detected
    ensures Dropped(s, Do(s, a), x) <==> a == Exporting(x) && (StartsOver(s, x) || CleansUp(s, x))
    ensures StartsOver(s, x) ==> !FlagsOf(s.msr, x).detected && NotYetRead(s, x)
  {
    assert TailInv(s, x);
    if a == Exporting(x) {
      var launch := MayLaunch(s, x);
      OwnStep(FlagsOf(s.msr, x), ProcOf(s, x), SlotUseOf(s.msr, x), RequestedFor(s.msr, x), launch);
    } else {
      OtherStep(s, a, x);
    }
  }

  /** Steps an undisturbed exporter still needs. */
  function TailLeft(f: ExporterFlags, pc: Pc): nat {
    match pc
    case Down => if f.detected then 5 else 15
    case Started => if f.detected then 4 else 14
    case Preparing => 13
    case PublicationDropped => 12
    case PublicationCreated => 11
    case OldSlotDropped => 10
    case SlotCreated => 9
    case SlotRecorded => 8
    case Configured => 7
    case Streaming => if f.started then 5 else 6
    case DebeziumExited => 4
    case Cleanup => 3
    case SlotDropped => 2
    case CleanedUp => 1
    case Finished => 0
  }

  /** The exporter run undisturbed for n steps. */
  function Undisturbed(s: State, x: Exporter, n: nat): State
    decreases n
  {
    if n == 0 || Advance(s, x).None? then s else Undisturbed(Advanced(s, x), x, n - 1)
  }

  /** From every crash point, and every other reachable state, a re-run without crashes
      reaches "processed", provided the cutover was requested and its workflow enabled. */
  lemma {:induction false} TailRecovers(s: State, x: Exporter)
    requires Inv(s) && RequestedFor(s.msr, x) && WorkflowOf(s.msr, x)
    ensures FlagsOf(Undisturbed(s, x, TailLeft(FlagsOf(s.msr, x), ProcOf(s, x).pc)).msr, x).processed
    decreases TailLeft(FlagsOf(s.msr, x), ProcOf(s, x).pc)
  {
    var f, p := FlagsOf(s.msr, x), ProcOf(s, x);
    if Advance(s, x).Some? {
      StepKeepsInv(s, Exporting(x));
      TailShrinks(f, p, SlotUseOf(s.msr, x), RequestedFor(s.msr, x), MayLaunch(s, x));
      var s' := Advanced(s, x);
      TailRecovers(s', x);
      var n, n' := TailLeft(f, p.pc), TailLeft(FlagsOf(s'.msr, x), ProcOf(s', x).pc);
      RunLonger(s', x, n', n - 1);
    } else {
      assert f.processed;
    }
  }

  lemma TailShrinks(f: ExporterFlags, p: Proc, slots: SlotUse, requested: bool, launch: bool)
    requires AdvanceTail(f, p, slots, requested, launch).Some?
    ensures var (f', p') := AdvanceTail(f, p, slots, requested, launch).value;
            TailLeft(f', p'.pc) < TailLeft(f, p.pc)
  {
    var f', p' := AdvanceTail(f, p, slots, requested, launch).value.0,
          AdvanceTail(f, p, slots, requested, launch).value.1;
    match p.pc
    case Down | Started | Streaming | DebeziumExited =>
      assert TailLeft(f', p'.pc) < TailLeft(f, p.pc);
    case Preparing | PublicationDropped | PublicationCreated | OldSlotDropped | SlotCreated | SlotRecorded
          | Configured =>
      assert TailLeft(f', p'.pc) < TailLeft(f, p.pc);
    case Cleanup | SlotDropped | CleanedUp | Finished =>
      assert TailLeft(f', p'.pc) < TailLeft(f, p.pc);
  }

  /** Once processed, more undisturbed steps keep it processed. */
  lemma {:induction false} RunLonger(s: State, x: Exporter, m: nat, n: nat)
    requires m <= n && FlagsOf(Undisturbed(s, x, m).msr, x).processed
    ensures FlagsOf(Undisturbed(s, x, n).msr, x).processed
    decreases n
  {
    if Advance(s, x).Some? && n > 0 {
      if m == 0 {
        RunLonger(Advanced(s, x), x, 0, n - 1);
      } else {
        RunLonger(Advanced(s, x), x, m - 1, n - 1);
      }
    }
  }

  // ---------- statuses ----------

  function Rank(st: Status): nat {
    match st case NotInitiated => 0 case Initiated => 1 case Completed => 2
  }

  /** Forward by at most one stage, and never back. */
  predicate Moves(a: Status, b: Status) {
    Rank(a) <= Rank(b) <= Rank(a) + 1
  }

  /** The flags change in at most one place, and only by being set. */
  predicate SetsOneFlag(f: ExporterFlags, f': ExporterFlags) {
    || f' == f
    || f' == f.(slotRecorded := true)
    || f' == f.(exported := true)
    || f' == f.(started := true)
    || f' == f.(detected := true)
    || f' == f.(processed := true)
  }

  lemma AdvanceSetsOneFlag(f: ExporterFlags, p: Proc, slots: SlotUse, requested: bool, launch: bool)
    requires AdvanceTail(f, p, slots, requested, launch).Some?
    ensures SetsOneFlag(f, AdvanceTail(f, p, slots, requested, launch).value.0)
    ensures var f' := AdvanceTail(f, p, slots, requested, launch).value.0;
            f'.slotRecorded && !f.slotRecorded ==> p.pc.SlotCreated?
  {
  }

  /** All three statuses move forward by at most one stage. */
  predicate AllMove(msr: Msr, next: NextMsr, msr': Msr, next': NextMsr) {
    && Moves(GetCutoverStatus(msr), GetCutoverStatus(msr'))
    && Moves(GetCutoverToSourceReplicaStatus(msr), GetCutoverToSourceReplicaStatus(msr'))
    && Moves(GetCutoverToSourceStatus(msr, next), GetCutoverToSourceStatus(msr', next'))
  }

  lemma ExporterFlagMoves(msr: Msr, next: NextMsr, x: Exporter, f': ExporterFlags)
    requires SetsOneFlag(FlagsOf(msr, x), f')
    ensures AllMove(msr, next, WithFlags(msr, x, f'), next)
  {
    match x {
      case FromSource =>
      case ForFallForward =>
      case ForFallback =>
    }
  }

  lemma RequestMoves(s: State, side: Side)
    requires Inv(s) && Enabled(s, Initiate(side))
    ensures AllMove(s.msr, s.next, Request(s.msr, side), s.next)
  {
    UnrequestedIsUnprocessed(s);
    match side
    case ToTarget(prepare, grpc) => TargetRequestMoves(s.msr, s.next, prepare, grpc);
    case ToReplica => ReplicaRequestMoves(s.msr, s.next);
    case ToSource(restart) => SourceRequestMoves(s.msr, s.next, restart);
  }

  lemma UnrequestedIsUnprocessed(s: State)
    requires Inv(s)
    ensures !s.msr.toTargetRequested ==> !s.msr.source.processed
    ensures !s.msr.toReplicaRequested ==> !s.msr.fallForward.processed
    ensures !s.msr.toSourceRequested ==> !s.msr.fallback.processed
  {
    assert TailInv(s, FromSource) && TailInv(s, ForFallForward) && TailInv(s, ForFallback);
  }

  lemma TargetRequestMoves(msr: Msr, next: NextMsr, prepare: bool, grpc: bool)
    requires !msr.toTargetRequested ==> !msr.source.processed
    ensures AllMove(msr, next, Request(msr, ToTarget(prepare, grpc)), next)
  {
  }

  lemma ReplicaRequestMoves(msr: Msr, next: NextMsr)
    requires !msr.toReplicaRequested ==> !msr.fallForward.processed
    ensures AllMove(msr, next, Request(msr, ToReplica), next)
  {
  }

  lemma SourceRequestMoves(msr: Msr, next: NextMsr, restart: bool)
    requires !msr.toSourceRequested ==> !msr.fallback.processed
    ensures AllMove(msr, next, Request(msr, ToSource(restart)), next)
  {
  }

  lemma ImporterMoves(msr: Msr, next: NextMsr, role: CommandRole)
    requires role == TargetImporter || role == SourceImporter || role == ReplicaImporter
    ensures AllMove(msr, next, MarkProcessed(msr, role), next)
  {
    match role
    case TargetImporter =>
    case SourceImporter =>
    case ReplicaImporter =>
  }

  lemma ImportStartMoves(msr: Msr, next: NextMsr)
    ensures AllMove(msr, next, msr.(importToSourceStarted := true), next)
  {
  }

  lemma NextIterationMoves(msr: Msr, next: NextMsr, msr': Msr, next': NextMsr)
    requires msr' == msr || msr' == msr.(nextIterationInitialized := true)
    requires next' == next || next' == next.(exportStarted := true) || next' == next.(importStarted := true)
    ensures AllMove(msr, next, msr', next')
  {
    assert GetCutoverStatus(msr') == GetCutoverStatus(msr);
    assert GetCutoverToSourceReplicaStatus(msr') == GetCutoverToSourceReplicaStatus(msr);
    assert IsNextIterationStartedIfRequired(msr, next) ==> IsNextIterationStartedIfRequired(msr', next');
  }

  lemma FallForwardMoves(msr: Msr, next: NextMsr)
    requires msr.fallForwardEnabled || !msr.toTargetRequested
    ensures AllMove(msr, next, msr.(fallForwardEnabled := true), next)
  {
  }

  lemma MarkMoves(s: State, a: Action)
    requires Enabled(s, a) && InTime(s, a) && Marks(a)
    ensures AllMove(s.msr, s.next, Do(s, a).msr, Do(s, a).next)
  {
    match a
    case EnableFallForward => FallForwardMoves(s.msr, s.next);
    case TargetImporterDone => ImporterMoves(s.msr, s.next, TargetImporter);
    case SourceImporterDone => ImporterMoves(s.msr, s.next, SourceImporter);
    case ReplicaImporterDone => ImporterMoves(s.msr, s.next, ReplicaImporter);
    case StartImportToSource => ImportStartMoves(s.msr, s.next);
    case InitializeNext | NextExportStarts | NextImportStarts =>
      NextIterationMoves(s.msr, s.next, Do(s, a).msr, Do(s, a).next);
  }

  lemma ExportingMoves(s: State, x: Exporter)
    requires Advance(s, x).Some?
    ensures AllMove(s.msr, s.next, Advanced(s, x).msr, Advanced(s, x).next)
  {
    ExportingSetsFlags(s, x);
    AdvancedIs(s, x, x);
    ExporterFlagMoves(s.msr, s.next, x, Advance(s, x).value.0);
  }

  lemma StatusesMove(s: State, a: Action)
    requires Inv(s) && Enabled(s, a) && InTime(s, a)
    ensures AllMove(s.msr, s.next, Do(s, a).msr, Do(s, a).next)
  {
    if a.Exporting? {
      ExportingMoves(s, a.x);
    } else if a.Initiate? {
      RequestMoves(s, a.side);
    } else if a.Crash? {
      CrashKeepsRecord(s, a.x);
    } else {
      MarkMoves(s, a);
    }
  }

  /** Setting up fall-forward late takes the target status back exactly when it reports a
      plain cutover as completed: the one way a status can move backwards. */
  lemma LateFallForwardRegresses(s: State, a: Action)
    requires Inv(s) && Enabled(s, a)
    ensures Rank(GetCutoverStatus(Do(s, a).msr)) < Rank(GetCutoverStatus(s.msr)) <==>
            a.EnableFallForward? && GetCutoverStatus(s.msr) == Completed && !s.msr.fallForwardEnabled
  {
    if a.EnableFallForward? && !s.msr.fallForwardEnabled {
      assert Untouched(s, ForFallForward);
    } else {
      StatusesMove(s, a);
    }
  }

  /** A run carried on by an undisturbed exporter. */
  lemma {:induction false} CarryOn(run: seq<State>, actions: seq<Action>, pg: bool, x: Exporter, n: nat)
    returns (run': seq<State>, actions': seq<Action>)
    requires Run(run, actions, pg)
    ensures Run(run', actions', pg) && run'[|run'| - 1] == Undisturbed(run[|run| - 1], x, n)
    decreases n
  {
    var s := run[|run| - 1];
    if n == 0 || Advance(s, x).None? {
      run', actions' := run, actions;
    } else {
      var longer, more := OneMore(run, actions, pg, Exporting(x));
      run', actions' := CarryOn(longer, more, pg, x, n - 1);
    }
  }

  lemma OneMore(run: seq<State>, actions: seq<Action>, pg: bool, a: Action) returns (run': seq<State>,
                actions': seq<Action>)
    requires Run(run, actions, pg) && Enabled(run[|run| - 1], a)
    ensures Run(run', actions', pg) && |run'| == |run| + 1 && |actions'| == |actions| + 1
    ensures run'[|run| - 1] == run[|run| - 1] && actions'[|actions|] == a && run'[|run|] == Do(run[|run| - 1], a)
  {
    run', actions' := run + [Do(run[|run| - 1], a)], actions + [a];
  }

  lemma {:induction false} UndisturbedKeepsRest(s: State, x: Exporter, n: nat)
    ensures var r := Undisturbed(s, x, n);
            && (x.FromSource? ==> r.msr == s.msr.(source := r.msr.source))
            && r.next == s.next
    decreases n
  {
    if n > 0 && Advance(s, x).Some? {
      UndisturbedKeepsRest(Advanced(s, x), x, n - 1);
    }
  }

  /** The target status does move backwards in a run: a plain cutover to the target is completed, and
      fall-forward set up then reopens it. */
  lemma RegressionIsReachable(pg: bool) returns (run: seq<State>, actions: seq<Action>)
    ensures Run(run, actions, pg) && |run| >= 2
    ensures GetCutoverStatus(run[|run| - 2].msr) == Completed && GetCutoverStatus(run[|run| - 1].msr) == Initiated
  {
    run, actions := [Init(pg)], [];
    run, actions := OneMore(run, actions, pg, Initiate(ToTarget(false, false)));
    var s := run[|run| - 1];
    RunKeepsInv(run, actions, pg, |run| - 1);
    var n := TailLeft(s.msr.source, s.source.pc);
    TailRecovers(s, FromSource);
    UndisturbedKeepsRest(s, FromSource, n);
    run, actions := CarryOn(run, actions, pg, FromSource, n);
    run, actions := OneMore(run, actions, pg, TargetImporterDone);
    run, actions := OneMore(run, actions, pg, EnableFallForward);
  }

  /** Over every run in which fall-forward is set up in time, each status only moves
      NOT_INITIATED, INITIATED, COMPLETED. */
  lemma StatusesOnlyAdvance(run: seq<State>, actions: seq<Action>, pg: bool, k: nat)
    requires TimelyRun(run, actions, pg) && k < |actions|
    ensures AllMove(run[k].msr, run[k].next, run[k + 1].msr, run[k + 1].next)
  {
    RunKeepsInv(run, actions, pg, k);
    StatusesMove(run[k], actions[k]);
  }

  /** A requested cutover to source or source-replica implies that the cutover to the
      target is completed, in every state of such a run. */
  lemma {:induction false} RequestImpliesTargetCompleted(run: seq<State>, actions: seq<Action>, pg: bool, k: nat)
    requires TimelyRun(run, actions, pg) && k < |run|
    ensures run[k].msr.toSourceRequested || run[k].msr.toReplicaRequested ==> GetCutoverStatus(run[k].msr) == Completed
  {
    if k > 0 {
      RequestImpliesTargetCompleted(run, actions, pg, k - 1);
      RunKeepsInv(run, actions, pg, k - 1);
      RequestsWaitForTarget(run[k - 1], actions[k - 1]);
    }
  }

  lemma RequestsWaitForTarget(s: State, a: Action)
    requires Inv(s) && Enabled(s, a) && InTime(s, a)
    requires s.msr.toSourceRequested || s.msr.toReplicaRequested ==> GetCutoverStatus(s.msr) == Completed
    ensures var msr := Do(s, a).msr;
            msr.toSourceRequested || msr.toReplicaRequested ==> GetCutoverStatus(msr) == Completed
  {
    StatusesMove(s, a);
    if GetCutoverStatus(s.msr) != Completed {
      RequestsAreGuarded(s, a);
    }
  }

  lemma ExportingSetsFlags(s: State, x: Exporter)
    requires Advance(s, x).Some?
    ensures Advanced(s, x).msr == WithFlags(s.msr, x, Advance(s, x).value.0)
    ensures SetsOneFlag(FlagsOf(s.msr, x), Advance(s, x).value.0)
  {
    AdvanceSetsOneFlag(FlagsOf(s.msr, x), ProcOf(s, x), SlotUseOf(s.msr, x), RequestedFor(s.msr, x), MayLaunch(s, x));
  }

  predicate SameRequests(msr: Msr, msr': Msr) {
    msr'.toSourceRequested == msr.toSourceRequested && msr'.toReplicaRequested == msr.toReplicaRequested
  }

  lemma FlagsKeepRequests(msr: Msr, x: Exporter, f: ExporterFlags)
    ensures SameRequests(msr, WithFlags(msr, x, f))
  {
  }

  lemma MarksKeepRequests(s: State, a: Action)
    requires Enabled(s, a) && !a.Exporting? && !a.Crash? && !a.Initiate?
    ensures SameRequests(s.msr, Do(s, a).msr)
    ensures forall x :: FlagsOf(Do(s, a).msr, x) == FlagsOf(s.msr, x)
  {
  }

  lemma RequestsAreGuarded(s: State, a: Action)
    requires Enabled(s, a) && GetCutoverStatus(s.msr) != Completed
    ensures SameRequests(s.msr, Do(s, a).msr)
  {
    if a.Exporting? {
      ExportingSetsFlags(s, a.x);
      FlagsKeepRequests(s.msr, a.x, Advance(s, a.x).value.0);
    } else if a.Initiate? {
      assert Refusal(s.msr, a.side).None?;
    } else if a.Crash? {
      CrashKeepsRecord(s, a.x);
    } else {
      MarksKeepRequests(s, a);
    }
  }

  lemma CrashKeepsRecord(s: State, x: Exporter)
    ensures Crashed(s, x).msr == s.msr && Crashed(s, x).next == s.next
  {
  }

  /** With fall-back or fall-forward over the logical connector, the target cutover is not
      reported completed before a YB replication slot was created and recorded. */
  lemma CompletedMeansSlotRecorded(run: seq<State>, actions: seq<Action>, pg: bool, k: nat)
    requires Run(run, actions, pg) && k < |run|
    requires GetCutoverStatus(run[k].msr) == Completed && !run[k].msr.useGrpcConnector
    ensures run[k].msr.fallForwardEnabled ==> run[k].msr.fallForward.slotRecorded
    ensures run[k].msr.fallbackEnabled ==> run[k].msr.fallback.slotRecorded
  {
    RunKeepsInv(run, actions, pg, k);
  }

  /** A slot is recorded only while it exists, by the exporter that created it. */
  lemma RecordedAfterCreated(s: State, a: Action, x: Exporter)
    requires Inv(s) && Enabled(s, a)
    requires FlagsOf(Do(s, a).msr, x).slotRecorded && !FlagsOf(s.msr, x).slotRecorded
    ensures a == Exporting(x) && ProcOf(s, x).slot && ProcOf(s, x).publication
  {
    if a.Exporting? {
      ExportingSetsFlags(s, a.x);
      AdvanceSetsOneFlag(FlagsOf(s.msr, a.x), ProcOf(s, a.x), SlotUseOf(s.msr, a.x), RequestedFor(s.msr, a.x),
            MayLaunch(s, a.x));
      OthersUntouched(s.msr, a.x, Advance(s, a.x).value.0, x);
    } else if a.Initiate? {
      RequestKeepsFlags(s.msr, a.side, x);
    } else if a.Crash? {
      CrashKeepsRecord(s, a.x);
    } else {
      MarksKeepRequests(s, a);
    }
  }

  lemma OthersUntouched(msr: Msr, x: Exporter, f: ExporterFlags, other: Exporter)
    ensures FlagsOf(WithFlags(msr, x, f), other) == if other == x then f else FlagsOf(msr, other)
  {
  }

  lemma RequestKeepsFlags(msr: Msr, side: Side, x: Exporter)
    ensures FlagsOf(Request(msr, side), x) == FlagsOf(msr, x)
  {
  }
}
