/**
 The migration status record: set-once flags kept as one JSON object that several
 processes read and rewrite, and the cutover statuses derived from it.
 Flags that belong to one exporter are grouped per exporter.
 */
module CutoverRecord {
  import opened Wrappers

  /** `slotRecorded` stands for a non-empty replication slot name in the record, `exported` for
      the "snapshot export is done" flag of the exporter from a PostgreSQL source, `started` for
      the exporter's "streaming has started" flag. */
  datatype ExporterFlags = ExporterFlags(slotRecorded: bool, exported: bool, started: bool, detected: bool,
        processed: bool)

  datatype Msr = Msr(
    sourceIsPostgres: bool,
    fallForwardEnabled: bool,
    fallbackEnabled: bool,
    useGrpcConnector: bool,
    toTargetRequested: bool,
    toSourceRequested: bool,
    toReplicaRequested: bool,
    source: ExporterFlags,
    fallForward: ExporterFlags,
    fallback: ExporterFlags,
    processedByTargetImporter: bool,
    processedBySourceImporter: bool,
    processedByReplicaImporter: bool,
    importToSourceStarted: bool,
    restartNextIteration: bool,
    nextIterationInitialized: bool)

  /** The two flags of the next iteration's record that matter here. */
  datatype NextMsr = NextMsr(exportStarted: bool, importStarted: bool)

  datatype Status = NotInitiated | Initiated | Completed

  function GetCutoverStatus(msr: Msr): Status {
    var a, b, c := msr.toTargetRequested, msr.source.processed, msr.processedByTargetImporter;
    if !a then NotInitiated
    else if msr.fallForwardEnabled && a && b && c && msr.fallForward.started then Completed
    else if msr.fallbackEnabled && a && b && c && msr.fallback.started && msr.importToSourceStarted then Completed
    else if !msr.fallForwardEnabled && !msr.fallbackEnabled && a && b && c then Completed
    else Initiated
  }

  function GetCutoverToSourceReplicaStatus(msr: Msr): Status {
    if !msr.toReplicaRequested then NotInitiated
    else if msr.fallForward.processed && msr.processedByReplicaImporter then Completed
    else Initiated
  }

  predicate IsNextIterationStartedIfRequired(msr: Msr, next: NextMsr) {
    !msr.restartNextIteration || (msr.nextIterationInitialized && next.exportStarted && next.importStarted)
  }

  function GetCutoverToSourceStatus(msr: Msr, next: NextMsr): Status {
    if !msr.toSourceRequested then NotInitiated
    else if msr.fallback.processed && msr.processedBySourceImporter && IsNextIterationStartedIfRequired(msr, next)
    then Completed
    else Initiated
  }

  predicate IterativeCutoverSupported(msr: Msr) {
    msr.fallbackEnabled && msr.sourceIsPostgres
  }

  // ---------- record updates ----------

  datatype Side = ToTarget(prepareForFallback: bool, useGrpc: bool) | ToReplica | ToSource(restart: bool)

  datatype InitiateError = TargetCutoverIncomplete | IterativeUnsupported

  /** The update closure of an initiate-cutover command. */
  function Request(msr: Msr, side: Side): Msr {
    match side
    case ToTarget(prepare, grpc) =>
      if msr.toTargetRequested then msr
      else msr.(toTargetRequested := true,
                fallbackEnabled := msr.fallbackEnabled || prepare,
                useGrpcConnector := msr.useGrpcConnector || grpc)
    case ToReplica => msr.(toReplicaRequested := true)
    case ToSource(restart) =>
      if msr.toSourceRequested then msr
      else msr.(toSourceRequested := true, restartNextIteration := restart)
  }

  predicate AlreadyRequested(msr: Msr, side: Side) {
    match side
    case ToTarget(_, _) => msr.toTargetRequested
    case ToReplica => msr.toReplicaRequested
    case ToSource(_) => msr.toSourceRequested
  }

  /** The checks an initiate-cutover command makes before it updates the record. */
  function Refusal(msr: Msr, side: Side): Option<InitiateError> {
    if !side.ToTarget? && GetCutoverStatus(msr) != Completed then Some(TargetCutoverIncomplete)
    else if side.ToSource? && side.restart && !IterativeCutoverSupported(msr) then Some(IterativeUnsupported)
    else None
  }

  datatype CommandRole = SourceExporter | TargetImporter | FallForwardExporter | FallbackExporter | ReplicaImporter
        | SourceImporter

  function MarkProcessed(msr: Msr, role: CommandRole): Msr {
    match role
    case SourceExporter => msr.(source := msr.source.(processed := true))
    case TargetImporter => msr.(processedByTargetImporter := true)
    case FallForwardExporter => msr.(fallForward := msr.fallForward.(processed := true))
    case FallbackExporter => msr.(fallback := msr.fallback.(processed := true))
    case ReplicaImporter => msr.(processedByReplicaImporter := true)
    case SourceImporter => msr.(processedBySourceImporter := true)
  }

  predicate IsProcessed(msr: Msr, role: CommandRole) {
    match role
    case SourceExporter => msr.source.processed
    case TargetImporter => msr.processedByTargetImporter
    case FallForwardExporter => msr.fallForward.processed
    case FallbackExporter => msr.fallback.processed
    case ReplicaImporter => msr.processedByReplicaImporter
    case SourceImporter => msr.processedBySourceImporter
  }

  /** The metadata database, holding the record. */
  class MetaDB {
    var record: Msr

    constructor (record: Msr)
      ensures this.record == record
    {
      this.record := record;
    }

    /** One transaction: read the record, update it, write it back. */
    method UpdateMigrationStatusRecord(update: Msr -> Msr)
      modifies this
      ensures record == update(old(record))
    {
      record := update(record);
    }

    /** `confirmed` is the answer to the prompt. The record changes only on an accepted, confirmed and not yet
        made request, which takes over the caller's choices; a repeated request changes nothing. */
    method InitiateCutover(side: Side, confirmed: bool) returns (r: Result<bool, InitiateError>)
      modifies this
      ensures r == Failure(TargetCutoverIncomplete) <==>
                !side.ToTarget? && old(GetCutoverStatus(record)) != Completed
      ensures r == Failure(IterativeUnsupported) <==>
                && side.ToSource? && side.restart && confirmed && old(GetCutoverStatus(record)) == Completed
                && !old(record.fallbackEnabled && record.sourceIsPostgres)
      ensures confirmed ==>
                if old(Refusal(record, side)).Some? then r == Failure(old(Refusal(record, side)).value) else r.Success?
      ensures r.Failure? || !confirmed || r.value ==> record == old(record)
      ensures r.Success? ==> (r.value <==> confirmed && old(AlreadyRequested(record, side)))
      ensures r == Success(false) && confirmed ==>
                match side
                case ToTarget(prepare, grpc) =>
                  && !old(record).toTargetRequested
                  && record == old(record).(toTargetRequested := true, fallbackEnabled := record.fallbackEnabled,
                                            useGrpcConnector := record.useGrpcConnector)
                  && (record.fallbackEnabled <==> prepare || old(record).fallbackEnabled)
                  && (record.useGrpcConnector <==> grpc || old(record).useGrpcConnector)
                case ToReplica =>
                  !old(record).toReplicaRequested && record == old(record).(toReplicaRequested := true)
                case ToSource(restart) =>
                  && !old(record).toSourceRequested
                  && record == old(record).(toSourceRequested := true, restartNextIteration := restart)
    {
      if side.ToReplica? || side.ToSource? {
        if GetCutoverStatus(record) != Completed {
          return Failure(TargetCutoverIncomplete);
        }
      }
      if !confirmed {
        return Success(false);
      }
      if side.ToSource? && side.restart {
        if !IterativeCutoverSupported(record) {
          return Failure(IterativeUnsupported);
        }
      }
      var alreadyInitiated := AlreadyRequested(record, side);
      UpdateMigrationStatusRecord(msr => Request(msr, side));
      return Success(alreadyInitiated);
    }

    method MarkCutoverProcessed(role: CommandRole)
      modifies this
      ensures record == MarkProcessed(old(record), role)
      ensures IsProcessed(record, role)
      ensures forall other :: other != role ==> IsProcessed(record, other) == IsProcessed(old(record), other)
    {
      UpdateMigrationStatusRecord(msr => MarkProcessed(msr, role));
    }
  }
}
