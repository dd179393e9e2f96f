/**
 Starting the next iteration of an iterative live migration: a fixed sequence of
 persistent writes to three project directories (parent, current, next), where the
 parent may be the current one, and the process may crash between any two writes.
 */
module NextIteration {
  import opened Wrappers
  import opened BucketKey
  import opened Sequences

  /** What an iteration takes over from the one before it. */
  datatype Inherited = Inherited(
    sourceConf: string, targetConf: string,
    tableList: seq<string>, targetLeafTables: seq<string>, sourceLeafTables: seq<string>,
    sourceRenames: map<string, string>, targetRenames: map<string, string>,
    sourceSequences: map<string, string>, targetSequences: map<string, string>)

  datatype Record = Record(
    exportType: string, parentExportDir: string, iterationNo: nat, configFile: string,
    inherited: Inherited,
    latestIterationNumber: nat, nextIterationInitialized: bool,
    fallbackEnabled: bool, sourceIsPostgres: bool, uuid: string, salt: string)

  /** CDC partitioning decisions kept with the import status. */
  datatype Partitioning = Partitioning(
    tableToPartitionKey: map<string, string>, expressionIndexTables: seq<string>,
    overridesConfig: string, strategyConfig: string)

  datatype ImportStatus = ImportStatus(partitioning: Partitioning, importDataStarted: bool)

  /** A project directory whose metadata database file exists; `ready` once all its tables do. */
  datatype Project = Project(ready: bool, record: Record, importStatus: Option<ImportStatus>, hasFileStatus: bool,
                             nameRegistry: Option<string>)

  type Projects = map<string, Project>

  const CHANGES_ONLY := "changes-only"

  function Join(a: string, b: string): string { a + "/" + b }

  function ParentDir(p: Projects, dir: string): string
    requires dir in p
  {
    if p[dir].record.parentExportDir == "" then dir else p[dir].record.parentExportDir
  }

  function IterationDir(parent: string, n: nat): string {
    Join(Join(Join(parent, "live-data-migration-iterations"), "live-data-migration-iteration-" + Itoa(n)), "export-dir")
  }

  function NextDir(p: Projects, dir: string): string
    requires dir in p
  {
    IterationDir(ParentDir(p, dir), p[dir].record.iterationNo + 1)
  }

  /** An iteration's directory is where its number says, and it and its parent are in use. */
  predicate Layout(p: Projects, dir: string) {
    && dir in p && p[dir].ready && ParentDir(p, dir) in p && p[ParentDir(p, dir)].ready
    && (p[dir].record.parentExportDir != "" ==>
          dir == IterationDir(p[dir].record.parentExportDir, p[dir].record.iterationNo))
  }

  lemma IterationDirsDiffer(parent: string, m: nat, n: nat)
    ensures IterationDir(parent, n) != parent
    ensures m != n ==> IterationDir(parent, m) != IterationDir(parent, n)
  {
    var head := parent + "/" + "live-data-migration-iterations" + "/";
    var tail := "/" + "export-dir";
    SplitIterationDir(head, Itoa(m), Itoa(n), tail);
    ItoaInjective(m, n);
    PathShape(parent, Itoa(m));
    PathShape(parent, Itoa(n));
    assert |IterationDir(parent, n)| > |parent|;
  }

  lemma PathShape(parent: string, digits: string)
    ensures var iteration := "live-data-migration-iteration-" + digits;
            Join(Join(Join(parent, "live-data-migration-iterations"), iteration), "export-dir")
            == (parent + "/" + "live-data-migration-iterations" + "/") + iteration + ("/" + "export-dir")
  {
    var head := parent + "/" + "live-data-migration-iterations" + "/";
    Regroup(head, "live-data-migration-iteration-" + digits, "/", "export-dir");
  }

  lemma SplitIterationDir(head: string, a: string, b: string, tail: string)
    ensures var x, y := "live-data-migration-iteration-" + a, "live-data-migration-iteration-" + b;
            a != b ==> head + x + tail != head + y + tail
  {
    var x, y := "live-data-migration-iteration-" + a, "live-data-migration-iteration-" + b;
    if head + x + tail == head + y + tail {
      assert |a| == |b|;
      SplitAtLength(head + x, head + y, tail, tail);
      SplitAtLength(head, head, x, y);
      SplitAtLength("live-data-migration-iteration-", "live-data-migration-iteration-", a, b);
    }
  }

  lemma NextDirIsNew(p: Projects, dir: string)
    requires Layout(p, dir)
    ensures NextDir(p, dir) != dir && NextDir(p, dir) != ParentDir(p, dir)
  {
    IterationDirsDiffer(ParentDir(p, dir), p[dir].record.iterationNo, p[dir].record.iterationNo + 1);
  }

  /** Iterations lie side by side under the first project, whichever of them is current. */
  lemma NextDirIs(p: Projects, dir: string)
    requires dir in p
    ensures var record := p[dir].record;
            NextDir(p, dir) ==
            ((if record.parentExportDir == "" then dir else record.parentExportDir)
             + "/" + "live-data-migration-iterations" + "/")
            + ("live-data-migration-iteration-" + Itoa(record.iterationNo + 1)) + ("/" + "export-dir")
  {
    PathShape(ParentDir(p, dir), Itoa(p[dir].record.iterationNo + 1));
  }

  // ---------- the writes ----------

  predicate Supported(r: Record) { r.fallbackEnabled && r.sourceIsPostgres }

  const NO_PARTITIONING := Partitioning(map[], [], "", "")

  const NO_STATUS := ImportStatus(NO_PARTITIONING, false)

  /** The parent's import status, from which the partitioning decisions are inherited. */
  function StatusOf(p: Projects, dir: string): Option<ImportStatus>
    requires Layout(p, dir)
  {
    p[ParentDir(p, dir)].importStatus
  }

  const FRESH := Project(false,
    Record("", "", 0, "", Inherited("", "", [], [], [], map[], map[], map[], map[]), 0, false, false, false, "", ""),
          None, false, None)

  /** What differs from run to run: the configuration file, the identifiers it would draw for a new
      project, and how much of the name registry a cut-short copy gets to. */
  datatype Draw = Draw(configFile: string, uuid: string, salt: string, torn: nat)

  /** Everything one run of the procedure reads before it starts to write. */
  datatype Plan = Plan(dir: string, parent: string, next: string, iterationNo: nat,
                       inherited: Inherited, partitioning: Partitioning, nameRegistry: Option<string>,
                       draw: Draw) {
    predicate Fits(q: Projects) {
      && next != dir && next != parent
      && dir in q && parent in q
    }
  }

  function PlanOf(p: Projects, dir: string, draw: Draw): (plan: Plan)
    requires Layout(p, dir)
    ensures plan.Fits(p)
  {
    NextDirIsNew(p, dir);
    var r := p[dir].record;
    Plan(dir, ParentDir(p, dir), NextDir(p, dir), r.iterationNo + 1, r.inherited,
         StatusOf(p, dir).GetOr(NO_STATUS).partitioning, p[dir].nameRegistry, draw)
  }

  function InitRecord(r: Record, draw: Draw): Record {
    if r.uuid != "" then r
    else r.(uuid := draw.uuid, configFile := if r.configFile == "" then draw.configFile else r.configFile)
  }

  function InitStatus(status: Option<ImportStatus>): Option<ImportStatus> {
    Some(status.GetOr(NO_STATUS))
  }

  function InitSalt(r: Record, draw: Draw): Record {
    if r.salt != "" then r else r.(salt := draw.salt)
  }

  function Inherit(next: Record, plan: Plan): Record {
    next.(exportType := CHANGES_ONLY, parentExportDir := plan.parent, iterationNo := plan.iterationNo,
          configFile := plan.draw.configFile, inherited := plan.inherited)
  }

  function InheritPartitioning(status: Option<ImportStatus>, from: Partitioning): Option<ImportStatus> {
    match status
    case None => Some(ImportStatus(from, false))
    case Some(st) => Some(st.(partitioning := from))
  }

  /** A copy of the name registry that is broken off after n characters. */
  function Torn(registry: Option<string>, n: nat): Option<string> {
    if registry.Some? && n < |registry.value| then Some(registry.value[..n]) else registry
  }

  const WRITES: nat := 12

  /** The writes to the next project, once its metadata database file exists. */
  function Edit(plan: Plan, x: Project, i: nat): Project {
    match i
    case 2 => x.(ready := true)
    case 3 => x.(record := InitRecord(x.record, plan.draw))
    case 4 => x.(importStatus := InitStatus(x.importStatus))
    case 5 => x.(hasFileStatus := true)
    case 6 => x.(record := InitSalt(x.record, plan.draw))
    case 8 => x.(record := Inherit(x.record, plan))
    case 9 => x.(importStatus := InheritPartitioning(x.importStatus, plan.partitioning))
    case 10 => x.(nameRegistry := Torn(plan.nameRegistry, plan.draw.torn))
    case 11 => x.(nameRegistry := plan.nameRegistry)
    case _ => x
  }

  /** All the writes, numbered in the order the code makes them. */
  function Write(plan: Plan, q: Projects, i: nat): (r: Projects)
    requires plan.Fits(q) && (i > 1 ==> plan.next in q)
    ensures plan.Fits(r) && (i > 0 ==> plan.next in r)
  {
    if i == 0 then q
    else if i == 1 then if plan.next in q then q else q[plan.next := FRESH]
    else if i == 7 then
      q[plan.parent := q[plan.parent].(record := q[plan.parent].record.(latestIterationNumber := plan.iterationNo))]
    else if i == 12 then
      q[plan.dir := q[plan.dir].(record := q[plan.dir].record.(nextIterationInitialized := true))]
    else q[plan.next := Edit(plan, q[plan.next], i)]
  }

  /** Contents after the first k writes. */
  function After(plan: Plan, q: Projects, k: nat): (r: Projects)
    requires plan.Fits(q)
    ensures plan.Fits(r) && (k > 0 ==> plan.next in r)
  {
    if k == 0 then q else Write(plan, After(plan, q, k - 1), k)
  }

  /** The next project's database file does not exist yet, or has its tables. */
  predicate Usable(q: Projects, next: string) {
    next in q ==> q[next].ready
  }

  datatype Outcome = Done | Crashed | Unsupported | NoImportStatus | NoNameRegistry | MetaDbUnusable

  class FileSystem {
    var projects: Projects

    constructor (projects: Projects)
      ensures this.projects == projects
    {
      this.projects := projects;
    }

    /** Runs the procedure on the current project `dir`, crashing after `crashAt` writes. */
    method InitializeNextIteration(dir: string, draw: Draw, crashAt: nat) returns (r: Outcome)
      requires Layout(projects, dir)
      modifies this
      ensures !old(projects[dir].record.fallbackEnabled && projects[dir].record.sourceIsPostgres) ==>
                r == Unsupported && projects == old(projects)
      ensures old(projects[dir].record.fallbackEnabled && projects[dir].record.sourceIsPostgres) ==>
                && projects == AfterRun(old(projects), dir, Run(crashAt, draw))
                && r == OutcomeOf(old(projects), dir, crashAt)
    {
      var currentMsr := projects[dir].record;
      if !Supported(currentMsr) {
        return Unsupported;
      }
      var parentDir := ParentDir(projects, dir);
      var nextDir := NextDir(projects, dir);
      NextDirIsNew(projects, dir);
      if crashAt == 0 {
        return Crashed;
      }
      ghost var p, plan := projects, PlanOf(projects, dir, draw);
      r := CreateMigrationProjectIfNotExists(nextDir, draw, crashAt, plan);
      if r != Done {
        return;
      }
      r := SetUpNextIterationMSR(parentDir, nextDir, currentMsr, draw, crashAt, plan, p);
      if r != Done {
        return;
      }
      r := CopyNameRegistry(dir, nextDir, draw, crashAt, plan, p);
      if r != Done {
        return;
      }
      projects := projects[dir := projects[dir].(record := projects[dir].record.(nextIterationInitialized := true))];
      assert projects == After(plan, p, 12);
      return Done;
    }

    /** A database file that exists is taken to be complete; the records are then filled in where they are missing. */
    method CreateMigrationProjectIfNotExists(nextDir: string, draw: Draw, crashAt: nat, ghost plan: Plan)
      returns (r: Outcome)
      requires plan.Fits(projects) && plan.next == nextDir && plan.draw == draw && crashAt > 0
      modifies this
      ensures !old(Usable(projects, nextDir)) ==> projects == old(projects) && r == MetaDbUnusable
      ensures old(Usable(projects, nextDir)) ==>
                && projects == After(plan, old(projects), if crashAt < 6 then crashAt else 6)
                && r == if crashAt <= 6 then Crashed else Done
    {
      ghost var p := projects;
      if nextDir !in projects {
        projects := projects[nextDir := FRESH];
        if crashAt == 1 {
          return Crashed;
        }
        projects := projects[nextDir := projects[nextDir].(ready := true)];
      } else if !projects[nextDir].ready {
        return MetaDbUnusable;
      }
      ReadyAlready(plan, p);
      assert projects == After(plan, p, 2);
      if crashAt <= 2 {
        return Crashed;
      }
      projects := projects[nextDir := projects[nextDir].(record := InitRecord(projects[nextDir].record, draw))];
      assert projects == After(plan, p, 3);
      if crashAt == 3 {
        return Crashed;
      }
      projects := projects[nextDir := projects[nextDir].(importStatus := InitStatus(projects[nextDir].importStatus))];
      assert projects == After(plan, p, 4);
      if crashAt == 4 {
        return Crashed;
      }
      projects := projects[nextDir := projects[nextDir].(hasFileStatus := true)];
      assert projects == After(plan, p, 5);
      if crashAt == 5 {
        return Crashed;
      }
      projects := projects[nextDir := projects[nextDir].(record := InitSalt(projects[nextDir].record, draw))];
      assert projects == After(plan, p, 6);
      if crashAt == 6 {
        return Crashed;
      }
      return Done;
    }

    method SetUpNextIterationMSR(parentDir: string, nextDir: string, currentMsr: Record, draw: Draw,
                                 crashAt: nat, ghost plan: Plan, ghost p: Projects)
      returns (r: Outcome)
      requires plan.Fits(p) && parentDir == plan.parent && nextDir == plan.next && draw == plan.draw && crashAt > 6
      requires plan.inherited == currentMsr.inherited && plan.iterationNo == currentMsr.iterationNo + 1
      requires plan.partitioning == p[parentDir].importStatus.GetOr(NO_STATUS).partitioning
      requires projects == After(plan, p, 6)
      modifies this
      ensures p[parentDir].importStatus.None? ==>
                projects == After(plan, p, 7) && r == if crashAt == 7 then Crashed else NoImportStatus
      ensures p[parentDir].importStatus.Some? ==>
                && projects == After(plan, p, if crashAt < 9 then crashAt else 9)
                && r == if crashAt <= 9 then Crashed else Done
    {
      var nextNo := currentMsr.iterationNo + 1;
      ParentIsRead(p, plan, 6);
      projects := projects[parentDir := projects[parentDir].(record :=
                    projects[parentDir].record.(latestIterationNumber := nextNo))];
      assert projects == After(plan, p, 7);
      if crashAt == 7 {
        return Crashed;
      }
      var parentStatus := projects[parentDir].importStatus;
      if parentStatus.None? {
        return NoImportStatus;
      }
      var record := projects[nextDir].record;
      record := record.(exportType := CHANGES_ONLY, parentExportDir := parentDir, iterationNo := nextNo,
                        configFile := draw.configFile, inherited := currentMsr.inherited);
      projects := projects[nextDir := projects[nextDir].(record := record)];
      assert projects == After(plan, p, 8);
      if crashAt == 8 {
        return Crashed;
      }
      projects := projects[nextDir := projects[nextDir].(importStatus :=
                    InheritPartitioning(projects[nextDir].importStatus, parentStatus.value.partitioning))];
      assert projects == After(plan, p, 9);
      if crashAt == 9 {
        return Crashed;
      }
      return Done;
    }

    /** Creating the new file empties an old one; the copy may break off anywhere. */
    method CopyNameRegistry(dir: string, nextDir: string, draw: Draw, crashAt: nat, ghost plan: Plan, ghost p: Projects)
      returns (r: Outcome)
      requires plan.Fits(p) && dir == plan.dir && nextDir == plan.next && draw == plan.draw && crashAt > 9
      requires plan.nameRegistry == p[dir].nameRegistry && projects == After(plan, p, 9)
      modifies this
      ensures p[dir].nameRegistry.None? ==> projects == After(plan, p, 9) && r == NoNameRegistry
      ensures p[dir].nameRegistry.Some? ==>
                && projects == After(plan, p, if crashAt < 11 then crashAt else 11)
                && r == if crashAt <= 11 then Crashed else Done
    {
      DirIsRead(p, plan, 9);
      var registry := projects[dir].nameRegistry;
      if registry.None? {
        return NoNameRegistry;
      }
      projects := projects[nextDir := projects[nextDir].(nameRegistry := Torn(registry, draw.torn))];
      assert projects == After(plan, p, 10);
      if crashAt == 10 {
        return Crashed;
      }
      projects := projects[nextDir := projects[nextDir].(nameRegistry := registry)];
      assert projects == After(plan, p, 11);
      if crashAt == 11 {
        return Crashed;
      }
      return Done;
    }
  }

  lemma ReadyAlready(plan: Plan, p: Projects)
    requires plan.Fits(p) && Usable(p, plan.next)
    ensures After(plan, p, 1) == Write(plan, p, 1)
    ensures After(plan, p, 2) == if plan.next in p then p else p[plan.next := FRESH.(ready := true)]
    ensures plan.next in p ==> After(plan, p, 1) == p
  {
    assert After(plan, p, 0) == p;
  }

  /** The parts of the current and the parent project that a run reads are never written. */
  lemma {:induction false} DirIsRead(p: Projects, plan: Plan, k: nat)
    requires plan.Fits(p)
    ensures After(plan, p, k)[plan.dir].nameRegistry == p[plan.dir].nameRegistry
  {
    if k > 0 {
      DirIsRead(p, plan, k - 1);
    }
  }

  lemma {:induction false} ParentIsRead(p: Projects, plan: Plan, k: nat)
    requires plan.Fits(p)
    ensures After(plan, p, k)[plan.parent].importStatus == p[plan.parent].importStatus
  {
    if k > 0 {
      ParentIsRead(p, plan, k - 1);
    }
  }

  // ---------- runs ----------

  /** Everything a run copies is there. */
  predicate HasInputs(p: Projects, dir: string)
    requires Layout(p, dir)
  {
    StatusOf(p, dir).Some? && p[dir].nameRegistry.Some?
  }

  /** One run of the procedure, cut short after `writes` of its writes. */
  datatype Run = Run(writes: nat, draw: Draw)

  /** How far a run gets: it stops at a missing import status of the parent, and at a missing name registry. */
  function Reach(p: Projects, dir: string, writes: nat): nat
    requires Layout(p, dir)
  {
    var limit := if StatusOf(p, dir).None? then 7 else if p[dir].nameRegistry.None? then 9 else WRITES;
    if writes < limit then writes else limit
  }

  function OutcomeOf(p: Projects, dir: string, writes: nat): Outcome
    requires Layout(p, dir)
  {
    if writes == 0 then Crashed
    else if !Usable(p, NextDir(p, dir)) then MetaDbUnusable
    else if StatusOf(p, dir).None? then if writes <= 7 then Crashed else NoImportStatus
    else if p[dir].nameRegistry.None? then if writes <= 9 then Crashed else NoNameRegistry
    else if writes < WRITES then Crashed else Done
  }

  function AfterRun(p: Projects, dir: string, run: Run): Projects
    requires Layout(p, dir)
  {
    if !Usable(p, NextDir(p, dir)) then p
    else After(PlanOf(p, dir, run.draw), p, Reach(p, dir, run.writes))
  }

  function AfterRuns(p: Projects, dir: string, runs: seq<Run>): Projects
    requires Layout(p, dir)
    decreases |runs|
  {
    if runs == [] then p
    else
      RunKeepsPlan(p, dir, runs[0], runs[0].draw);
      AfterRuns(AfterRun(p, dir, runs[0]), dir, runs[1..])
  }

  /** What the next run will read is the same in q as in p. */
  predicate SamePlan(p: Projects, q: Projects, dir: string, draw: Draw)
    requires Layout(p, dir)
  {
    && Layout(q, dir) && PlanOf(q, dir, draw) == PlanOf(p, dir, draw)
    && (StatusOf(q, dir).None? <==> StatusOf(p, dir).None?)
  }

  lemma WriteKeepsPlan(p: Projects, dir: string, plan: Plan, i: nat, draw: Draw)
    requires Layout(p, dir) && plan == PlanOf(p, dir, plan.draw) && (i > 1 ==> plan.next in p)
    ensures SamePlan(p, Write(plan, p, i), dir, draw)
  {
    var q := Write(plan, p, i);
    assert q[dir].record == p[dir].record.(latestIterationNumber := q[dir].record.latestIterationNumber,
                                           nextIterationInitialized := q[dir].record.nextIterationInitialized);
  }

  lemma {:induction false} AfterKeepsPlan(p: Projects, dir: string, plan: Plan, k: nat, draw: Draw)
    requires Layout(p, dir) && plan == PlanOf(p, dir, plan.draw)
    ensures SamePlan(p, After(plan, p, k), dir, draw)
  {
    if k > 0 {
      AfterKeepsPlan(p, dir, plan, k - 1, draw);
      AfterKeepsPlan(p, dir, plan, k - 1, plan.draw);
      WriteKeepsPlan(After(plan, p, k - 1), dir, plan, k, draw);
    }
  }

  /** A run leaves everything a later run reads as it found it. */
  lemma RunKeepsPlan(p: Projects, dir: string, run: Run, draw: Draw)
    requires Layout(p, dir)
    ensures SamePlan(p, AfterRun(p, dir, run), dir, draw)
  {
    AfterKeepsPlan(p, dir, PlanOf(p, dir, run.draw), Reach(p, dir, run.writes), draw);
  }

  // ---------- a full run ----------

  /** The next project as a run finds it. */
  function Found(plan: Plan, q: Projects): Project {
    if plan.next in q then q[plan.next] else FRESH
  }

  function Edits(plan: Plan, x: Project, k: nat): Project {
    if k == 0 then x else Edit(plan, Edits(plan, x, k - 1), k)
  }

  /** The next project as a full run leaves it. */
  function Finished(plan: Plan, x: Project): Project {
    Project(true, InitSalt(Inherit(InitRecord(x.record, plan.draw), plan), plan.draw),
            InheritPartitioning(x.importStatus, plan.partitioning), true, plan.nameRegistry)
  }

  lemma EditsFinish(plan: Plan, x: Project)
    ensures Edits(plan, x, 12) == Finished(plan, x)
  {
    var x2, x3 := Edits(plan, x, 2), Edits(plan, x, 3);
    assert Edits(plan, x, 0) == Edits(plan, x, 1) == x;
    assert x2 == x.(ready := true) && x3 == x2.(record := InitRecord(x.record, plan.draw));
    var x4, x5, x6 := Edits(plan, x, 4), Edits(plan, x, 5), Edits(plan, x, 6);
    assert x4 == x3.(importStatus := InitStatus(x.importStatus)) && x5 == x4.(hasFileStatus := true);
    assert x6 == x5.(record := InitSalt(x5.record, plan.draw));
    var x8, x9 := Edits(plan, x, 8), Edits(plan, x, 9);
    assert Edits(plan, x, 7) == x6 && x8 == x6.(record := Inherit(x6.record, plan));
    assert x9 == x8.(importStatus := InheritPartitioning(x8.importStatus, plan.partitioning));
    assert Edits(plan, x, 11) == Edits(plan, x, 10).(nameRegistry := plan.nameRegistry);
    assert Edits(plan, x, 10) == x9.(nameRegistry := Torn(plan.nameRegistry, plan.draw.torn));
  }

  /** The state after k writes, project by project. */
  lemma {:induction false} AfterIs(plan: Plan, q: Projects, k: nat)
    requires plan.Fits(q) && 0 < k <= 11
    ensures var r := After(plan, q, k);
            && r.Keys == q.Keys + {plan.next}
            && r[plan.next] == Edits(plan, Found(plan, q), k)
            && r[plan.parent] == (if k < 7 then q[plan.parent]
                                  else q[plan.parent].(record :=
                                        q[plan.parent].record.(latestIterationNumber := plan.iterationNo)))
            && forall d <- r :: d != plan.next && d != plan.parent ==> r[d] == q[d]
  {
    if k == 1 {
      assert After(plan, q, 0) == q && Edits(plan, Found(plan, q), 0) == Found(plan, q);
    } else {
      AfterIs(plan, q, k - 1);
    }
  }

  /** All the writes, in one piece. */
  function Final(plan: Plan, q: Projects): Projects
    requires plan.Fits(q)
  {
    var r := q[plan.next := Finished(plan, Found(plan, q))]
              [plan.parent := q[plan.parent].(record :=
                    q[plan.parent].record.(latestIterationNumber := plan.iterationNo))];
    r[plan.dir := r[plan.dir].(record := r[plan.dir].record.(nextIterationInitialized := true))]
  }

  lemma FullRun(plan: Plan, q: Projects)
    requires plan.Fits(q)
    ensures After(plan, q, WRITES) == Final(plan, q)
  {
    EditsFinish(plan, Found(plan, q));
    FullRunFrom(plan, q, 11);
  }

  lemma FullRunFrom(plan: Plan, q: Projects, k: nat)
    requires plan.Fits(q) && k == 11 && Edits(plan, Found(plan, q), k + 1) == Finished(plan, Found(plan, q))
    ensures After(plan, q, k + 1) == Final(plan, q)
  {
    AfterIs(plan, q, k);
    LastWrite(plan, q, After(plan, q, k));
  }

  lemma LastWrite(plan: Plan, q: Projects, r: Projects)
    requires plan.Fits(q) && plan.Fits(r)
    requires r.Keys == q.Keys + {plan.next} && r[plan.next] == Finished(plan, Found(plan, q))
    requires r[plan.parent] ==
          q[plan.parent].(record := q[plan.parent].record.(latestIterationNumber := plan.iterationNo))
    requires forall d <- r :: d != plan.next && d != plan.parent ==> r[d] == q[d]
    ensures Write(plan, r, WRITES) == Final(plan, q)
  {
  }

  // ---------- a full run after part of another ----------

  /** The plans of two runs of the procedure on the same state. */
  predicate Alike(plan: Plan, other: Plan) { other == plan.(draw := other.draw) }

  /** The identifiers a project is left with, when x is a draw of the run and y one that came before it. */
  function Kept(y: string, x: string): string { if y != "" then y else x }

  /** The plan with the identifiers that the project already has, or that it is given first. */
  function Settle(plan: Plan, uuid: string, salt: string): Plan {
    plan.(draw := plan.draw.(uuid := Kept(uuid, plan.draw.uuid), salt := Kept(salt, plan.draw.salt)))
  }

  /** What the full run makes of a project after one stray edit, it makes of the project before it,
      had it drawn the identifiers that the stray edit set. */
  lemma EditAbsorbed(plan: Plan, stray: Plan, x: Project, i: nat)
    requires Alike(plan, stray) && 0 < i
    ensures var first := Settle(plan, if i == 3 then stray.draw.uuid else "", if i == 6 then stray.draw.salt else "");
            Finished(plan, Edit(stray, x, i)) == Finished(first, x)
  {
  }

  lemma WriteAbsorbed(plan: Plan, stray: Plan, q: Projects, i: nat) returns (first: Plan)
    requires plan.Fits(q) && Alike(plan, stray) && (i > 1 ==> plan.next in q)
    ensures Alike(plan, first) && first.draw.configFile == plan.draw.configFile && first.draw.torn == plan.draw.torn
    ensures After(plan, Write(stray, q, i), WRITES) == After(first, q, WRITES)
  {
    first := Settle(plan, if i == 3 then stray.draw.uuid else "", if i == 6 then stray.draw.salt else "");
    var r := Write(stray, q, i);
    FullRun(plan, r);
    FullRun(first, q);
    if i > 0 {
      EditAbsorbed(plan, stray, Found(plan, q), i);
    }
    assert Finished(plan, Found(plan, r)) == Finished(first, Found(plan, q));
    OthersAbsorb(plan, first, stray, q, i);
  }

  lemma OthersAbsorb(plan: Plan, first: Plan, stray: Plan, q: Projects, i: nat)
    requires plan.Fits(q) && Alike(plan, stray) && Alike(plan, first) && (i > 1 ==> plan.next in q)
    requires Finished(plan, Found(plan, Write(stray, q, i))) == Finished(first, Found(plan, q))
    ensures Final(plan, Write(stray, q, i)) == Final(first, q)
  {
    forall d: string
      ensures d in Final(plan, Write(stray, q, i)) <==> d in Final(first, q)
      ensures d in Final(first, q) ==> Final(plan, Write(stray, q, i))[d] == Final(first, q)[d]
    {
      OneAbsorbs(plan, first, stray, q, i, d);
    }
  }

  lemma OneAbsorbs(plan: Plan, first: Plan, stray: Plan, q: Projects, i: nat, d: string)
    requires plan.Fits(q) && Alike(plan, stray) && Alike(plan, first) && (i > 1 ==> plan.next in q)
    requires Finished(plan, Found(plan, Write(stray, q, i))) == Finished(first, Found(plan, q))
    ensures d in Final(plan, Write(stray, q, i)) <==> d in Final(first, q)
    ensures d in Final(first, q) ==> Final(plan, Write(stray, q, i))[d] == Final(first, q)[d]
  {
    FinalAt(plan, Write(stray, q, i), d);
    FinalAt(first, q, d);
    if d != plan.next {
      StrayIsMarked(plan, stray, q, i, d);
    }
  }

  /** What a full run does to a project other than the next. */
  function Marked(plan: Plan, d: string, x: Project): Project {
    var r := if d == plan.parent then x.record.(latestIterationNumber := plan.iterationNo) else x.record;
    x.(record := if d == plan.dir then r.(nextIterationInitialized := true) else r)
  }

  lemma FinalAt(plan: Plan, q: Projects, d: string)
    requires plan.Fits(q)
    ensures d in Final(plan, q) <==> d == plan.next || d in q
    ensures d in Final(plan, q) ==>
              Final(plan, q)[d] == if d == plan.next then Finished(plan, Found(plan, q)) else Marked(plan, d, q[d])
  {
  }

  lemma StrayIsMarked(plan: Plan, stray: Plan, q: Projects, i: nat, d: string)
    requires plan.Fits(q) && Alike(plan, stray) && (i > 1 ==> plan.next in q) && d != plan.next
    ensures d in Write(stray, q, i) <==> d in q
    ensures d in q ==> Marked(plan, d, Write(stray, q, i)[d]) == Marked(plan, d, q[d])
  {
  }

  /** A full run after any part of another ends where a full run alone would, for suitable draws. */
  lemma {:induction false} PartAbsorbed(plan: Plan, stray: Plan, q: Projects, k: nat) returns (first: Plan)
    requires plan.Fits(q) && Alike(plan, stray)
    ensures Alike(plan, first) && first.draw.configFile == plan.draw.configFile && first.draw.torn == plan.draw.torn
    ensures After(plan, After(stray, q, k), WRITES) == After(first, q, WRITES)
    decreases k
  {
    if k == 0 {
      first := plan;
    } else {
      var most := After(stray, q, k - 1);
      var next := WriteAbsorbed(plan, stray, most, k);
      first := PartAbsorbed(next, stray, q, k - 1);
    }
  }

  // ---------- the flag ----------

  /** Only the last write of a run sets the flag. */
  lemma {:induction false} FlagIsWrittenLast(plan: Plan, q: Projects, k: nat)
    requires plan.Fits(q) && k < WRITES
    ensures After(plan, q, k)[plan.dir].record.nextIterationInitialized == q[plan.dir].record.nextIterationInitialized
  {
    if k > 0 {
      FlagIsWrittenLast(plan, q, k - 1);
    }
  }

  // ---------- crash safety, exactly ----------

  /** The first of the runs that makes any write is cut short after its first. */
  predicate CutAtCreation(runs: seq<Run>)
    decreases |runs|
  {
    runs != [] && (runs[0].writes == 1 || (runs[0].writes == 0 && CutAtCreation(runs[1..])))
  }

  /** Some run leaves the next project's database file without its tables. */
  predicate Wedges(p: Projects, dir: string, runs: seq<Run>)
    requires Layout(p, dir)
  {
    !Usable(p, NextDir(p, dir)) || (NextDir(p, dir) !in p && CutAtCreation(runs))
  }

  lemma {:induction false} ReadyStays(plan: Plan, q: Projects, k: nat)
    requires plan.Fits(q) && Usable(q, plan.next)
    ensures Usable(After(plan, q, k), plan.next) <==> plan.next in q || k != 1
    ensures plan.next in After(plan, q, k) <==> plan.next in q || k > 0
  {
    if k == 0 {
    } else if k == 1 {
      ReadyAlready(plan, q);
    } else if k == 2 {
      ReadyAlready(plan, q);
    } else {
      ReadyStays(plan, q, k - 1);
    }
  }

  /** Once the file is there without its tables, no run changes anything any more. */
  lemma {:induction false} WedgedForGood(p: Projects, dir: string, runs: seq<Run>)
    requires Layout(p, dir) && !Usable(p, NextDir(p, dir))
    ensures AfterRuns(p, dir, runs) == p
    decreases |runs|
  {
    if runs != [] {
      WedgedForGood(p, dir, runs[1..]);
    }
  }

  /** A wedging run is the one that makes the difference. */
  lemma OneRunWedges(p: Projects, dir: string, runs: seq<Run>)
    requires Layout(p, dir) && runs != []
    ensures var q := AfterRun(p, dir, runs[0]);
            Layout(q, dir) && NextDir(q, dir) == NextDir(p, dir) &&
                  (Wedges(q, dir, runs[1..]) <==> Wedges(p, dir, runs))
  {
    RunKeepsPlan(p, dir, runs[0], runs[0].draw);
    if Usable(p, NextDir(p, dir)) {
      ReadyStays(PlanOf(p, dir, runs[0].draw), p, Reach(p, dir, runs[0].writes));
    }
  }

  /** A complete run alone, whatever it draws, with the given configuration file. */
  ghost predicate CleanRun(p: Projects, dir: string, last: Run, q: Projects)
    requires Layout(p, dir)
  {
    exists draw: Draw :: draw.configFile == last.draw.configFile && q == AfterRun(p, dir, Run(WRITES, draw))
  }

  lemma {:induction false} UnwedgedRuns(p: Projects, dir: string, runs: seq<Run>, last: Run)
    requires Layout(p, dir) && HasInputs(p, dir) && last.writes >= WRITES && !Wedges(p, dir, runs)
    ensures CleanRun(p, dir, last, AfterRuns(p, dir, runs + [last]))
    decreases |runs|
  {
    if runs == [] {
      assert (runs + [last])[0] == last && (runs + [last])[1..] == [];
      assert AfterRuns(p, dir, runs + [last]) == AfterRun(p, dir, Run(WRITES, last.draw));
    } else {
      var q := AfterRun(p, dir, runs[0]);
      assert (runs + [last])[0] == runs[0] && (runs + [last])[1..] == runs[1..] + [last];
      OneRunWedges(p, dir, runs);
      RunKeepsPlan(p, dir, runs[0], last.draw);
      UnwedgedRuns(q, dir, runs[1..], last);
      var draw: Draw :| draw.configFile == last.draw.configFile
                        && AfterRuns(q, dir, runs[1..] + [last]) == AfterRun(q, dir, Run(WRITES, draw));
      RunKeepsPlan(p, dir, runs[0], draw);
      var first := PartAbsorbed(PlanOf(p, dir, draw), PlanOf(p, dir, runs[0].draw), p, Reach(p, dir, runs[0].writes));
      assert AfterRun(q, dir, Run(WRITES, draw)) == AfterRun(p, dir, Run(WRITES, first.draw));
    }
  }

  lemma {:induction false} WedgedRuns(p: Projects, dir: string, runs: seq<Run>)
    requires Layout(p, dir) && Wedges(p, dir, runs)
    ensures Layout(AfterRuns(p, dir, runs), dir) && NextDir(AfterRuns(p, dir, runs), dir) == NextDir(p, dir)
    ensures !Usable(AfterRuns(p, dir, runs), NextDir(p, dir))
    decreases |runs|
  {
    if !Usable(p, NextDir(p, dir)) {
      WedgedForGood(p, dir, runs);
    } else {
      OneRunWedges(p, dir, runs);
      WedgedRuns(AfterRun(p, dir, runs[0]), dir, runs[1..]);
    }
  }

  lemma {:induction false} RunsJoin(p: Projects, dir: string, runs: seq<Run>, last: Run)
    requires Layout(p, dir)
    ensures Layout(AfterRuns(p, dir, runs), dir)
    ensures AfterRuns(p, dir, runs + [last]) == AfterRun(AfterRuns(p, dir, runs), dir, last)
    decreases |runs|
  {
    if runs == [] {
      assert runs + [last] == [last] && [last][1..] == [];
    } else {
      RunKeepsPlan(p, dir, runs[0], last.draw);
      assert (runs + [last])[0] == runs[0] && (runs + [last])[1..] == runs[1..] + [last];
      RunsJoin(AfterRun(p, dir, runs[0]), dir, runs[1..], last);
    }
  }

  /**
   Crash safety, exactly: runs cut short anywhere, followed by one that is not, end as one clean run
   would, if and only if no run was cut short between creating the next project's database file and
   creating its tables.
   */
  lemma CrashedRunsLeaveNoTraceIff(p: Projects, dir: string, runs: seq<Run>, last: Run)
    requires Layout(p, dir) && HasInputs(p, dir) && last.writes >= WRITES && Usable(p, NextDir(p, dir))
    ensures CleanRun(p, dir, last, AfterRuns(p, dir, runs + [last])) <==> !Wedges(p, dir, runs)
  {
    if Wedges(p, dir, runs) {
      WedgedRuns(p, dir, runs);
      RunsJoin(p, dir, runs, last);
      forall draw: Draw
        ensures AfterRun(p, dir, Run(WRITES, draw)) != AfterRuns(p, dir, runs + [last])
      {
        ReadyStays(PlanOf(p, dir, draw), p, WRITES);
      }
    } else {
      UnwedgedRuns(p, dir, runs, last);
    }
  }

  /** The one bad crash: after it every run fails, and the flag is never set. */
  lemma CrashAtCreationIsFatal(p: Projects, dir: string, bad: Run, later: seq<Run>)
    requires Layout(p, dir) && NextDir(p, dir) !in p && bad.writes == 1
    ensures AfterRuns(p, dir, [bad] + later) == AfterRun(p, dir, bad)
    ensures dir in AfterRun(p, dir, bad)
    ensures AfterRun(p, dir, bad)[dir].record.nextIterationInitialized == p[dir].record.nextIterationInitialized
  {
    RunKeepsPlan(p, dir, bad, bad.draw);
    var plan := PlanOf(p, dir, bad.draw);
    ReadyStays(plan, p, 1);
    FlagIsWrittenLast(plan, p, 1);
    assert ([bad] + later)[1..] == later;
    WedgedForGood(AfterRun(p, dir, bad), dir, later);
  }

  // ---------- what the flag promises ----------

  predicate Initialized(q: Projects, dir: string) {
    dir in q && q[dir].record.nextIterationInitialized
  }

  /** In q, everything the next iteration takes over through its records is as it is in p. */
  predicate Inherits(p: Projects, dir: string, q: Projects)
    requires Layout(p, dir)
  {
    var parent, next, record := ParentDir(p, dir), NextDir(p, dir), p[dir].record;
    && dir in q && parent in q && next in q
    && q[parent].record.latestIterationNumber == record.iterationNo + 1
    && q[next].ready && q[next].hasFileStatus
    && q[next].record.exportType == "changes-only"
    && q[next].record.parentExportDir == parent
    && parent == (if record.parentExportDir == "" then dir else record.parentExportDir)
    && q[next].record.iterationNo == record.iterationNo + 1
    && q[next].record.inherited == record.inherited
    && q[next].importStatus.Some? && p[parent].importStatus.Some?
    && q[next].importStatus.value.partitioning == p[parent].importStatus.value.partitioning
  }

  /** In q, the next iteration has the whole name registry of p. */
  predicate RegistryWhole(p: Projects, dir: string, q: Projects)
    requires Layout(p, dir)
  {
    && p[dir].nameRegistry.Some? && NextDir(p, dir) in q
    && q[NextDir(p, dir)].nameRegistry == p[dir].nameRegistry
  }

  /** A state that a run reads the same from is as good to inherit from. */
  lemma SamePlanInherits(p: Projects, p': Projects, dir: string, q: Projects)
    requires Layout(p, dir) && SamePlan(p, p', dir, EMPTY_DRAW)
    ensures Inherits(p, dir, q) <==> Inherits(p', dir, q)
    ensures RegistryWhole(p, dir, q) <==> RegistryWhole(p', dir, q)
  {
    var plan, plan' := PlanOf(p, dir, EMPTY_DRAW), PlanOf(p', dir, EMPTY_DRAW);
    assert plan.next == NextDir(p, dir) && plan'.next == NextDir(p', dir);
    assert plan.inherited == p[dir].record.inherited && plan'.inherited == p'[dir].record.inherited;
  }

  lemma WriteKeepsInherits(p: Projects, dir: string, stray: Plan, q: Projects, i: nat)
    requires Layout(p, dir) && StatusOf(p, dir).Some? && stray == PlanOf(p, dir, stray.draw)
    requires stray.Fits(q) && Inherits(p, dir, q)
    ensures Inherits(p, dir, Write(stray, q, i))
  {
  }

  lemma {:induction false} AfterKeepsInherits(p: Projects, dir: string, stray: Plan, q: Projects, k: nat)
    requires Layout(p, dir) && StatusOf(p, dir).Some? && stray == PlanOf(p, dir, stray.draw)
    requires stray.Fits(q) && Inherits(p, dir, q)
    ensures Inherits(p, dir, After(stray, q, k))
  {
    if k > 0 {
      AfterKeepsInherits(p, dir, stray, q, k - 1);
      WriteKeepsInherits(p, dir, stray, After(stray, q, k - 1), k);
    }
  }

  /** A full run leaves everything in place. */
  lemma FullRunInherits(p: Projects, dir: string, draw: Draw)
    requires Layout(p, dir) && HasInputs(p, dir)
    ensures var q := After(PlanOf(p, dir, draw), p, WRITES);
            && Inherits(p, dir, q) && RegistryWhole(p, dir, q)
            && q[NextDir(p, dir)].record.configFile == draw.configFile
  {
    FullRun(PlanOf(p, dir, draw), p);
  }

  /**
   In every state reached by runs cut short anywhere, the flag being set means that the parent knows
   the new iteration and that the new project holds its whole inherited record and partitioning.
   */
  lemma {:induction false} InitializedMeansInherited(p: Projects, dir: string, runs: seq<Run>)
    requires Layout(p, dir) && (Initialized(p, dir) ==> Inherits(p, dir, p))
    ensures Initialized(AfterRuns(p, dir, runs), dir) ==> Inherits(p, dir, AfterRuns(p, dir, runs))
    decreases |runs|
  {
    if runs != [] {
      var k, q, stray := Reach(p, dir, runs[0].writes), AfterRun(p, dir, runs[0]), PlanOf(p, dir, runs[0].draw);
      RunKeepsPlan(p, dir, runs[0], EMPTY_DRAW);
      if !Usable(p, NextDir(p, dir)) {
        WedgedForGood(p, dir, runs);
      } else {
        if Initialized(p, dir) {
          AfterKeepsInherits(p, dir, stray, p, k);
        } else if k < WRITES {
          FlagIsWrittenLast(stray, p, k);
        } else {
          FullRunInherits(p, dir, runs[0].draw);
        }
        SamePlanInherits(p, q, dir, q);
        InitializedMeansInherited(q, dir, runs[1..]);
        SamePlanInherits(p, q, dir, AfterRuns(p, dir, runs));
      }
    }
  }

  lemma {:induction false} RegistryAfter(plan: Plan, q: Projects, k: nat)
    requires plan.Fits(q) && 0 < k <= WRITES
    ensures After(plan, q, k)[plan.next].nameRegistry ==
              if k < 10 then Found(plan, q).nameRegistry
              else if k == 10 then Torn(plan.nameRegistry, plan.draw.torn) else plan.nameRegistry
  {
    if k > 1 {
      RegistryAfter(plan, q, k - 1);
    }
  }

  /** The last run that reaches the copy of the name registry does not break it off. */
  predicate CopyCompleted(p: Projects, dir: string, runs: seq<Run>)
    requires Layout(p, dir)
    decreases |runs|
  {
    if runs == [] then RegistryWhole(p, dir, p)
    else
      var last := runs[|runs| - 1];
      var k := Reach(p, dir, last.writes);
      if k < 10 then CopyCompleted(p, dir, runs[..|runs| - 1])
      else k > 10 || last.draw.torn >= |p[dir].nameRegistry.value|
  }

  const EMPTY_DRAW := Draw("", "", "", 0)

  /**
   After any runs, the name registry is whole if and only if the last run that reached its copy did not
   break it off. (A run repeats the copy even when the flag is already set.) Runs that got stuck at a
   half-made database are left to CrashAtCreationIsFatal.
   */
  lemma {:induction false} RegistryWholeIff(p: Projects, dir: string, runs: seq<Run>)
    requires Layout(p, dir) && !Wedges(p, dir, runs)
    ensures RegistryWhole(p, dir, AfterRuns(p, dir, runs)) <==> CopyCompleted(p, dir, runs)
    decreases |runs|
  {
    if runs != [] {
      var most, last := runs[..|runs| - 1], runs[|runs| - 1];
      assert runs == most + [last];
      CutLater(most, last);
      RegistryWholeIff(p, dir, most);
      RunsJoin(p, dir, most, last);
      UnwedgedUsable(p, dir, most);
      RunsKeepPlan(p, dir, most, last.draw);
      var q := AfterRuns(p, dir, most);
      var k := Reach(q, dir, last.writes);
      assert k == Reach(p, dir, last.writes);
      if k > 0 {
        RegistryAfter(PlanOf(q, dir, last.draw), q, k);
      }
    }
  }

  lemma {:induction false} CutLater(most: seq<Run>, last: Run)
    ensures CutAtCreation(most) ==> CutAtCreation(most + [last])
    decreases |most|
  {
    if most != [] {
      assert (most + [last])[0] == most[0] && (most + [last])[1..] == most[1..] + [last];
      CutLater(most[1..], last);
    }
  }

  lemma {:induction false} RunsKeepPlan(p: Projects, dir: string, runs: seq<Run>, draw: Draw)
    requires Layout(p, dir)
    ensures SamePlan(p, AfterRuns(p, dir, runs), dir, draw)
    decreases |runs|
  {
    if runs != [] {
      RunKeepsPlan(p, dir, runs[0], draw);
      RunsKeepPlan(AfterRun(p, dir, runs[0]), dir, runs[1..], draw);
    }
  }

  lemma {:induction false} UnwedgedUsable(p: Projects, dir: string, runs: seq<Run>)
    requires Layout(p, dir) && !Wedges(p, dir, runs)
    ensures Usable(AfterRuns(p, dir, runs), NextDir(p, dir))
    decreases |runs|
  {
    if runs != [] {
      OneRunWedges(p, dir, runs);
      UnwedgedUsable(AfterRun(p, dir, runs[0]), dir, runs[1..]);
    }
  }

  /** The run that sets the flag leaves everything in place: records, partitioning and name registry. */
  lemma InitializedMeansComplete(p: Projects, dir: string, runs: seq<Run>, last: Run)
    requires Layout(p, dir)
    requires !Initialized(AfterRuns(p, dir, runs), dir) && Initialized(AfterRuns(p, dir, runs + [last]), dir)
    ensures var q := AfterRuns(p, dir, runs + [last]);
            && Inherits(p, dir, q) && RegistryWhole(p, dir, q)
            && q[NextDir(p, dir)].record.configFile == last.draw.configFile
  {
    RunsJoin(p, dir, runs, last);
    RunsKeepPlan(p, dir, runs, EMPTY_DRAW);
    var q := AfterRuns(p, dir, runs);
    var k := Reach(q, dir, last.writes);
    if k < WRITES {
      FlagIsWrittenLast(PlanOf(q, dir, last.draw), q, k);
    } else {
      FullRunInherits(q, dir, last.draw);
      SamePlanInherits(p, q, dir, AfterRun(q, dir, last));
    }
  }

  /** A later run that breaks off the copy leaves the flag set over a truncated registry. */
  lemma FlagOverTornRegistry(p: Projects, dir: string, full: Run, again: Run)
    requires Layout(p, dir) && HasInputs(p, dir) && Usable(p, NextDir(p, dir))
    requires full.writes >= WRITES && again.writes == 10 && again.draw.torn < |p[dir].nameRegistry.value|
    ensures var q := AfterRuns(p, dir, [full, again]);
            Initialized(q, dir) && !RegistryWhole(p, dir, q)
  {
    RunKeepsPlan(p, dir, full, EMPTY_DRAW);
    FullRunSetsFlag(PlanOf(p, dir, full.draw), p);
    TornAgain(AfterRun(p, dir, full), dir, again);
    TwoRuns(p, dir, full, again);
  }

  lemma TwoRuns(p: Projects, dir: string, first: Run, second: Run)
    requires Layout(p, dir)
    ensures Layout(AfterRun(p, dir, first), dir)
    ensures AfterRuns(p, dir, [first, second]) == AfterRun(AfterRun(p, dir, first), dir, second)
  {
    RunKeepsPlan(p, dir, first, first.draw);
    RunsJoin(p, dir, [first], second);
    assert [first] + [second] == [first, second] && [first][1..] == [];
  }

  lemma FullRunSetsFlag(plan: Plan, q: Projects)
    requires plan.Fits(q) && Usable(q, plan.next)
    ensures Initialized(After(plan, q, WRITES), plan.dir) && Usable(After(plan, q, WRITES), plan.next)
  {
    ReadyStays(plan, q, WRITES);
    assert After(plan, q, WRITES) == Write(plan, After(plan, q, 11), 12);
  }

  lemma TornAgain(q: Projects, dir: string, again: Run)
    requires Layout(q, dir) && HasInputs(q, dir) && Usable(q, NextDir(q, dir)) && Initialized(q, dir)
    requires again.writes == 10 && again.draw.torn < |q[dir].nameRegistry.value|
    ensures Initialized(AfterRun(q, dir, again), dir)
    ensures !RegistryWhole(q, dir, AfterRun(q, dir, again))
  {
    var plan := PlanOf(q, dir, again.draw);
    FlagIsWrittenLast(plan, q, 10);
    RegistryAfter(plan, q, 10);
  }

  // ---------- what runs leave alone ----------

  /** What the next project has of its own stays: identifiers, once drawn, above all. */
  predicate KeepsItsOwn(x: Project, y: Project) {
    && (x.ready ==> y.ready) && (x.hasFileStatus ==> y.hasFileStatus)
    && (x.record.uuid != "" ==> y.record.uuid == x.record.uuid)
    && (x.record.salt != "" ==> y.record.salt == x.record.salt)
    && y.record.latestIterationNumber == x.record.latestIterationNumber
    && y.record.nextIterationInitialized == x.record.nextIterationInitialized
    && y.record.fallbackEnabled == x.record.fallbackEnabled
    && y.record.sourceIsPostgres == x.record.sourceIsPostgres
    && (x.importStatus.Some? ==>
          y.importStatus.Some? && y.importStatus.value.importDataStarted == x.importStatus.value.importDataStarted)
  }

  /** Of the current and the parent project only the iteration number and the flag may change, each in its own. */
  predicate OnlyMarks(x: Project, y: Project, isParent: bool, isCurrent: bool) {
    && y == x.(record := x.record.(latestIterationNumber := y.record.latestIterationNumber,
                                   nextIterationInitialized := y.record.nextIterationInitialized))
    && (!isParent ==> y.record.latestIterationNumber == x.record.latestIterationNumber)
    && (!isCurrent ==> y.record.nextIterationInitialized == x.record.nextIterationInitialized)
    && (x.record.nextIterationInitialized ==> y.record.nextIterationInitialized)
  }

  /** Everything of p that must not be lost is in q. */
  predicate LeavesAlone(p: Projects, dir: string, q: Projects)
    requires Layout(p, dir)
  {
    var parent, next := ParentDir(p, dir), NextDir(p, dir);
    && p.Keys <= q.Keys <= p.Keys + {next}
    && (next in p ==> KeepsItsOwn(p[next], q[next]))
    && forall d <- p :: d != next ==> OnlyMarks(p[d], q[d], d == parent, d == dir)
  }

  lemma EditKeepsItsOwn(plan: Plan, x: Project, y: Project, i: nat)
    requires KeepsItsOwn(x, y)
    ensures KeepsItsOwn(x, Edit(plan, y, i))
  {
  }

  lemma WriteOnlyMarks(plan: Plan, x: Project, q: Projects, i: nat, d: string)
    requires plan.Fits(q) && (i > 1 ==> plan.next in q) && d in q && d != plan.next
    requires OnlyMarks(x, q[d], d == plan.parent, d == plan.dir)
    ensures d in Write(plan, q, i) && OnlyMarks(x, Write(plan, q, i)[d], d == plan.parent, d == plan.dir)
  {
  }

  lemma WriteLeavesAlone(p: Projects, dir: string, draw: Draw, q: Projects, i: nat)
    requires Layout(p, dir) && PlanOf(p, dir, draw).Fits(q) && (i > 1 ==> NextDir(p, dir) in q)
    requires LeavesAlone(p, dir, q)
    ensures LeavesAlone(p, dir, Write(PlanOf(p, dir, draw), q, i))
  {
    var plan := PlanOf(p, dir, draw);
    var r := Write(plan, q, i);
    assert q.Keys <= r.Keys <= q.Keys + {plan.next};
    if plan.next in p {
      EditKeepsItsOwn(plan, p[plan.next], q[plan.next], i);
      assert r[plan.next] == q[plan.next] || r[plan.next] == Edit(plan, q[plan.next], i);
    }
    forall d <- p | d != plan.next
      ensures OnlyMarks(p[d], r[d], d == plan.parent, d == dir)
    {
      WriteOnlyMarks(plan, p[d], q, i, d);
    }
  }

  lemma {:induction false} AfterLeavesAlone(p: Projects, dir: string, draw: Draw, k: nat)
    requires Layout(p, dir)
    ensures LeavesAlone(p, dir, After(PlanOf(p, dir, draw), p, k))
  {
    if k > 0 {
      AfterLeavesAlone(p, dir, draw, k - 1);
      WriteLeavesAlone(p, dir, draw, After(PlanOf(p, dir, draw), p, k - 1), k);
    }
  }

  lemma LeavesAloneTwice(p: Projects, dir: string, q: Projects, r: Projects)
    requires Layout(p, dir) && Layout(q, dir)
    requires ParentDir(q, dir) == ParentDir(p, dir) && NextDir(q, dir) == NextDir(p, dir)
    requires LeavesAlone(p, dir, q) && LeavesAlone(q, dir, r)
    ensures LeavesAlone(p, dir, r)
  {
    forall d <- p | d != NextDir(p, dir)
      ensures OnlyMarks(p[d], r[d], d == ParentDir(p, dir), d == dir)
    {
      assert OnlyMarks(p[d], q[d], d == ParentDir(p, dir), d == dir);
      assert OnlyMarks(q[d], r[d], d == ParentDir(p, dir), d == dir);
    }
  }

  /** Runs cut short anywhere add the next project at most, keep what it had of its own, and change of the
      others only the iteration number of the parent and the flag of the current project. */
  lemma {:induction false} RunsLeaveAlone(p: Projects, dir: string, runs: seq<Run>)
    requires Layout(p, dir)
    ensures LeavesAlone(p, dir, AfterRuns(p, dir, runs))
    decreases |runs|
  {
    if runs != [] {
      var q, plan := AfterRun(p, dir, runs[0]), PlanOf(p, dir, runs[0].draw);
      RunKeepsPlan(p, dir, runs[0], runs[0].draw);
      assert PlanOf(q, dir, runs[0].draw).next == plan.next && PlanOf(q, dir, runs[0].draw).parent == plan.parent;
      AfterLeavesAlone(p, dir, runs[0].draw, Reach(p, dir, runs[0].writes));
      RunsLeaveAlone(q, dir, runs[1..]);
      LeavesAloneTwice(p, dir, q, AfterRuns(q, dir, runs[1..]));
    }
  }

  /** Creating a project fills in what is missing in the one found, and nothing else. */
  lemma CreationFillsIn(plan: Plan, q: Projects)
    requires plan.Fits(q)
    ensures var x, y := Found(plan, q), After(plan, q, 6)[plan.next];
            && y.ready && y.hasFileStatus && y.nameRegistry == x.nameRegistry
            && y.record == x.record.(uuid := y.record.uuid, salt := y.record.salt, configFile := y.record.configFile)
            && y.record.uuid == (if x.record.uuid == "" then plan.draw.uuid else x.record.uuid)
            && y.record.salt == (if x.record.salt == "" then plan.draw.salt else x.record.salt)
            && y.record.configFile ==
               (if x.record.uuid == "" && x.record.configFile == "" then plan.draw.configFile
                else x.record.configFile)
            && y.importStatus == Some(if x.importStatus.None? then NO_STATUS else x.importStatus.value)
  {
    CreationEdits(plan, q, 6);
  }

  lemma CreationEdits(plan: Plan, q: Projects, k: nat)
    requires plan.Fits(q) && k == 6
    ensures After(plan, q, k)[plan.next] ==
              Found(plan, q).(ready := true, hasFileStatus := true,
                              record := InitSalt(InitRecord(Found(plan, q).record, plan.draw), plan.draw),
                              importStatus := InitStatus(Found(plan, q).importStatus))
  {
    AfterIs(plan, q, k);
    var x := Found(plan, q);
    assert Edits(plan, x, 0) == Edits(plan, x, 1) == x && Edits(plan, x, 2) == x.(ready := true);
    assert Edits(plan, x, 4) == x.(ready := true, record := InitRecord(x.record, plan.draw),
                                   importStatus := InitStatus(x.importStatus));
    assert Edits(plan, x, 5) == Edits(plan, x, 4).(hasFileStatus := true);
  }

  /** A new project starts with the identifiers drawn for it and with nothing done yet. */
  lemma NewProjectStartsAfresh(p: Projects, dir: string, draw: Draw)
    requires Layout(p, dir) && HasInputs(p, dir) && NextDir(p, dir) !in p
    ensures var x := After(PlanOf(p, dir, draw), p, WRITES)[NextDir(p, dir)];
            && x.record.uuid == draw.uuid && x.record.salt == draw.salt
            && x.record.latestIterationNumber == 0 && !x.record.nextIterationInitialized
            && x.importStatus.Some? && !x.importStatus.value.importDataStarted
  {
    FullRun(PlanOf(p, dir, draw), p);
  }
}
