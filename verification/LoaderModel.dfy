/** Loader as values: every critical section under its mutex, against schedules of any generation. */
module LoaderModel {
  import opened Wrappers
  import opened CatalogTypes

  datatype Status = Status(state: State, begun: bool, count: int)

  /** catalog.MetadataSnapshot; `ready` are the categories that Cache.Metadata calls ready. */
  datatype Snapshot = Snapshot(generation: nat, revision: nat, started: bool, startFailed: bool, stale: bool,
                               ready: set<Kind>, status: map<Kind, Status>)

  /** The context of a generation's jobs: ended by the loader itself, or by the caller of Start. */
  datatype Ctx = NoCtx | Live | EndedByLoader | EndedByParent

  datatype Done = NoDone | Open | Closed

  /** `runs` are the scheduling goroutines, with the states that they know, by generation.  `retired`
      are the last snapshots of the generations before.  `lost` are the categories of this one whose end
      was noted and not published; it is cleared when they are settled. */
  datatype Loader = Loader(
    snapshot: Option<Snapshot>, generation: nat, started: bool, startFailed: bool, stopped: bool,
    ctx: Ctx, done: Done, active: int, drained: bool,
    runs: map<nat, map<Kind, State>>, retired: map<nat, Snapshot>, lost: set<Kind>)

  predicate Unsettled(st: State) {
    st == Pending || st == Loading
  }

  /** metadataKinds */
  const KINDS: set<Kind> := {Schemas, Relations, ColumnsCurrent, ColumnsAll, PrimaryKeys, ForeignKeys, Views, Procedures,
                             Generators, SystemRelations, Exceptions, Domains, Functions, Indexes, Triggers, Dependencies}

  function EmptyStatus(): map<Kind, Status> {
    map k | k in KINDS :: Status(Unsupported, false, 0)
  }

  function Planned(kinds: set<Kind>): map<Kind, Status> {
    map k | k in KINDS :: Status(if k in kinds then Pending else Unsupported, false, 0)
  }

  /** Whatever had not ended is cancelled. */
  function SettledStatus(status: map<Kind, Status>): map<Kind, Status> {
    map k | k in status :: if Unsettled(status[k].state) then status[k].(state := Cancelled) else status[k]
  }

  /** No category is pending or loading. */
  predicate Settled(s: Snapshot) {
    forall k | k in s.status :: !Unsettled(s.status[k].state)
  }

  /** MetadataSnapshot.Settled */
  predicate SettledSnapshot(s: Snapshot) {
    (s.started || s.startFailed) && s.status != map[] && Settled(s)
  }

  function CloseDone(d: Done): Done {
    if d == Open then Closed else d
  }

  function CancelCtx(c: Ctx): Ctx {
    if c == NoCtx then NoCtx else EndedByLoader
  }

  // ----- the critical sections

  function New(): Loader {
    Loader(None, 0, false, false, false, NoCtx, NoDone, 0, true, map[], map[], {})
  }

  function Reset(l: Loader, generation: nat): Loader {
    if l.stopped || generation <= l.generation then l else
      l.(generation := generation, started := false, startFailed := false, ctx := NoCtx, done := NoDone, lost := {},
         snapshot := Some(Snapshot(generation, 1, false, false, false, {}, EmptyStatus())),
         retired := if l.snapshot.None? then l.retired
                    else l.retired[l.generation := Republished(l.snapshot.value, SettledStatus(l.snapshot.value.status))])
  }

  function Republished(s: Snapshot, status: map<Kind, Status>): Snapshot {
    s.(revision := s.revision + 1, status := status)
  }

  function Publish(l: Loader, status: map<Kind, Status>): Loader
    requires l.snapshot.Some?
  {
    l.(snapshot := Some(Republished(l.snapshot.value, status)))
  }

  function MarkStartFailed(l: Loader, generation: nat): Loader {
    if l.stopped || generation != l.generation || l.snapshot.None? || l.started || l.startFailed then l else
      l.(startFailed := true,
         snapshot := Some(l.snapshot.value.(revision := l.snapshot.value.revision + 1, started := false, startFailed := true)))
  }

  function Start(l: Loader, generation: nat, kinds: set<Kind>): Loader {
    if l.stopped || generation != l.generation || l.snapshot.None? || l.started || l.startFailed then l else
      l.(started := true, ctx := Live, done := Open, active := l.active + 1, drained := false,
         runs := l.runs[generation := map k | k in kinds :: Pending],
         snapshot := Some(l.snapshot.value.(revision := l.snapshot.value.revision + 1, started := true, startFailed := false, status := Planned(kinds))))
  }

  predicate Admissible(l: Loader, generation: nat, k: Kind) {
    && !l.stopped && l.started && l.generation == generation && l.snapshot.Some? && l.ctx == Live
    && k in l.snapshot.value.status && l.snapshot.value.status[k].state == Pending
  }

  /** admitJob, with the schedule's own note of it */
  function AdmitJob(l: Loader, generation: nat, k: Kind): Loader
    requires generation in l.runs
  {
    if !Admissible(l, generation, k) then l else
      var status := l.snapshot.value.status;
      Publish(l, status[k := status[k].(state := Loading)]).(active := l.active + 1, drained := false,
        runs := l.runs[generation := l.runs[generation][k := Loading]])
  }

  /** markMetadataJobStarted */
  function MarkJobStarted(l: Loader, generation: nat, k: Kind): Loader {
    if l.stopped || generation != l.generation || l.snapshot.None? || l.ctx != Live || k !in l.snapshot.value.status then l else
      var status := l.snapshot.value.status;
      if status[k].state != Loading || status[k].begun then l else Publish(l, status[k := status[k].(begun := true)])
  }

  /** recordMetadataJobMetrics */
  function RecordMetrics(l: Loader, generation: nat, k: Kind, count: int): Loader {
    if generation != l.generation || l.snapshot.None? || k !in l.snapshot.value.status then l else
      var status := l.snapshot.value.status;
      if status[k].state != Loading && status[k].state != Cancelled then l else Publish(l, status[k := status[k].(count := count)])
  }

  /** terminalMetadataState */
  predicate Terminal(st: State) {
    !Unsettled(st)
  }

  function Ended(s: Snapshot, k: Kind, st: State): Snapshot
    requires k in s.status
  {
    Republished(s, s.status[k := s.status[k].(state := st)]).(ready := if st == Ready then s.ready + {k} else s.ready)
  }

  /** The snapshot after setStatus: only a live generation's category that has not ended changes. */
  function StatusSnapshot(l: Loader, generation: nat, k: Kind, st: State): Option<Snapshot> {
    if l.generation != generation || l.snapshot.None? || l.ctx != Live || k !in l.snapshot.value.status || Terminal(l.snapshot.value.status[k].state)
    then l.snapshot
    else Some(Ended(l.snapshot.value, k, st))
  }

  /** The category, if its end is not published although it had not ended. */
  function Unpublished(l: Loader, generation: nat, k: Kind): set<Kind> {
    if l.generation == generation && l.snapshot.Some? && l.ctx != Live && k in l.snapshot.value.status && Unsettled(l.snapshot.value.status[k].state)
    then {k} else {}
  }

  /** setStatus, with a merged cache when a category becomes ready */
  function SetStatus(l: Loader, generation: nat, k: Kind, st: State): Loader {
    l.(snapshot := StatusSnapshot(l, generation, k, st),
       lost := l.lost + Unpublished(l, generation, k))
  }

  /** A schedule notes the end of a job and publishes it. */
  function EndJob(l: Loader, generation: nat, k: Kind, st: State): Loader
    requires generation in l.runs
  {
    SetStatus(l, generation, k, st).(runs := l.runs[generation := l.runs[generation][k := st]])
  }

  /** settleCancelled, after which the schedule returns */
  function SettleCancelled(l: Loader, generation: nat): Loader {
    var t := l.(runs := l.runs - {generation});
    if l.generation != generation || l.snapshot.None? then t
    else if Settled(l.snapshot.value) then t.(done := CloseDone(l.done), lost := {})
    else Publish(t, SettledStatus(l.snapshot.value.status)).(done := CloseDone(l.done), lost := {})
  }

  /** finish, after which the schedule returns */
  function Finish(l: Loader, generation: nat): Loader {
    l.(runs := l.runs - {generation}, done := if l.generation == generation then CloseDone(l.done) else l.done)
  }

  function RunnerFinished(l: Loader): Loader {
    l.(active := l.active - 1, drained := l.active - 1 == 0)
  }

  function MarkStale(l: Loader): Loader {
    if l.stopped || l.snapshot.None? || l.snapshot.value.stale then l else
      l.(ctx := CancelCtx(l.ctx), done := CloseDone(l.done), lost := {},
         snapshot := Some(Republished(l.snapshot.value, SettledStatus(l.snapshot.value.status)).(stale := true)))
  }

  function Stop(l: Loader): Loader {
    if l.stopped then l else
      var t := l.(stopped := true, ctx := CancelCtx(l.ctx), done := CloseDone(l.done), lost := {});
      if l.snapshot.None? || Settled(l.snapshot.value) then t else Publish(t, SettledStatus(l.snapshot.value.status))
  }

  /** What installSettled demands of a staged snapshot. */
  predicate Installable(s: Snapshot) {
    && s.generation != 0 && s.started && !s.startFailed && SettledSnapshot(s)
    && (forall k | k in s.status :: s.status[k].count >= 0)
    && s.status.Keys <= KINDS && s.ready <= s.status.Keys && forall k | k in s.status :: s.status[k].state == Ready <==> k in s.ready
  }

  /** installSettled, under a context that has ended or not */
  function InstallSettled(l: Loader, s: Snapshot, ended: bool): Loader {
    if ended || !Installable(s) || l.stopped || l.started || l.snapshot.Some? then l else
      l.(generation := s.generation, started := true, snapshot := Some(s), ctx := Live, done := Closed)
  }

  // ----- steps

  datatype Step =
    | DoReset(generation: nat) | DoMarkStartFailed(generation: nat) | DoStart(generation: nat, kinds: set<Kind>)
    | DoAdmit(generation: nat, kind: Kind) | DoMarkJobStarted(generation: nat, kind: Kind) | DoRecordMetrics(generation: nat, kind: Kind, count: int)
    | DoEndJob(generation: nat, kind: Kind, state: State) | DoFinish(generation: nat) | DoSettleCancelled(generation: nat)
    | DoRunnerFinished | DoMarkStale | DoStop | DoInstall(snapshot: Snapshot, ended: bool) | ParentEnds

  /** A schedule ends only jobs it knows of, once each; it finishes when all have ended, and gives up
      only when its context has ended. */
  predicate Enabled(l: Loader, step: Step) {
    match step
    case DoStart(_, kinds) => kinds <= KINDS
    case DoAdmit(g, k) => g in l.runs && k in l.runs[g] && l.runs[g][k] == Pending
    case DoEndJob(g, k, st) => g in l.runs && k in l.runs[g] &&
                               ((st == Blocked && l.runs[g][k] == Pending) || ((st == Ready || st == Failed) && l.runs[g][k] == Loading))
    case DoFinish(g) => g in l.runs && forall k | k in l.runs[g] :: Terminal(l.runs[g][k])
    case DoSettleCancelled(g) => g in l.runs && (g != l.generation || l.ctx != Live)
    case DoRunnerFinished => l.active > 0
    case _ => true
  }

  function Next(l: Loader, step: Step): Loader
    requires Enabled(l, step)
  {
    match step
    case DoReset(g) => Reset(l, g)
    case DoMarkStartFailed(g) => MarkStartFailed(l, g)
    case DoStart(g, kinds) => Start(l, g, kinds)
    case DoAdmit(g, k) => AdmitJob(l, g, k)
    case DoMarkJobStarted(g, k) => MarkJobStarted(l, g, k)
    case DoRecordMetrics(g, k, count) => RecordMetrics(l, g, k, count)
    case DoEndJob(g, k, st) => EndJob(l, g, k, st)
    case DoFinish(g) => Finish(l, g)
    case DoSettleCancelled(g) => SettleCancelled(l, g)
    case DoRunnerFinished => RunnerFinished(l)
    case DoMarkStale => MarkStale(l)
    case DoStop => Stop(l)
    case DoInstall(s, ended) => InstallSettled(l, s, ended)
    case ParentEnds => if l.ctx == Live then l.(ctx := EndedByParent) else l
  }
}
