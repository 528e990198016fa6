/** Loader.schedule and its runners as a state machine: one step for each critical section. */
module Scheduler {
  import opened Wrappers
  import opened CatalogTypes
  import opened Permits
  import opened Plans
  import opened JobVerdicts

  /** Where the scheduling goroutine is. */
  datatype Pc =
    | Top                                   // before the check for cancellation
    | Listening                             // has the store's wake epoch, about to take the host's
    | Blocking                              // looking for jobs whose dependencies failed
    | Scanning(next: nat)                   // about to look at job `next`
    | Trying(next: nat, ticket: nat)        // has a store permit for it, about to ask for a host permit
    | RollingBack(next: nat, ticket: nat)   // gave the store permit back, about to broadcast
    | Admitting(next: nat, ticket: nat)     // has both permits for it
    | Refusing(ticket: nat)                 // saw the cancellation, gives both permits back
    | Parked(onStore: bool)                 // waits for a result, a wake or the cancellation
    | Ended                                 // every job is terminal
    | Aborted                               // saw the cancellation

  datatype Phase = Admitted | Running | Delivered | Skipped

  /** A runner goroutine: the cache it was given, and the ticket it has to give back. */
  datatype Runner = Runner(ticket: nat, input: map<Kind, Patch>, phase: Phase)

  datatype Result = Result(kind: Kind, patch: Option<Patch>)

  /** `states`, `running` and `terminal` are schedule's local variables; `launched` is not needed.
      `status` and `cache` are the published snapshot, the cache as the patches merged into it.
      `results` is the result channel. `mine` are the tickets of this loader's runners. */
  datatype Sched = Sched(
    p: Permits, mine: set<nat>, cancelled: bool, pc: Pc,
    states: map<Kind, State>, running: int, terminal: int,
    sawStore: bool, sawHost: bool, storeMark: nat, hostMark: nat,
    status: map<Kind, State>, cache: map<Kind, Patch>,
    runners: map<Kind, Runner>, results: seq<Result>)

  datatype Step =
    | Cancel | Environment(op: Op)
    | Begin | Listen | Block(job: nat) | StartScan | Skip | EndScan
    | TakeStorePermit(id: nat) | StoreIsFull | TakeHostPermit | HostIsFull | TellRollback
    | Admit | Refuse | ReleaseRefused(op: Op) | Leave
    | Wake | Receive
    | StartJob(kind: Kind) | SkipJob(kind: Kind) | Deliver(kind: Kind) | Release(kind: Kind, op: Op)

  function StateOf(states: map<Kind, State>, k: Kind): State {
    if k in states then states[k] else Unsupported
  }

  predicate Unsuccessful(st: State) {
    st == Failed || st == Blocked || st == Cancelled
  }

  predicate BadDependency(job: Job, states: map<Kind, State>) {
    exists k | k in job.dependsOn :: Unsuccessful(StateOf(states, k))
  }

  /** dependenciesReady */
  predicate DependenciesReady(job: Job, states: map<Kind, State>) {
    forall k | k in job.dependsOn :: StateOf(states, k) == Ready
  }

  predicate ToBlock(job: Job, states: map<Kind, State>) {
    StateOf(states, job.kind) == Pending && BadDependency(job, states)
  }

  predicate NoneToBlock(jobs: seq<Job>, states: map<Kind, State>) {
    forall i | 0 <= i < |jobs| :: !ToBlock(jobs[i], states)
  }

  predicate Admissible(job: Job, states: map<Kind, State>) {
    StateOf(states, job.kind) == Pending && DependenciesReady(job, states)
  }

  /** The release of a pair of permits: host, host waker, store, store waker. */
  predicate IsRelease(op: Op, ticket: nat) {
    op.id == ticket && (op.FreeHost? || op.TellHost? || op.FreeStore? || op.TellStore?)
  }

  /** A started generation: its cache is empty. */
  function Initial(plan: Plan, p: Permits): Sched {
    var states := map i | 0 <= i < |plan.jobs| :: plan.jobs[i].kind := Pending;
    Sched(p, {}, false, if plan.jobs == [] then Ended else Top, states, 0, 0, false, false, 0, 0, states, map[], map[], [])
  }

  predicate Enabled(plan: Plan, s: Sched, step: Step) {
    match step
    case Cancel => true
    case Environment(op) => op.id !in s.mine && Possible(s.p, op)
    case Begin => s.pc.Top?
    case Listen => s.pc.Listening?
    case Block(i) => s.pc.Blocking? && i < |plan.jobs| && ToBlock(plan.jobs[i], s.states)
    case StartScan => s.pc.Blocking? && NoneToBlock(plan.jobs, s.states)
    case Skip => s.pc.Scanning? && s.pc.next < |plan.jobs| && s.running < plan.parallelism && !Admissible(plan.jobs[s.pc.next], s.states)
    case EndScan => s.pc.Scanning? && (s.pc.next >= |plan.jobs| || s.running >= plan.parallelism)
    case TakeStorePermit(id) => AboutToTry(plan, s) && id !in s.mine && Possible(s.p, TakeStore(id, true))
    case StoreIsFull => AboutToTry(plan, s) && s.p.storeUsed >= s.p.storeCap
    case TakeHostPermit => s.pc.Trying? && Possible(s.p, TakeHost(s.pc.ticket))
    case HostIsFull => s.pc.Trying? && s.p.hostUsed >= s.p.hostCap && Possible(s.p, GiveBack(s.pc.ticket))
    case TellRollback => s.pc.RollingBack? && Possible(s.p, TellStore(s.pc.ticket))
    case Admit => s.pc.Admitting? && s.pc.next < |plan.jobs| && !s.cancelled
    case Refuse => s.pc.Admitting? && s.cancelled
    case ReleaseRefused(op) => s.pc.Refusing? && IsRelease(op, s.pc.ticket) && Possible(s.p, op)
    case Leave => (s.pc.Parked? && s.cancelled) || (s.pc.Refusing? && At(s.p, s.pc.ticket, Closed))
    case Wake => s.pc.Parked? && Woken(s)
    case Receive => s.pc.Parked? && s.results != []
    case StartJob(k) => k in s.runners && s.runners[k].phase == Admitted && !s.cancelled
    case SkipJob(k) => k in s.runners && s.runners[k].phase == Admitted && s.cancelled
    case Deliver(k) => k in s.runners && s.runners[k].phase == Running
    case Release(k, op) => k in s.runners && Finished(s.runners[k].phase) && IsRelease(op, s.runners[k].ticket) && Possible(s.p, op)
  }

  predicate AboutToTry(plan: Plan, s: Sched) {
    s.pc.Scanning? && s.pc.next < |plan.jobs| && s.running < plan.parallelism && Admissible(plan.jobs[s.pc.next], s.states)
  }

  predicate Finished(phase: Phase) {
    phase == Delivered || phase == Skipped
  }

  /** One of the wakers it waits on has been broadcast since the scan began. */
  predicate Woken(s: Sched)
    requires s.pc.Parked?
  {
    (s.pc.onStore && s.p.storeEpoch != s.storeMark) || s.p.hostEpoch != s.hostMark
  }

  /** Publishing a status does nothing once the generation is cancelled. */
  function Published(s: Sched, k: Kind, st: State): map<Kind, State> {
    if s.cancelled then s.status else s.status[k := st]
  }

  function Received(plan: Plan, s: Sched): Sched
    requires s.results != []
  {
    var k, patch := s.results[0].kind, s.results[0].patch;
    var t := s.(results := s.results[1..], running := s.running - 1);
    if s.cancelled then t.(pc := Aborted) else
      var st := if patch.Some? then Ready else Failed;
      t.(states := s.states[k := st], terminal := s.terminal + 1, status := Published(s, k, st),
         cache := if patch.Some? then s.cache[k := patch.value] else s.cache,
         pc := if s.terminal + 1 >= |plan.jobs| then Ended else Top)
  }

  function Admission(plan: Plan, s: Sched): Sched
    requires s.pc.Admitting? && s.pc.next < |plan.jobs|
  {
    var k := plan.jobs[s.pc.next].kind;
    s.(states := s.states[k := Loading], status := Published(s, k, Loading), running := s.running + 1,
       runners := s.runners[k := Runner(s.pc.ticket, s.cache, Admitted)], pc := Scanning(s.pc.next + 1))
  }

  function SetPhase(s: Sched, k: Kind, phase: Phase): map<Kind, Runner>
    requires k in s.runners
  {
    s.runners[k := s.runners[k].(phase := phase)]
  }

  function Next(plan: Plan, run: Runs, s: Sched, step: Step): Sched
    requires Enabled(plan, s, step)
  {
    match step
    case Cancel => s.(cancelled := true)
    case Environment(op) => s.(p := Perform(s.p, op))
    case Begin => if s.cancelled then s.(pc := Aborted) else s.(pc := Listening, storeMark := s.p.storeEpoch)
    case Listen => s.(pc := Blocking, hostMark := s.p.hostEpoch)
    case Block(i) =>
      var k := plan.jobs[i].kind;
      s.(states := s.states[k := Blocked], status := Published(s, k, Blocked), terminal := s.terminal + 1)
    case StartScan => s.(pc := Scanning(0), sawStore := false, sawHost := false)
    case Skip => s.(pc := Scanning(s.pc.next + 1))
    case EndScan => s.(pc := if s.terminal == |plan.jobs| then Ended else Parked(!(s.sawHost && !s.sawStore)))
    case TakeStorePermit(id) => s.(p := Perform(s.p, TakeStore(id, true)), mine := s.mine + {id}, pc := Trying(s.pc.next, id))
    case StoreIsFull => s.(sawStore := true, pc := Scanning(s.pc.next + 1))
    case TakeHostPermit => s.(p := Perform(s.p, TakeHost(s.pc.ticket)), pc := Admitting(s.pc.next, s.pc.ticket))
    case HostIsFull => s.(p := Perform(s.p, GiveBack(s.pc.ticket)), sawHost := true, pc := RollingBack(s.pc.next, s.pc.ticket))
    case TellRollback => s.(p := Perform(s.p, TellStore(s.pc.ticket)), pc := Scanning(s.pc.next + 1))
    case Admit => Admission(plan, s)
    case Refuse => s.(pc := Refusing(s.pc.ticket))
    case ReleaseRefused(op) => s.(p := Perform(s.p, op))
    case Leave => s.(pc := Aborted)
    case Wake => s.(pc := Top)
    case Receive => Received(plan, s)
    case StartJob(k) => s.(runners := SetPhase(s, k, Running))
    case SkipJob(k) => s.(runners := SetPhase(s, k, Skipped))
    case Deliver(k) =>
      s.(runners := SetPhase(s, k, Delivered), results := s.results + [Result(k, Outcome(plan, run, k, s.runners[k].input))])
    case Release(k, op) => s.(p := Perform(s.p, op))
  }

  /** What Run and the merge of its result make of a job's input. */
  function Outcome(plan: Plan, run: Runs, k: Kind, input: map<Kind, Patch>): Option<Patch> {
    if InPlan(plan.jobs, k) then run(k, Inputs(input, JobOf(plan.jobs, k).dependsOn)) else None
  }

  // ----- runs

  ghost predicate CanRun(plan: Plan, run: Runs, s: Sched, steps: seq<Step>)
    decreases |steps|
  {
    steps == [] || (Enabled(plan, s, steps[0]) && CanRun(plan, run, Next(plan, run, s, steps[0]), steps[1..]))
  }

  ghost function After(plan: Plan, run: Runs, s: Sched, steps: seq<Step>): Sched
    requires CanRun(plan, run, s, steps)
    decreases |steps|
  {
    if steps == [] then s else After(plan, run, Next(plan, run, s, steps[0]), steps[1..])
  }
}
