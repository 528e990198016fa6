/** No stall, no lost wake, no leaked permit: what a schedule may rely on when it parks. */
module SchedulerWakes {
  import opened Wrappers
  import opened CatalogTypes
  import opened Permits
  import opened Plans
  import opened JobVerdicts
  import opened Scheduler
  import opened SchedulerData
  import opened SchedulerEndings
  import opened SchedulerPermits

  predicate InScan(pc: Pc) {
    pc.Scanning? || pc.Trying? || pc.RollingBack? || pc.Admitting? || pc.Parked?
  }

  /** What being refused a permit still means: until the waker is broadcast, the store or host is full
      of used permits and releases that have not been broadcast. */
  predicate RefusalsHold(s: Sched) {
    && (s.sawStore && s.p.storeEpoch == s.storeMark ==> StoreFill(s.p) >= s.p.storeCap)
    && (s.sawHost && s.p.hostEpoch == s.hostMark ==> HostFill(s.p) >= s.p.hostCap)
  }

  predicate MarksHold(s: Sched) {
    s.storeMark <= s.p.storeEpoch && s.hostMark <= s.p.hostEpoch
  }

  /** Every admissible job the scan has passed was refused a permit. */
  predicate Passed(plan: Plan, s: Sched, n: int) {
    forall j | 0 <= j < |plan.jobs| && j < n && Admissible(plan.jobs[j], s.states) :: s.sawStore || s.sawHost
  }

  predicate ScanOk(plan: Plan, s: Sched) {
    && RefusalsHold(s) && NoneToBlock(plan.jobs, s.states)
    && (match s.pc
        case Scanning(next) => Passed(plan, s, next)
        case Trying(next, _) => Passed(plan, s, next)
        case RollingBack(next, _) => Passed(plan, s, next) && s.sawHost
        case Admitting(next, _) => Passed(plan, s, next)
        case Parked(onStore) => (s.running < plan.parallelism ==> Passed(plan, s, |plan.jobs|)) && onStore == !(s.sawHost && !s.sawStore)
        case _ => true)
  }

  ghost predicate Watch(plan: Plan, s: Sched) {
    && (s.pc.Listening? ==> s.storeMark <= s.p.storeEpoch)
    && (InScan(s.pc) || s.pc.Blocking? ==> MarksHold(s))
    && (InScan(s.pc) ==> ScanOk(plan, s))
  }

  /** Permits coming and going keep what a refusal means. */
  lemma RefusalsKeep(s: Sched, t: Sched, op: Op)
    requires Conserved(s.p) && Possible(s.p, op) && t.p == Perform(s.p, op) && MarksHold(s) && RefusalsHold(s)
    requires t.storeMark == s.storeMark && t.hostMark == s.hostMark && t.sawStore == s.sawStore
    requires t.sawHost == s.sawHost || (t.sawHost && s.p.hostUsed >= s.p.hostCap)
    ensures MarksHold(t) && RefusalsHold(t)
  {
    StepConserves(s.p, op);
  }

  lemma MarksKeep(p: Permits, op: Op)
    requires Conserved(p) && Possible(p, op)
    ensures p.storeEpoch <= Perform(p, op).storeEpoch && p.hostEpoch <= Perform(p, op).hostEpoch
  {
    StepConserves(p, op);
  }

  /** Launching a job makes no other job admissible, nor one to be blocked. */
  lemma LaunchingKeeps(plan: Plan, s: Sched, k: Kind)
    requires k in s.states && s.states[k] == Pending
    requires NoneToBlock(plan.jobs, s.states)
    ensures NoneToBlock(plan.jobs, s.states[k := Loading])
    ensures forall j | 0 <= j < |plan.jobs| && Admissible(plan.jobs[j], s.states[k := Loading]) :: Admissible(plan.jobs[j], s.states)
  {
    var states := s.states[k := Loading];
    forall j | 0 <= j < |plan.jobs| ensures !ToBlock(plan.jobs[j], states) {
      assert !ToBlock(plan.jobs[j], s.states);
      if BadDependency(plan.jobs[j], states) {
        var d :| d in plan.jobs[j].dependsOn && Unsuccessful(StateOf(states, d));
        assert Unsuccessful(StateOf(s.states, d));
      }
    }
    forall j | 0 <= j < |plan.jobs| && Admissible(plan.jobs[j], states) ensures Admissible(plan.jobs[j], s.states) {
      forall d | d in plan.jobs[j].dependsOn ensures StateOf(s.states, d) == Ready { assert StateOf(states, d) == Ready; }
    }
  }

  lemma OpWatchKeeps(plan: Plan, run: Runs, s: Sched, step: Step)
    requires Conserved(s.p) && Watch(plan, s) && Enabled(plan, s, step)
    requires (step.TakeHostPermit? || step.HostIsFull? || step.TellRollback? ==> PcTicket(s.pc).Some?) && OpOf(s, step).Some?
    ensures Watch(plan, Next(plan, run, s, step))
  {
    hide Conserved, Possible, Perform, NoneToBlock, Admissible, IsRelease, StoreFill, HostFill;
    var t, op := Next(plan, run, s, step), OpOf(s, step).value;
    StepIsOp(plan, run, s, step);
    MarksKeep(s.p, op);
    if InScan(s.pc) {
      RefusalsKeep(s, t, op);
    }
  }

  lemma AdmitWatchKeeps(plan: Plan, run: Runs, s: Sched)
    requires Watch(plan, s) && AimedAlways(plan, s) && Enabled(plan, s, Admit)
    ensures Watch(plan, Next(plan, run, s, Admit))
  {
    hide Possible, NoneToBlock, StoreFill, HostFill;
    var t, job := Next(plan, run, s, Admit), plan.jobs[s.pc.next];
    LaunchingKeeps(plan, s, job.kind);
    forall j | 0 <= j < |plan.jobs| && j < t.pc.next && Admissible(plan.jobs[j], t.states) ensures t.sawStore || t.sawHost {
      assert Admissible(plan.jobs[j], s.states);
      assert j != s.pc.next by { assert StateOf(t.states, job.kind) == Loading; }
    }
  }

  lemma WatchKeeps(plan: Plan, run: Runs, s: Sched, step: Step)
    requires Conserved(s.p) && Watch(plan, s) && AimedAlways(plan, s) && Enabled(plan, s, step)
    ensures Watch(plan, Next(plan, run, s, step))
  {
    hide Conserved, Possible, Perform, NoneToBlock, Admissible, IsRelease, Published, Outcome, AimedAlways;
    StepIsOp(plan, run, s, step);
    if OpOf(s, step).Some? {
      OpWatchKeeps(plan, run, s, step);
    } else if step == Admit {
      AdmitWatchKeeps(plan, run, s);
    } else {
      QuietWatchKeeps(plan, run, s, step);
    }
  }

  lemma QuietWatchKeeps(plan: Plan, run: Runs, s: Sched, step: Step)
    requires Conserved(s.p) && Watch(plan, s) && Enabled(plan, s, step) && step != Admit
    requires (step.TakeHostPermit? || step.HostIsFull? || step.TellRollback? ==> PcTicket(s.pc).Some?) && OpOf(s, step).None?
    ensures Watch(plan, Next(plan, run, s, step))
  {
    hide Possible, Perform, NoneToBlock, Admissible, IsRelease, Published, Outcome, StoreHolders, HostHolders;
  }

  // ----- over every run

  ghost predicate Good(plan: Plan, run: Runs, s: Sched) {
    Data(plan, run, s) && Ownership(s) && Watch(plan, s)
  }

  lemma GoodKeeps(plan: Plan, run: Runs, s: Sched, step: Step)
    requires DistinctKinds(plan.jobs) && Good(plan, run, s) && Enabled(plan, s, step)
    ensures Good(plan, run, Next(plan, run, s, step))
  {
    hide Next, Tallied, Watch, DistinctKinds, Possible, NoneToBlock, JobOk, Conserved;
    DataKeeps(plan, run, s, step);
    WatchKeeps(plan, run, s, step);
    if step == Admit {
      NotYetLaunched(plan, run, s);
    }
    OwnershipKeeps(plan, run, s, step);
  }

  lemma {:induction false} GoodOverRuns(plan: Plan, run: Runs, s: Sched, steps: seq<Step>)
    requires DistinctKinds(plan.jobs) && Good(plan, run, s) && CanRun(plan, run, s, steps)
    ensures Good(plan, run, After(plan, run, s, steps))
    decreases |steps|
  {
    hide Good, Enabled, Next, DistinctKinds;
    if steps != [] {
      GoodKeeps(plan, run, s, steps[0]);
      GoodOverRuns(plan, run, Next(plan, run, s, steps[0]), steps[1..]);
    }
  }

  lemma Reachable(plan: Plan, run: Runs, p: Permits, steps: seq<Step>)
    requires WellFormed(plan) && Conserved(p) && CanRun(plan, run, Initial(plan, p), steps)
    ensures Good(plan, run, After(plan, run, Initial(plan, p), steps))
  {
    InitialData(plan, run, p);
    GoodOverRuns(plan, run, Initial(plan, p), steps);
  }

  /** With nothing running and a job left, some job is admissible. */
  lemma {:induction false} SomeAdmissible(plan: Plan, s: Sched, order: seq<Kind>, n: nat) returns (i: nat)
    requires Tallied(plan, s) && Orders(plan.jobs, order) && n < |order| && NoneToBlock(plan.jobs, s.states)
    requires (forall k | k in s.states :: s.states[k] != Loading) && (forall m | 0 <= m < |order| :: order[m] in s.states)
    requires s.states[order[n]] == Pending
    ensures i < |plan.jobs| && Admissible(plan.jobs[i], s.states)
  {
    assert Placed(plan.jobs, order, n);
    i :| 0 <= i < |plan.jobs| && plan.jobs[i].kind == order[n] && Satisfied(plan.jobs[i], order[..n]);
    assert !ToBlock(plan.jobs[i], s.states);
    if !DependenciesReady(plan.jobs[i], s.states) {
      var d :| d in plan.jobs[i].dependsOn && StateOf(s.states, d) != Ready;
      var m :| 0 <= m < n && order[m] == d;
      i := SomeAdmissible(plan, s, order, m);
    }
  }

  lemma SomePending(plan: Plan, s: Sched) returns (k: Kind)
    requires DistinctKinds(plan.jobs) && Tallied(plan, s) && s.pc.Parked? && s.running == 0
    ensures k in s.states && s.states[k] == Pending && forall j | j in s.states :: s.states[j] != Loading
  {
    forall j | j in s.states ensures s.states[j] != Loading { assert j in KindsIn(s.states, LOADING) || s.states[j] != Loading; }
    OneKindEach(plan.jobs);
    assert KindsIn(s.states, TERMINAL) != s.states.Keys;
    k :| k in s.states && k !in KindsIn(s.states, TERMINAL);
  }

  /** No lost wake, at every park, whatever is running.  With room for another job, a schedule that leaves
      an admissible one was refused a permit; and as long as nothing it waits on wakes it, used permits and
      releases not yet broadcast fill the store, or the host, that refused it. */
  lemma ParkedIsAccounted(plan: Plan, run: Runs, p: Permits, steps: seq<Step>, j: nat)
    requires WellFormed(plan) && Conserved(p) && CanRun(plan, run, Initial(plan, p), steps)
    requires After(plan, run, Initial(plan, p), steps).pc.Parked?
    ensures var s := After(plan, run, Initial(plan, p), steps);
            && (s.running < plan.parallelism && j < |plan.jobs| && Admissible(plan.jobs[j], s.states) ==> s.sawStore || s.sawHost)
            && (s.sawStore && !Woken(s) ==> StoreFill(s.p) >= s.p.storeCap)
            && (s.sawHost && !Woken(s) ==> HostFill(s.p) >= s.p.hostCap)
  {
    hide Good, Admissible, Woken, Conserved;
    Reachable(plan, run, p, steps);
    ParkMeans(plan, run, After(plan, run, Initial(plan, p), steps), j);
  }

  lemma ParkMeans(plan: Plan, run: Runs, s: Sched, j: nat)
    requires Good(plan, run, s) && s.pc.Parked?
    ensures s.running < plan.parallelism && j < |plan.jobs| && Admissible(plan.jobs[j], s.states) ==> s.sawStore || s.sawHost
    ensures s.sawStore && !Woken(s) ==> StoreFill(s.p) >= s.p.storeCap
    ensures s.sawHost && !Woken(s) ==> HostFill(s.p) >= s.p.hostCap
  {
    hide JobsOk, Channel, Ownership, Admissible;
  }

  /** No stall.  A schedule that parks with nothing running was refused a permit for a job whose
      dependencies are ready, and that job waits for a store or host that is full until it is woken. */
  lemma NoStall(plan: Plan, run: Runs, p: Permits, steps: seq<Step>, order: seq<Kind>) returns (i: nat)
    requires WellFormed(plan) && Schedules(plan.jobs, order) && Conserved(p) && CanRun(plan, run, Initial(plan, p), steps)
    requires var s := After(plan, run, Initial(plan, p), steps); s.pc.Parked? && s.running == 0
    ensures var s := After(plan, run, Initial(plan, p), steps);
            && i < |plan.jobs| && Admissible(plan.jobs[i], s.states)
            && (s.sawStore || s.sawHost)
            && (s.sawStore && !Woken(s) ==> StoreFill(s.p) >= s.p.storeCap)
            && (s.sawHost && !Woken(s) ==> HostFill(s.p) >= s.p.hostCap)
  {
    hide Good, Admissible, Woken, Orders, Conserved;
    Reachable(plan, run, p, steps);
    i := StallMeans(plan, run, After(plan, run, Initial(plan, p), steps), order);
    ParkedIsAccounted(plan, run, p, steps, i);
  }

  lemma StallMeans(plan: Plan, run: Runs, s: Sched, order: seq<Kind>) returns (i: nat)
    requires WellFormed(plan) && Schedules(plan.jobs, order) && Good(plan, run, s) && s.pc.Parked? && s.running == 0
    ensures i < |plan.jobs| && Admissible(plan.jobs[i], s.states) && (s.sawStore || s.sawHost)
  {
    hide JobsOk, Channel, Ownership, Admissible;
    var k := SomePending(plan, s);
    TerminalsFit(plan, s);
    var at := JobAt(plan.jobs, k);
    var n :| 0 <= n < |order| && order[n] == k;
    forall m | 0 <= m < |order| ensures order[m] in s.states { assert Placed(plan.jobs, order, m); }
    i := SomeAdmissible(plan, s, order, n);
    assert Passed(plan, s, |plan.jobs|);
  }

  // ----- permits

  /** The step moves the ticket on. */
  ghost predicate Moves(plan: Plan, run: Runs, s: Sched, step: Step, id: nat) {
    && Enabled(plan, s, step) && id in s.p.tickets
    && id in Next(plan, run, s, step).p.tickets
    && Rank(s.p.tickets[id].stage) < Rank(Next(plan, run, s, step).p.tickets[id].stage)
  }

  function ReleaseOp(stage: Stage, id: nat): Op {
    match stage
    case Both => FreeHost(id)
    case HostFreed => TellHost(id)
    case HostTold => FreeStore(id)
    case _ => TellStore(id)
  }

  /** No leaked permit.  In every reachable state, cancelled or not, the semaphores count exactly the
      tickets that hold them, and each open ticket of this loader belongs to a native call that has
      not returned, to the admission in progress, or to a goroutine whose next step moves it on. */
  lemma NoLeakedPermit(plan: Plan, run: Runs, p: Permits, steps: seq<Step>, id: nat)
    requires WellFormed(plan) && Conserved(p) && CanRun(plan, run, Initial(plan, p), steps)
    requires id in After(plan, run, Initial(plan, p), steps).mine
    ensures var s := After(plan, run, Initial(plan, p), steps);
            && Conserved(s.p) && id in s.p.tickets
            && (|| s.p.tickets[id].stage == Closed
                || (exists k | k in s.runners :: s.runners[k].ticket == id && !Finished(s.runners[k].phase))
                || (s.pc.Admitting? && s.pc.ticket == id)
                || exists step :: Moves(plan, run, s, step, id))
  {
    var s := After(plan, run, Initial(plan, p), steps);
    Reachable(plan, run, p, steps);
    assert TicketOk(s, id);
    if s.p.tickets[id].stage != Closed {
      OpenMoves(plan, run, s, id);
    }
  }

  lemma OpenMoves(plan: Plan, run: Runs, s: Sched, id: nat)
    requires Ownership(s) && id in s.mine && id in s.p.tickets && s.p.tickets[id].stage != Closed
    ensures || (exists k | k in s.runners :: s.runners[k].ticket == id && !Finished(s.runners[k].phase))
            || (s.pc.Admitting? && s.pc.ticket == id)
            || exists step :: Moves(plan, run, s, step, id)
  {
    assert TicketOk(s, id);
    if PcTicket(s.pc) == Some(id) {
      PcMoves(plan, run, s, id);
    } else {
      var k :| k in s.runners && s.runners[k].ticket == id;
      assert RunnerFits(s, s.runners[k]);
      if Finished(s.runners[k].phase) {
        RunnerMoves(plan, run, s, k, id);
      }
    }
  }

  lemma ReleaseIsPossible(p: Permits, id: nat)
    requires id in p.tickets && p.tickets[id].stage != Closed && p.tickets[id].stage != StoreTaken
    ensures var op := ReleaseOp(p.tickets[id].stage, id);
            && IsRelease(op, id) && Possible(p, op) && id in Perform(p, op).tickets
            && Rank(p.tickets[id].stage) < Rank(Perform(p, op).tickets[id].stage)
  {
  }

  lemma RunnerMoves(plan: Plan, run: Runs, s: Sched, k: Kind, id: nat)
    requires k in s.runners && s.runners[k].ticket == id && Finished(s.runners[k].phase)
    requires id in s.p.tickets && s.p.tickets[id].stage != Closed && s.p.tickets[id].stage != StoreTaken
    ensures Moves(plan, run, s, Release(k, ReleaseOp(s.p.tickets[id].stage, id)), id)
  {
    hide Rank, Perform, Possible, IsRelease;
    ReleaseIsPossible(s.p, id);
  }

  lemma PcMoves(plan: Plan, run: Runs, s: Sched, id: nat)
    requires PcTicket(s.pc) == Some(id) && id in s.p.tickets && StageFits(s.pc, s.p.tickets[id].stage) && s.p.tickets[id].stage != Closed
    ensures (s.pc.Admitting? && s.pc.ticket == id) || exists step :: Moves(plan, run, s, step, id)
  {
    hide Moves;
    match s.pc {
      case Trying(_, _) => TryMoves(plan, run, s, id);
      case RollingBack(_, _) => RollbackMoves(plan, run, s, id);
      case Refusing(_) => RefusalMoves(plan, run, s, id);
      case _ =>
    }
  }

  lemma TryMoves(plan: Plan, run: Runs, s: Sched, id: nat)
    requires s.pc.Trying? && s.pc.ticket == id && At(s.p, id, StoreTaken)
    ensures Moves(plan, run, s, if s.p.hostUsed < s.p.hostCap then TakeHostPermit else HostIsFull, id)
  {
  }

  lemma RollbackMoves(plan: Plan, run: Runs, s: Sched, id: nat)
    requires s.pc.RollingBack? && s.pc.ticket == id && At(s.p, id, StoreFreed)
    ensures Moves(plan, run, s, TellRollback, id)
  {
  }

  lemma RefusalMoves(plan: Plan, run: Runs, s: Sched, id: nat)
    requires s.pc.Refusing? && s.pc.ticket == id && id in s.p.tickets && s.p.tickets[id].stage != Closed && s.p.tickets[id].stage != StoreTaken
    ensures Moves(plan, run, s, ReleaseRefused(ReleaseOp(s.p.tickets[id].stage, id)), id)
  {
    hide Rank, Perform, Possible, IsRelease;
    ReleaseIsPossible(s.p, id);
  }

  /** A job's native call has both its permits from admission until it returns. */
  lemma CallsHoldPermits(plan: Plan, run: Runs, p: Permits, steps: seq<Step>, k: Kind)
    requires WellFormed(plan) && Conserved(p) && CanRun(plan, run, Initial(plan, p), steps)
    requires k in After(plan, run, Initial(plan, p), steps).runners
    requires !Finished(After(plan, run, Initial(plan, p), steps).runners[k].phase)
    ensures var s := After(plan, run, Initial(plan, p), steps);
            s.runners[k].ticket in StoreHolders(s.p) && s.runners[k].ticket in HostHolders(s.p)
  {
    var s := After(plan, run, Initial(plan, p), steps);
    Reachable(plan, run, p, steps);
    assert RunnerFits(s, s.runners[k]) && TicketOk(s, s.runners[k].ticket);
  }
}
