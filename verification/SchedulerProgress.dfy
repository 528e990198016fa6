/** A schedule makes progress: unless it waits for something, one of its own steps is possible, and after a
    bounded number of them it parks or ends. */
module SchedulerProgress {
  import opened Wrappers
  import opened CatalogTypes
  import opened Permits
  import opened Plans
  import opened JobVerdicts
  import opened Scheduler
  import opened SchedulerData
  import opened SchedulerEndings
  import opened SchedulerPermits
  import opened SchedulerWakes

  /** The steps of the scheduling goroutine between two waits; waking up and receiving a result begin the
      next stretch. */
  predicate Own(step: Step) {
    && !step.Cancel? && !step.Environment? && !step.StartJob? && !step.SkipJob? && !step.Deliver? && !step.Release?
    && !Resumes(step)
  }

  predicate Resumes(step: Step) {
    step.Wake? || step.Receive?
  }

  // ----- a bound on the own steps

  const PENDING: set<State> := {Pending}

  function Rest(n: nat, i: nat): nat {
    if i < n then n - i else 0
  }

  /** How many own steps are left at most before the schedule parks or ends. */
  function Left(plan: Plan, s: Sched): nat {
    var n := |plan.jobs|;
    var pending := |KindsIn(s.states, PENDING)|;
    match s.pc
    case Top => 4 * n + pending + 11
    case Listening => 4 * n + pending + 10
    case Blocking => 4 * n + pending + 9
    case Scanning(i) => 4 * Rest(n, i) + 8
    case Trying(i, _) => 4 * Rest(n, i) + 7
    case Admitting(i, _) => 4 * Rest(n, i) + 6
    case RollingBack(i, _) => 4 * Rest(n, i) + 6
    case Refusing(t) => 7 - Progress(s.p, t)
    case Parked(_) => 1
    case _ => 0
  }

  lemma OneNext(n: nat, i: nat)
    requires i < n
    ensures Rest(n, i) == Rest(n, i + 1) + 1
  {
  }

  lemma FewPending(plan: Plan, s: Sched)
    requires DistinctKinds(plan.jobs) && Tallied(plan, s)
    ensures |KindsIn(s.states, PENDING)| <= |plan.jobs|
    ensures Left(plan, s) <= 5 * |plan.jobs| + 11
  {
    hide Progress, DistinctKinds;
    OneKindEach(plan.jobs);
    SubsetIsSmall(KindsIn(s.states, PENDING), KindSet(plan.jobs));
  }

  lemma BlockIsOneLess(plan: Plan, run: Runs, s: Sched, i: nat)
    requires Enabled(plan, s, Block(i))
    ensures Left(plan, Next(plan, run, s, Block(i))) < Left(plan, s)
  {
    hide BadDependency;
    KindsMove(s.states, plan.jobs[i].kind, Blocked, PENDING);
  }

  lemma RefusalIsOneLess(plan: Plan, run: Runs, s: Sched, op: Op)
    requires Enabled(plan, s, ReleaseRefused(op))
    ensures Left(plan, Next(plan, run, s, ReleaseRefused(op))) < Left(plan, s)
  {
    hide Perform, Possible, Progress;
    OpAdvances(s.p, op, op.id);
  }

  /** Each own step leaves fewer. */
  lemma OwnStepsAreFewer(plan: Plan, run: Runs, s: Sched, step: Step)
    requires AimedAlways(plan, s) && Enabled(plan, s, step) && Own(step)
    ensures Left(plan, Next(plan, run, s, step)) < Left(plan, s)
  {
    hide Admissible, NoneToBlock, Possible, Perform, KindsIn, Published, ToBlock, Rest, IsRelease;
    if s.pc.Scanning? || s.pc.Trying? || s.pc.Admitting? || s.pc.RollingBack? {
      if s.pc.next < |plan.jobs| {
        OneNext(|plan.jobs|, s.pc.next);
      }
    }
    match step {
      case Block(i) => BlockIsOneLess(plan, run, s, i);
      case ReleaseRefused(op) => RefusalIsOneLess(plan, run, s, op);
      case StartScan => assert Rest(|plan.jobs|, 0) == |plan.jobs| by { WholeRest(|plan.jobs|); }
      case _ =>
    }
  }

  lemma WholeRest(n: nat)
    ensures Rest(n, 0) == n
  {
  }

  lemma OthersLeaveThePlace(plan: Plan, run: Runs, s: Sched, step: Step)
    requires Enabled(plan, s, step) && !Own(step) && !Resumes(step)
    ensures var t := Next(plan, run, s, step); t.pc == s.pc && t.states == s.states
    ensures step.Environment? || step.Release? ==> Possible(s.p, step.op) && Next(plan, run, s, step).p == Perform(s.p, step.op)
    ensures !step.Environment? && !step.Release? ==> Next(plan, run, s, step).p == s.p
  {
    hide Perform, Possible, Outcome, IsRelease, SetPhase, Admissible, NoneToBlock;
  }

  /** What runners, detail loads, other stores and a cancellation do leaves no more. */
  lemma OthersLeaveNoMore(plan: Plan, run: Runs, s: Sched, step: Step)
    requires Enabled(plan, s, step) && !Own(step) && !Resumes(step)
    ensures Left(plan, Next(plan, run, s, step)) <= Left(plan, s)
  {
    hide Enabled, Next, Perform, Possible, Progress, KindsIn, Rest;
    OthersLeaveThePlace(plan, run, s, step);
    if s.pc.Refusing? {
      match step {
        case Environment(op) => OpAdvances(s.p, op, s.pc.ticket);
        case Release(k, op) => OpAdvances(s.p, op, s.pc.ticket);
        case _ =>
      }
    }
  }

  function OwnSteps(steps: seq<Step>): seq<Step> {
    if steps == [] then [] else (if Own(steps[0]) then [steps[0]] else []) + OwnSteps(steps[1..])
  }

  predicate NoResumption(steps: seq<Step>) {
    forall i | 0 <= i < |steps| :: !Resumes(steps[i])
  }

  lemma {:induction false} OwnStepsAreBounded(plan: Plan, run: Runs, s: Sched, steps: seq<Step>)
    requires DistinctKinds(plan.jobs) && Data(plan, run, s) && CanRun(plan, run, s, steps) && NoResumption(steps)
    ensures |OwnSteps(steps)| + Left(plan, After(plan, run, s, steps)) <= Left(plan, s)
    decreases |steps|
  {
    hide Own, Resumes, Enabled, Next, DistinctKinds, Left, Tallied, JobsOk, Channel, AimedAlways;
    if steps != [] {
      var next := Next(plan, run, s, steps[0]);
      DataKeeps(plan, run, s, steps[0]);
      if Own(steps[0]) { OwnStepsAreFewer(plan, run, s, steps[0]); } else { OthersLeaveNoMore(plan, run, s, steps[0]); }
      OwnStepsAreBounded(plan, run, next, steps[1..]);
    }
  }

  /** Between two resumptions a schedule takes at most five steps for each job and eleven more, whatever
      runners and other holders of permits do in the meantime. */
  lemma ParksSoon(plan: Plan, run: Runs, p: Permits, steps: seq<Step>, more: seq<Step>)
    requires WellFormed(plan) && CanRun(plan, run, Initial(plan, p), steps)
    requires CanRun(plan, run, After(plan, run, Initial(plan, p), steps), more) && NoResumption(more)
    ensures |OwnSteps(more)| <= 5 * |plan.jobs| + 11
  {
    hide Data, CanRun, After, DistinctKinds, Left, OwnSteps;
    var s := After(plan, run, Initial(plan, p), steps);
    InitialData(plan, run, p);
    DataOverRuns(plan, run, Initial(plan, p), steps);
    DataIsTallied(plan, run, s);
    FewPending(plan, s);
    OwnStepsAreBounded(plan, run, s, more);
  }

  lemma DataIsTallied(plan: Plan, run: Runs, s: Sched)
    requires Data(plan, run, s)
    ensures Tallied(plan, s)
  {
  }

  // ----- and one is always possible

  /** Nothing to do before someone else acts: parked without a result, a wake or a cancellation; or over. */
  predicate Waits(s: Sched) {
    || s.pc.Ended? || s.pc.Aborted?
    || (s.pc.Parked? && !s.cancelled && !Woken(s) && s.results == [])
  }

  lemma FreshTicket(s: Sched) returns (id: nat)
    ensures id !in s.mine && id !in s.p.tickets
  {
    var ids := s.mine + s.p.tickets.Keys;
    id := AboveAll(ids);
  }

  lemma AboveAll(ids: set<nat>) returns (top: nat)
    ensures forall id | id in ids :: id < top
    decreases |ids|
  {
    top := 0;
    if ids != {} {
      var id :| id in ids;
      var rest := AboveAll(ids - {id});
      top := if rest <= id then id + 1 else rest;
      forall other | other in ids ensures other < top { assert other == id || other in ids - {id}; }
    }
  }

  lemma ScanGoesOn(plan: Plan, s: Sched) returns (step: Step)
    requires s.pc.Scanning?
    ensures Own(step) && Enabled(plan, s, step)
  {
    if s.pc.next >= |plan.jobs| || s.running >= plan.parallelism {
      step := EndScan;
    } else if !Admissible(plan.jobs[s.pc.next], s.states) {
      step := Skip;
    } else if s.p.storeUsed >= s.p.storeCap {
      step := StoreIsFull;
    } else {
      var id := FreshTicket(s);
      step := TakeStorePermit(id);
    }
  }

  lemma TicketGoesOn(plan: Plan, s: Sched) returns (step: Step)
    requires Ownership(s) && AimedAlways(plan, s)
    requires s.pc.Trying? || s.pc.RollingBack? || s.pc.Admitting? || s.pc.Refusing?
    ensures Own(step) && Enabled(plan, s, step)
  {
    hide Conserved, Admissible;
    match s.pc {
      case Trying(_, _) => step := if s.p.hostUsed < s.p.hostCap then TakeHostPermit else HostIsFull;
      case RollingBack(_, _) => step := TellRollback;
      case Admitting(_, _) => step := if s.cancelled then Refuse else Admit;
      case Refusing(t) =>
        if s.p.tickets[t].stage == Closed {
          step := Leave;
        } else {
          ReleaseIsPossible(s.p, t);
          step := ReleaseRefused(ReleaseOp(s.p.tickets[t].stage, t));
        }
    }
  }

  lemma SomeStep(plan: Plan, s: Sched) returns (step: Step)
    requires Ownership(s) && AimedAlways(plan, s) && !Waits(s)
    ensures (Own(step) || Resumes(step)) && Enabled(plan, s, step)
  {
    hide Ownership, AimedAlways;
    match s.pc {
      case Top => step := Begin;
      case Listening => step := Listen;
      case Blocking =>
        if i :| 0 <= i < |plan.jobs| && ToBlock(plan.jobs[i], s.states) {
          step := Block(i);
        } else {
          step := StartScan;
        }
      case Scanning(_) => step := ScanGoesOn(plan, s);
      case Parked(_) => step := if s.cancelled then Leave else if Woken(s) then Wake else Receive;
      case _ => step := TicketGoesOn(plan, s);
    }
  }

  /** In every reachable state the scheduling goroutine can take a step, unless it waits.  So from every wake
      and every result it comes to the next park, or to the end. */
  lemma KeepsGoing(plan: Plan, run: Runs, p: Permits, steps: seq<Step>) returns (step: Step)
    requires WellFormed(plan) && Conserved(p) && CanRun(plan, run, Initial(plan, p), steps)
    requires !Waits(After(plan, run, Initial(plan, p), steps))
    ensures (Own(step) || Resumes(step)) && Enabled(plan, After(plan, run, Initial(plan, p), steps), step)
  {
    hide Waits, Own, Resumes, Enabled, CanRun, After, Watch, Ownership, Conserved;
    Reachable(plan, run, p, steps);
    step := SomeStep(plan, After(plan, run, Initial(plan, p), steps));
  }
}
