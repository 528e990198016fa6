/** A cancelled schedule, and the limits of one that is not: what it shows stays as it is, it calls no more
    jobs than its plan allows, and it does not wake itself. */
module SchedulerEffects {
  import opened Wrappers
  import opened CatalogTypes
  import opened Permits
  import opened Plans
  import opened JobVerdicts
  import opened Scheduler
  import opened SchedulerData
  import opened SchedulerEndings
  import opened SchedulerPermits
  import opened SchedulerWakes
  import opened SchedulerProgress

  // ----- after a cancellation

  lemma CancelledStep(plan: Plan, run: Runs, s: Sched, step: Step)
    requires s.cancelled && Enabled(plan, s, step)
    ensures var t := Next(plan, run, s, step);
            && t.cancelled && t.status == s.status && t.cache == s.cache && t.runners.Keys == s.runners.Keys
            && !step.StartJob? && !step.Admit?
            && (s.pc.Top? || s.pc.Aborted? ==> (t.pc.Top? || t.pc.Aborted?) && t.mine == s.mine)
  {
    hide Possible, Perform, NoneToBlock, ToBlock, Admissible, Woken, IsRelease, Outcome;
  }

  predicate StartsNone(steps: seq<Step>) {
    forall i | 0 <= i < |steps| :: !steps[i].StartJob? && !steps[i].Admit?
  }

  lemma {:induction false} CancelledIsFrozen(plan: Plan, run: Runs, s: Sched, steps: seq<Step>)
    requires s.cancelled && CanRun(plan, run, s, steps)
    ensures var t := After(plan, run, s, steps);
            && t.cancelled && t.status == s.status && t.cache == s.cache && t.runners.Keys == s.runners.Keys
            && StartsNone(steps)
            && (s.pc.Top? || s.pc.Aborted? ==> (t.pc.Top? || t.pc.Aborted?) && t.mine == s.mine)
    decreases |steps|
  {
    hide Enabled, Next;
    if steps != [] {
      CancelledStep(plan, run, s, steps[0]);
      CancelledIsFrozen(plan, run, Next(plan, run, s, steps[0]), steps[1..]);
    }
  }

  /** After a cancellation the published statuses and the cache stay as they are, for good; no job is
      admitted and none is called any more; a schedule about to start a round takes no permit for it; and one
      that waits goes on at once, to its end. */
  lemma CancelFreezes(plan: Plan, run: Runs, s: Sched, steps: seq<Step>)
    requires Enabled(plan, s, Cancel) && CanRun(plan, run, Next(plan, run, s, Cancel), steps)
    ensures var t := After(plan, run, Next(plan, run, s, Cancel), steps);
            && t.status == s.status && t.cache == s.cache && t.runners.Keys == s.runners.Keys && StartsNone(steps)
            && (s.pc.Top? || s.pc.Aborted? ==> (t.pc.Top? || t.pc.Aborted?) && t.mine == s.mine)
            && (t.pc.Parked? ==> Enabled(plan, t, Leave) && Next(plan, run, t, Leave).pc.Aborted?)
            && (t.pc.Top? ==> Enabled(plan, t, Begin) && Next(plan, run, t, Begin).pc.Aborted?)
  {
    hide CanRun, After;
    CancelledIsFrozen(plan, run, Next(plan, run, s, Cancel), steps);
  }

  // ----- how many jobs run at once

  function Unfinished(s: Sched): set<Kind> {
    set k | k in s.runners && !Finished(s.runners[k].phase)
  }

  /** An unfinished runner's job is loading, and results come from delivered runners. */
  ghost predicate Placed(s: Sched) {
    && (forall k | k in s.runners :: Launched(StateOf(s.states, k)) && (!Finished(s.runners[k].phase) ==> StateOf(s.states, k) == Loading))
    && (forall i | 0 <= i < |s.results| :: s.results[i].kind in s.runners && s.runners[s.results[i].kind].phase == Delivered)
  }

  lemma PlacedKeeps(plan: Plan, run: Runs, s: Sched, step: Step)
    requires Placed(s) && AimedAlways(plan, s) && Enabled(plan, s, step)
    ensures Placed(Next(plan, run, s, step))
  {
    hide Placed, Enabled, Next, Aimed;
    match step {
      case Block(i) => BlockPlaced(plan, run, s, i);
      case Admit => AdmitPlaced(plan, run, s);
      case Receive => ReceivePlaced(plan, run, s);
      case StartJob(_) => RunnerPlaced(plan, run, s, step);
      case SkipJob(_) => RunnerPlaced(plan, run, s, step);
      case Deliver(_) => RunnerPlaced(plan, run, s, step);
      case _ =>
        QuietSteps(plan, run, s, step);
        StillPlaced(s, Next(plan, run, s, step));
    }
  }

  lemma StillPlaced(s: Sched, t: Sched)
    requires Placed(s) && t.states == s.states && t.runners == s.runners && t.results == s.results
    ensures Placed(t)
  {
  }

  lemma BlockPlaced(plan: Plan, run: Runs, s: Sched, i: nat)
    requires Placed(s) && Enabled(plan, s, Block(i))
    ensures Placed(Next(plan, run, s, Block(i)))
  {
    hide BadDependency, Published;
  }

  lemma AdmitPlaced(plan: Plan, run: Runs, s: Sched)
    requires Placed(s) && AimedAlways(plan, s) && Enabled(plan, s, Admit)
    ensures Placed(Next(plan, run, s, Admit))
  {
    hide DependenciesReady, Published;
  }

  lemma ReceivePlaced(plan: Plan, run: Runs, s: Sched)
    requires Placed(s) && Enabled(plan, s, Receive)
    ensures Placed(Next(plan, run, s, Receive))
  {
    hide Published;
    var t := Next(plan, run, s, Receive);
    forall i | 0 <= i < |t.results| ensures t.results[i].kind in t.runners && t.runners[t.results[i].kind].phase == Delivered {
      assert t.results[i] == s.results[i + 1];
    }
  }

  lemma RunnerPlaced(plan: Plan, run: Runs, s: Sched, step: Step)
    requires Placed(s) && Enabled(plan, s, step) && (step.StartJob? || step.SkipJob? || step.Deliver?)
    ensures Placed(Next(plan, run, s, step))
  {
    hide Outcome;
  }

  lemma UnfinishedStep(plan: Plan, run: Runs, s: Sched, step: Step)
    requires Enabled(plan, s, step) && !step.Admit?
    ensures Unfinished(Next(plan, run, s, step)) <= Unfinished(s)
  {
    hide Possible, Perform, NoneToBlock, ToBlock, Admissible, Woken, IsRelease, Outcome, Published;
  }

  lemma AdmittedStep(plan: Plan, run: Runs, s: Sched)
    requires Enabled(plan, s, Admit) && AimedAlways(plan, s) && Tallied(plan, s) && Placed(s)
    ensures |Unfinished(Next(plan, run, s, Admit))| <= plan.parallelism
  {
    hide DependenciesReady;
    var t, k := Next(plan, run, s, Admit), plan.jobs[s.pc.next].kind;
    assert Unfinished(s) <= KindsIn(s.states, LOADING);
    SubsetIsSmall(Unfinished(s), KindsIn(s.states, LOADING));
    assert Unfinished(t) <= Unfinished(s) + {k};
    SubsetIsSmall(Unfinished(t), Unfinished(s) + {k});
  }

  lemma {:induction false} FewOverRuns(plan: Plan, run: Runs, s: Sched, steps: seq<Step>)
    requires DistinctKinds(plan.jobs) && Data(plan, run, s) && Placed(s) && |Unfinished(s)| <= plan.parallelism && CanRun(plan, run, s, steps)
    ensures |Unfinished(After(plan, run, s, steps))| <= plan.parallelism
    decreases |steps|
  {
    hide Enabled, Next, Placed, Tallied, AimedAlways, JobsOk, Channel, DistinctKinds;
    if steps != [] {
      var t := Next(plan, run, s, steps[0]);
      PlacedKeeps(plan, run, s, steps[0]);
      DataKeeps(plan, run, s, steps[0]);
      if steps[0].Admit? {
        AdmittedStep(plan, run, s);
      } else {
        UnfinishedStep(plan, run, s, steps[0]);
        SubsetIsSmall(Unfinished(t), Unfinished(s));
      }
      FewOverRuns(plan, run, t, steps[1..]);
    }
  }

  /** At no moment, cancelled or not, have more jobs been admitted and not finished than the plan allows at
      once. */
  lemma AtMostParallel(plan: Plan, run: Runs, p: Permits, steps: seq<Step>)
    requires WellFormed(plan) && CanRun(plan, run, Initial(plan, p), steps)
    ensures |Unfinished(After(plan, run, Initial(plan, p), steps))| <= plan.parallelism
  {
    InitialData(plan, run, p);
    assert Unfinished(Initial(plan, p)) == {};
    FewOverRuns(plan, run, Initial(plan, p), steps);
  }

  // ----- no round without work

  /** A job is left at the start of a round and at every wait. */
  predicate SomeLeft(plan: Plan, s: Sched) {
    s.pc.Top? || s.pc.Parked? ==> s.terminal < |plan.jobs|
  }

  lemma SomeLeftKeeps(plan: Plan, run: Runs, s: Sched, step: Step)
    requires SomeLeft(plan, s) && Enabled(plan, s, step) && Tallied(plan, Next(plan, run, s, step))
    ensures SomeLeft(plan, Next(plan, run, s, step))
  {
    hide Possible, Perform, NoneToBlock, ToBlock, Admissible, Woken, IsRelease, Outcome, Published, KindsIn, KindSet;
  }

  lemma {:induction false} SomeLeftOverRuns(plan: Plan, run: Runs, s: Sched, steps: seq<Step>)
    requires DistinctKinds(plan.jobs) && Data(plan, run, s) && SomeLeft(plan, s) && CanRun(plan, run, s, steps)
    ensures SomeLeft(plan, After(plan, run, s, steps)) && Tallied(plan, After(plan, run, s, steps))
    decreases |steps|
  {
    hide Enabled, Next, Tallied, AimedAlways, JobsOk, Channel, DistinctKinds, SomeLeft;
    if steps != [] {
      DataKeeps(plan, run, s, steps[0]);
      SomeLeftKeeps(plan, run, s, steps[0]);
      SomeLeftOverRuns(plan, run, Next(plan, run, s, steps[0]), steps[1..]);
    }
  }

  /** A schedule that begins a round or waits has a job that has not ended: it ends with the last one. */
  lemma EndsWithTheLast(plan: Plan, run: Runs, p: Permits, steps: seq<Step>)
    requires WellFormed(plan) && CanRun(plan, run, Initial(plan, p), steps)
    requires var s := After(plan, run, Initial(plan, p), steps); s.pc.Top? || s.pc.Parked?
    ensures var s := After(plan, run, Initial(plan, p), steps);
            exists k | k in s.states :: s.states[k] == Pending || s.states[k] == Loading
  {
    hide Data, DistinctKinds, Tallied, SomeLeft;
    InitialData(plan, run, p);
    assert SomeLeft(plan, Initial(plan, p)) by { StartsWithAll(plan, p); }
    SomeLeftOverRuns(plan, run, Initial(plan, p), steps);
    OneIsLeft(plan, After(plan, run, Initial(plan, p), steps));
  }

  lemma StartsWithAll(plan: Plan, p: Permits)
    ensures SomeLeft(plan, Initial(plan, p))
  {
  }

  lemma OneIsLeft(plan: Plan, s: Sched)
    requires DistinctKinds(plan.jobs) && Tallied(plan, s) && SomeLeft(plan, s) && (s.pc.Top? || s.pc.Parked?)
    ensures exists k | k in s.states :: s.states[k] == Pending || s.states[k] == Loading
  {
    hide DistinctKinds, KindSet;
    OneKindEach(plan.jobs);
    if forall k | k in s.states :: Terminal(s.states[k]) {
      AllCounted(s.states);
    }
  }

  lemma AllCounted(states: map<Kind, State>)
    requires forall k | k in states :: Terminal(states[k])
    ensures |KindsIn(states, TERMINAL)| == |states.Keys|
  {
    assert KindsIn(states, TERMINAL) == states.Keys;
  }

  // ----- a park that lasts

  /** The round so far, as the scheduling goroutine alone made it: its own rollback, the only broadcast it
      makes, is on record, and what it was refused is still full. */
  predicate Alone(s: Sched) {
    && s.p.storeUsed <= s.p.storeCap
    && match s.pc
       case Listening => s.p.storeEpoch == s.storeMark
       case Blocking => s.p.storeEpoch == s.storeMark && s.p.hostEpoch == s.hostMark
       case Scanning(_) => InStep(s) && (s.sawHost ==> s.p.storeUsed < s.p.storeCap)
       case Trying(_, ticket) => InStep(s) && !s.sawStore && ticket in s.p.tickets && s.p.tickets[ticket].here
       case RollingBack(_, _) => InStep(s) && s.sawHost && s.p.storeUsed < s.p.storeCap
       case Admitting(_, _) => InStep(s) && !s.sawHost && !s.sawStore
       case Parked(_) => !Woken(s)
       case _ => true
  }

  predicate InStep(s: Sched) {
    && s.p.hostEpoch == s.hostMark && (!s.sawHost ==> s.p.storeEpoch == s.storeMark)
    && (s.sawHost ==> s.p.hostUsed >= s.p.hostCap && !s.sawStore)
    && (s.sawStore ==> s.p.storeUsed >= s.p.storeCap)
  }

  lemma AloneKeeps(plan: Plan, run: Runs, s: Sched, step: Step)
    requires Alone(s) && Enabled(plan, s, step) && Own(step) && !s.pc.Refusing?
    ensures Alone(Next(plan, run, s, step))
  {
    hide NoneToBlock, ToBlock, Admissible, Published;
  }

  predicate AllOwn(steps: seq<Step>) {
    forall i | 0 <= i < |steps| :: Own(steps[i])
  }

  lemma RefusedNeverParks(plan: Plan, run: Runs, s: Sched, step: Step)
    requires Enabled(plan, s, step) && Own(step) && (s.pc.Refusing? || s.pc.Aborted?)
    ensures Next(plan, run, s, step).pc.Refusing? || Next(plan, run, s, step).pc.Aborted?
  {
    hide NoneToBlock, ToBlock, Admissible, Published, Possible, Perform, IsRelease;
  }

  lemma {:induction false} StaysAlone(plan: Plan, run: Runs, s: Sched, steps: seq<Step>)
    requires CanRun(plan, run, s, steps) && AllOwn(steps)
    requires s.pc.Refusing? || s.pc.Aborted? || Alone(s)
    ensures var t := After(plan, run, s, steps); t.pc.Refusing? || t.pc.Aborted? || Alone(t)
    decreases |steps|
  {
    hide Enabled, Next, Alone, Own;
    if steps != [] {
      if s.pc.Refusing? || s.pc.Aborted? {
        RefusedNeverParks(plan, run, s, steps[0]);
      } else {
        AloneKeeps(plan, run, s, steps[0]);
      }
      StaysAlone(plan, run, Next(plan, run, s, steps[0]), steps[1..]);
    }
  }

  /** A schedule does not spin: after a round of its own in which nobody else moved, with however many
      refusals and rollbacks, it is parked with nothing to wake it. */
  lemma NoBusySpin(plan: Plan, run: Runs, p: Permits, steps: seq<Step>, round: seq<Step>)
    requires WellFormed(plan) && Conserved(p) && CanRun(plan, run, Initial(plan, p), steps)
    requires var s := After(plan, run, Initial(plan, p), steps); s.pc.Top? && CanRun(plan, run, s, round) && AllOwn(round)
    ensures var t := After(plan, run, After(plan, run, Initial(plan, p), steps), round);
            t.pc.Parked? ==> !Woken(t)
  {
    hide CanRun, After;
    var s := After(plan, run, Initial(plan, p), steps);
    Reachable(plan, run, p, steps);
    StaysAlone(plan, run, s, round);
  }
}
