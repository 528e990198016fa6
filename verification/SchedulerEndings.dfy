/** Scheduler confluence: every interleaving gives each job the ending that the recursion over the
    dependency graph gives it. */
module SchedulerEndings {
  import opened Wrappers
  import opened CatalogTypes
  import opened Permits
  import opened Plans
  import opened JobVerdicts
  import opened Scheduler
  import opened SchedulerData

  lemma InitialData(plan: Plan, run: Runs, p: Permits)
    requires WellFormed(plan)
    ensures Data(plan, run, Initial(plan, p))
  {
    hide KindSet, BadDependency, DependenciesReady, Inputs, Outcome;
    var s := Initial(plan, p);
    forall k ensures k in s.states <==> k in KindSet(plan.jobs) { KindSetIs(plan.jobs, k); }
    assert s.states.Keys == KindSet(plan.jobs);
    assert KindsIn(s.states, LOADING) == {} && KindsIn(s.states, TERMINAL) == {};
  }

  lemma {:induction false} DataOverRuns(plan: Plan, run: Runs, s: Sched, steps: seq<Step>)
    requires DistinctKinds(plan.jobs) && Data(plan, run, s) && CanRun(plan, run, s, steps)
    ensures Data(plan, run, After(plan, run, s, steps))
    decreases |steps|
  {
    hide Data, Enabled, Next, DistinctKinds;
    if steps != [] {
      DataKeeps(plan, run, s, steps[0]);
      DataOverRuns(plan, run, Next(plan, run, s, steps[0]), steps[1..]);
    }
  }

  /** The state that an ending shows as. */
  function Shown(e: Ending): State {
    match e
    case Merged(_) => Ready
    case Failure => Failed
    case Stuck => Blocked
  }

  /** A finished job shows its ending, and a merged one has its patch in the cache. */
  predicate Ends(s: Sched, k: Kind, e: Ending) {
    && (Terminal(StateOf(s.states, k)) ==> StateOf(s.states, k) == Shown(e))
    && (k in s.cache ==> e == Merged(s.cache[k]))
    && (StateOf(s.states, k) == Ready ==> k in s.cache)
  }

  lemma JobEnds(plan: Plan, run: Runs, s: Sched, job: Job, e: map<Kind, Ending>)
    requires JobOk(plan, run, s, job) && job.kind in e && e[job.kind] == Judge(job, run, e)
    requires forall k | k in s.states :: Schedulable(s.states[k])
    requires forall k | k in job.dependsOn :: k in e && Ends(s, k, e[k])
    ensures Ends(s, job.kind, e[job.kind])
  {
    var st := StateOf(s.states, job.kind);
    if st == Blocked {
      var d :| d in job.dependsOn && Unsuccessful(StateOf(s.states, d));
      assert Ends(s, d, e[d]) && !e[d].Merged?;
    } else if st == Ready || st == Failed {
      forall d | d in job.dependsOn ensures d in s.cache && e[d] == Merged(s.cache[d]) { assert StateOf(s.states, d) == Ready; }
      SameInputs(s.cache, MergedOf(e), job.dependsOn);
    }
  }

  lemma {:induction false} EndsAlong(plan: Plan, run: Runs, s: Sched, order: seq<Kind>, e: map<Kind, Ending>, n: nat)
    requires JobsOk(plan, run, s) && (forall k | k in s.states :: Schedulable(s.states[k]))
    requires Orders(plan.jobs, order) && Solves(plan.jobs, run, e) && n <= |order|
    ensures forall m | 0 <= m < n :: order[m] in e && Ends(s, order[m], e[order[m]])
  {
    hide Ends, Judge, JobOk;
    if n > 0 {
      EndsAlong(plan, run, s, order, e, n - 1);
      assert Placed(plan.jobs, order, n - 1);
      var i :| 0 <= i < |plan.jobs| && plan.jobs[i].kind == order[n - 1] && Satisfied(plan.jobs[i], order[..n - 1]);
      JobEnds(plan, run, s, plan.jobs[i], e);
    }
  }

  lemma EvaluationIsSolution(plan: Plan, run: Runs, order: seq<Kind>)
    requires DistinctKinds(plan.jobs) && Schedules(plan.jobs, order) && forall n | 0 <= n < |order| :: InPlan(plan.jobs, order[n])
    ensures Solves(plan.jobs, run, Evaluate(plan.jobs, run, order))
  {
    EvaluationSolves(plan.jobs, run, order);
  }

  /** Confluence.  In every state that an uncancelled generation of a valid plan can reach, whatever
      the interleaving and however permits come and go, each finished job has exactly the ending
      that the recursion over the graph gives it, the snapshot shows it, and the cache holds exactly
      the patches of the merged jobs.  When the schedule has ended, every job is finished. */
  lemma Confluence(plan: Plan, run: Runs, p: Permits, steps: seq<Step>, order: seq<Kind>)
    requires WellFormed(plan) && Schedules(plan.jobs, order) && (forall n | 0 <= n < |order| :: InPlan(plan.jobs, order[n]))
    requires CanRun(plan, run, Initial(plan, p), steps) && !After(plan, run, Initial(plan, p), steps).cancelled
    ensures var s, e := After(plan, run, Initial(plan, p), steps), Evaluate(plan.jobs, run, order);
            && s.status == s.states && s.states.Keys == e.Keys
            && (forall k | k in e :: Ends(s, k, e[k]))
            && (forall k | k in s.cache :: k in e)
            && (s.pc.Ended? ==> forall k | k in e :: s.status[k] == Shown(e[k]))
  {
    var s, e := After(plan, run, Initial(plan, p), steps), Evaluate(plan.jobs, run, order);
    InitialData(plan, run, p);
    DataOverRuns(plan, run, Initial(plan, p), steps);
    EvaluationIsSolution(plan, run, order);
    EndsAlong(plan, run, s, order, e, |order|);
    EvaluationSolves(plan.jobs, run, order);
    TerminalsFit(plan, s);
    assert s.states.Keys == e.Keys by { SameKinds(plan, s, order, e); }
    if s.pc.Ended? {
      AllTerminal(plan, s);
    }
  }

  lemma SameKinds(plan: Plan, s: Sched, order: seq<Kind>, e: map<Kind, Ending>)
    requires Schedules(plan.jobs, order) && (forall n | 0 <= n < |order| :: InPlan(plan.jobs, order[n]))
    requires (forall k :: k in s.states <==> InPlan(plan.jobs, k)) && forall k :: k in e <==> k in order
    ensures s.states.Keys == e.Keys
  {
    forall k ensures k in s.states <==> k in e { }
  }

  lemma AllTerminal(plan: Plan, s: Sched)
    requires DistinctKinds(plan.jobs) && Tallied(plan, s) && s.pc.Ended?
    ensures forall k | k in s.states :: Terminal(s.states[k])
  {
    OneKindEach(plan.jobs);
    SubsetIsSmall(KindsIn(s.states, TERMINAL), KindSet(plan.jobs));
    forall k | k in s.states ensures Terminal(s.states[k]) { assert k in KindsIn(s.states, TERMINAL); }
  }

  // ----- what a job is given, and when it runs

  /** A runner's input has, for each dependency of its job, the patch that is merged for good. */
  lemma InputsAreMerged(plan: Plan, run: Runs, p: Permits, steps: seq<Step>, job: Job)
    requires WellFormed(plan) && job in plan.jobs
    requires CanRun(plan, run, Initial(plan, p), steps) && !After(plan, run, Initial(plan, p), steps).cancelled
    requires job.kind in After(plan, run, Initial(plan, p), steps).runners
    ensures var s := After(plan, run, Initial(plan, p), steps);
            forall k | k in job.dependsOn ::
              StateOf(s.status, k) == Ready && k in s.cache && k in s.runners[job.kind].input && s.runners[job.kind].input[k] == s.cache[k]
  {
    var s := After(plan, run, Initial(plan, p), steps);
    InitialData(plan, run, p);
    DataOverRuns(plan, run, Initial(plan, p), steps);
    assert JobOk(plan, run, s, job);
    forall k | k in job.dependsOn ensures StateOf(s.status, k) == Ready && k in s.cache && k in s.runners[job.kind].input && s.runners[job.kind].input[k] == s.cache[k] {
      var i :| 0 <= i < |plan.jobs| && plan.jobs[i] == job;
      assert DependenciesOk(plan.jobs, plan.jobs[i]);
      var at := JobAt(plan.jobs, k);
      assert JobOk(plan, run, s, plan.jobs[at]) && StateOf(s.states, k) == Ready;
      assert k in Inputs(s.cache, job.dependsOn);
      assert k in Inputs(s.runners[job.kind].input, job.dependsOn);
    }
  }

  lemma NotYetLaunched(plan: Plan, run: Runs, s: Sched)
    requires Data(plan, run, s) && Enabled(plan, s, Admit)
    ensures plan.jobs[s.pc.next].kind !in s.runners
  {
    assert JobOk(plan, run, s, plan.jobs[s.pc.next]);
  }

  predicate SameRunner(a: map<Kind, Runner>, b: map<Kind, Runner>, k: Kind) {
    k in a ==> k in b && b[k].ticket == a[k].ticket && b[k].input == a[k].input
  }

  lemma RunnerKept(plan: Plan, run: Runs, s: Sched, step: Step, k: Kind)
    requires Enabled(plan, s, step)
    requires step.Admit? ==> plan.jobs[s.pc.next].kind !in s.runners
    ensures SameRunner(s.runners, Next(plan, run, s, step).runners, k)
  {
    hide Possible, Perform, NoneToBlock, ToBlock, Admissible, Published, Outcome, Woken;
  }

  /** A runner, once launched, stays on record with its ticket and its input: no job is launched twice. */
  lemma {:induction false} RunnersStay(plan: Plan, run: Runs, s: Sched, steps: seq<Step>, k: Kind)
    requires DistinctKinds(plan.jobs) && Data(plan, run, s) && CanRun(plan, run, s, steps)
    ensures SameRunner(s.runners, After(plan, run, s, steps).runners, k)
    decreases |steps|
  {
    hide Enabled, Next, Data, DistinctKinds;
    if steps != [] {
      if steps[0].Admit? { NotYetLaunched(plan, run, s); }
      RunnerKept(plan, run, s, steps[0], k);
      DataKeeps(plan, run, s, steps[0]);
      RunnersStay(plan, run, Next(plan, run, s, steps[0]), steps[1..], k);
    }
  }

  /** A blocked job never ran: at no moment of the run was it launched. */
  lemma BlockedNeverRan(plan: Plan, run: Runs, p: Permits, steps: seq<Step>, more: seq<Step>, k: Kind)
    requires WellFormed(plan) && CanRun(plan, run, Initial(plan, p), steps)
    requires CanRun(plan, run, After(plan, run, Initial(plan, p), steps), more)
    requires var s := After(plan, run, After(plan, run, Initial(plan, p), steps), more); !s.cancelled && StateOf(s.states, k) == Blocked
    ensures k !in After(plan, run, Initial(plan, p), steps).runners
  {
    hide Data, CanRun, After, DistinctKinds;
    var s := After(plan, run, Initial(plan, p), steps);
    InitialData(plan, run, p);
    DataOverRuns(plan, run, Initial(plan, p), steps);
    DataOverRuns(plan, run, s, more);
    BlockedHasNoRunner(plan, run, After(plan, run, s, more), k);
    RunnersStay(plan, run, s, more, k);
  }

  lemma BlockedHasNoRunner(plan: Plan, run: Runs, s: Sched, k: Kind)
    requires DistinctKinds(plan.jobs) && Data(plan, run, s) && !s.cancelled && StateOf(s.states, k) == Blocked
    ensures k !in s.runners
  {
    TerminalsFit(plan, s);
    var at := JobAt(plan.jobs, k);
    assert JobOk(plan, run, s, plan.jobs[at]);
  }
}
