/** What every interleaving of a schedule keeps of its jobs, and how it must end. */
module SchedulerData {
  import opened Wrappers
  import opened CatalogTypes
  import opened Permits
  import opened Plans
  import opened JobVerdicts
  import opened Scheduler

  predicate Launched(st: State) {
    st == Loading || st == Ready || st == Failed
  }

  predicate Terminal(st: State) {
    st == Ready || st == Failed || st == Blocked
  }

  predicate Schedulable(st: State) {
    st == Pending || st == Loading || Terminal(st)
  }

  function KindsIn(states: map<Kind, State>, sts: set<State>): set<Kind> {
    set k | k in states && states[k] in sts
  }

  lemma KindsMove(states: map<Kind, State>, k: Kind, st: State, sts: set<State>)
    requires k in states
    ensures |KindsIn(states[k := st], sts)| == |KindsIn(states, sts)| + (if st in sts then 1 else 0) - (if states[k] in sts then 1 else 0)
  {
    assert KindsIn(states[k := st], sts) == if st in sts then KindsIn(states, sts) + {k} else KindsIn(states, sts) - {k};
  }

  const LOADING: set<State> := {Loading}
  const TERMINAL: set<State> := {Ready, Failed, Blocked}

  /** The local counters are exact, and every job is in a state that a job can be in. */
  ghost predicate Tallied(plan: Plan, s: Sched) {
    && s.states.Keys == KindSet(plan.jobs)
    && (forall k | k in s.states :: Schedulable(s.states[k]))
    && (s.pc.Aborted? || s.running == |KindsIn(s.states, LOADING)| <= plan.parallelism)
    && (s.pc.Aborted? || s.terminal == |KindsIn(s.states, TERMINAL)|)
    && (s.pc.Ended? ==> s.terminal == |plan.jobs|)
    && (s.pc.Parked? ==> s.terminal < |plan.jobs|)
  }

  /** While a job is being tried for, it can be admitted. */
  ghost predicate Aimed(plan: Plan, s: Sched, next: nat) {
    next < |plan.jobs| && s.running < plan.parallelism && Admissible(plan.jobs[next], s.states)
  }

  ghost predicate AimedAlways(plan: Plan, s: Sched) {
    s.pc.Trying? || s.pc.RollingBack? || s.pc.Admitting? ==> Aimed(plan, s, s.pc.next)
  }

  lemma {:induction false} OneKindEach(jobs: seq<Job>)
    requires DistinctKinds(jobs)
    ensures |KindSet(jobs)| == |jobs|
  {
    if jobs != [] {
      var front, last := jobs[..|jobs| - 1], jobs[|jobs| - 1];
      OneKindEach(front);
      KindSetIs(front, last.kind);
      assert forall i | 0 <= i < |front| :: front[i].kind != last.kind;
    }
  }

  lemma {:induction false} KindSetIs(jobs: seq<Job>, k: Kind)
    ensures k in KindSet(jobs) <==> InPlan(jobs, k)
  {
    if jobs != [] {
      var front := jobs[..|jobs| - 1];
      KindSetIs(front, k);
      if InPlan(front, k) { var i :| 0 <= i < |front| && front[i].kind == k; assert jobs[i].kind == k; }
      if InPlan(jobs, k) && jobs[|jobs| - 1].kind != k { var i :| 0 <= i < |jobs| && jobs[i].kind == k; assert front[i].kind == k; }
    }
  }

  lemma SubsetIsSmall(a: set<Kind>, b: set<Kind>)
    requires a <= b
    ensures |a| <= |b| && (|a| == |b| ==> a == b)
  {
    assert b == a + (b - a);
    if |a| == |b| { assert b - a == {}; }
  }

  lemma TerminalsFit(plan: Plan, s: Sched)
    requires DistinctKinds(plan.jobs) && Tallied(plan, s)
    ensures |KindsIn(s.states, TERMINAL)| <= |plan.jobs|
    ensures forall k :: k in s.states <==> InPlan(plan.jobs, k)
  {
    OneKindEach(plan.jobs);
    SubsetIsSmall(KindsIn(s.states, TERMINAL), KindSet(plan.jobs));
    forall k ensures k in KindSet(plan.jobs) <==> InPlan(plan.jobs, k) { KindSetIs(plan.jobs, k); }
  }

  // ----- the jobs

  predicate InChannel(results: seq<Result>, k: Kind) {
    exists i | 0 <= i < |results| :: results[i].kind == k
  }

  /** What holds of one job while nothing is cancelled.  A launched job's input has what each of its
      dependencies merged, exactly as the cache has it for good. */
  predicate JobOk(plan: Plan, run: Runs, s: Sched, job: Job) {
    var st := StateOf(s.states, job.kind);
    && (st == Blocked ==> BadDependency(job, s.states))
    && (job.kind in s.runners <==> Launched(st))
    && (job.kind in s.cache <==> st == Ready)
    && (Launched(st) ==> LaunchedOk(run, s, job))
    && (st == Loading ==> (s.runners[job.kind].phase == Delivered <==> InChannel(s.results, job.kind)))
    && (st == Ready || st == Failed ==> s.runners[job.kind].phase == Delivered)
  }

  predicate LaunchedOk(run: Runs, s: Sched, job: Job)
    requires job.kind in s.runners && (job.kind in s.cache <==> StateOf(s.states, job.kind) == Ready)
  {
    && DependenciesReady(job, s.states)
    && Inputs(s.runners[job.kind].input, job.dependsOn) == Inputs(s.cache, job.dependsOn)
    && (StateOf(s.states, job.kind) == Ready ==> run(job.kind, Inputs(s.cache, job.dependsOn)) == Some(s.cache[job.kind]))
    && (StateOf(s.states, job.kind) == Failed ==> run(job.kind, Inputs(s.cache, job.dependsOn)) == None)
  }

  predicate ResultOk(plan: Plan, run: Runs, s: Sched, r: Result) {
    && r.kind in s.runners && StateOf(s.states, r.kind) == Loading
    && r.patch == Outcome(plan, run, r.kind, s.runners[r.kind].input)
  }

  ghost predicate Channel(plan: Plan, run: Runs, s: Sched) {
    && (forall i | 0 <= i < |s.results| :: ResultOk(plan, run, s, s.results[i]))
    && (forall i, j | 0 <= i < j < |s.results| :: s.results[i].kind != s.results[j].kind)
  }

  ghost predicate JobsOk(plan: Plan, run: Runs, s: Sched) {
    forall i | 0 <= i < |plan.jobs| :: JobOk(plan, run, s, plan.jobs[i])
  }

  /** Everything about the jobs.  A cancelled generation keeps the counters only. */
  ghost predicate Data(plan: Plan, run: Runs, s: Sched) {
    && Tallied(plan, s) && AimedAlways(plan, s)
    && (!s.cancelled ==> s.status == s.states && s.cache.Keys <= s.states.Keys && s.runners.Keys <= s.states.Keys
                         && JobsOk(plan, run, s) && Channel(plan, run, s))
  }

  lemma TalliesKeep(plan: Plan, run: Runs, s: Sched, step: Step)
    requires DistinctKinds(plan.jobs) && Data(plan, run, s) && Enabled(plan, s, step)
    ensures Tallied(plan, Next(plan, run, s, step)) && AimedAlways(plan, Next(plan, run, s, step))
  {
    hide Tallied, AimedAlways, JobsOk, JobOk, DistinctKinds, Possible, Perform, IsRelease, ToBlock, NoneToBlock, Admissible, Published, Outcome;
    match step {
      case Block(i) => BlockTallies(plan, run, s, i);
      case Admit => AdmitTallies(plan, run, s);
      case Receive => ReceiveTallies(plan, run, s);
      case _ => QuietTallies(plan, run, s, step);
    }
  }

  lemma BlockTallies(plan: Plan, run: Runs, s: Sched, i: nat)
    requires DistinctKinds(plan.jobs) && Tallied(plan, s) && Enabled(plan, s, Block(i))
    ensures Tallied(plan, Next(plan, run, s, Block(i))) && AimedAlways(plan, Next(plan, run, s, Block(i)))
  {
    hide KindsIn, KindSet, DistinctKinds, BadDependency;
    TerminalsFit(plan, s);
    MoveCounts(plan, s, plan.jobs[i].kind, Blocked);
  }

  lemma AdmitTallies(plan: Plan, run: Runs, s: Sched)
    requires DistinctKinds(plan.jobs) && Tallied(plan, s) && AimedAlways(plan, s) && Enabled(plan, s, Admit)
    ensures Tallied(plan, Next(plan, run, s, Admit)) && AimedAlways(plan, Next(plan, run, s, Admit))
  {
    hide KindsIn, KindSet, DistinctKinds, DependenciesReady;
    TerminalsFit(plan, s);
    MoveCounts(plan, s, plan.jobs[s.pc.next].kind, Loading);
  }

  lemma ReceiveTallies(plan: Plan, run: Runs, s: Sched)
    requires DistinctKinds(plan.jobs) && Tallied(plan, s) && Enabled(plan, s, Receive)
    requires !s.cancelled ==> Channel(plan, run, s) && s.runners.Keys <= s.states.Keys
    ensures Tallied(plan, Next(plan, run, s, Receive)) && AimedAlways(plan, Next(plan, run, s, Receive))
  {
    hide KindsIn, KindSet, DistinctKinds, Outcome;
    if !s.cancelled {
      assert ResultOk(plan, run, s, s.results[0]);
      MoveCounts(plan, s, s.results[0].kind, if s.results[0].patch.Some? then Ready else Failed);
    }
  }

  /** Steps that change no state and no counter. */
  lemma QuietTallied(plan: Plan, run: Runs, s: Sched, step: Step)
    requires DistinctKinds(plan.jobs) && Tallied(plan, s) && Enabled(plan, s, step)
    requires !step.Block? && !step.Admit? && !step.Receive?
    ensures Tallied(plan, Next(plan, run, s, step))
  {
    hide KindsIn, KindSet, DistinctKinds, Possible, Perform, IsRelease, NoneToBlock, Admissible, Outcome, Schedulable, InPlan, Woken;
    TerminalsFit(plan, s);
  }

  lemma QuietTallies(plan: Plan, run: Runs, s: Sched, step: Step)
    requires DistinctKinds(plan.jobs) && Tallied(plan, s) && AimedAlways(plan, s) && Enabled(plan, s, step)
    requires !step.Block? && !step.Admit? && !step.Receive?
    ensures Tallied(plan, Next(plan, run, s, step)) && AimedAlways(plan, Next(plan, run, s, step))
  {
    hide Tallied, DistinctKinds, Possible, Perform, IsRelease, NoneToBlock, Outcome, Woken, Admissible;
    QuietTallied(plan, run, s, step);
  }

  lemma MoveCounts(plan: Plan, s: Sched, k: Kind, st: State)
    requires DistinctKinds(plan.jobs) && Tallied(plan, s) && k in s.states && Schedulable(st)
    ensures var states := s.states[k := st];
            && states.Keys == KindSet(plan.jobs) && (forall j | j in states :: Schedulable(states[j]))
            && |KindsIn(states, LOADING)| == |KindsIn(s.states, LOADING)| + (if st == Loading then 1 else 0) - (if s.states[k] == Loading then 1 else 0)
            && |KindsIn(states, TERMINAL)| == |KindsIn(s.states, TERMINAL)| + (if Terminal(st) then 1 else 0) - (if Terminal(s.states[k]) then 1 else 0)
            && |KindsIn(states, TERMINAL)| <= |plan.jobs|
  {
    KindsMove(s.states, k, st, LOADING);
    KindsMove(s.states, k, st, TERMINAL);
    OneKindEach(plan.jobs);
    SubsetIsSmall(KindsIn(s.states[k := st], TERMINAL), KindSet(plan.jobs));
  }

  // ----- every step keeps the jobs

  /** A pending or running job changing state touches nothing that is known of another job. */
  lemma OtherJobStays(plan: Plan, run: Runs, s: Sched, t: Sched, job: Job, k: Kind)
    requires JobOk(plan, run, s, job) && job.kind != k && k in s.states && (s.states[k] == Pending || s.states[k] == Loading)
    requires t.states.Keys == s.states.Keys && forall j | j in s.states && j != k :: t.states[j] == s.states[j]
    requires (forall j | j in t.cache :: j == k || (j in s.cache && t.cache[j] == s.cache[j])) && s.cache.Keys <= t.cache.Keys
    requires job.kind in t.runners <==> job.kind in s.runners
    requires job.kind in s.runners ==> t.runners[job.kind] == s.runners[job.kind]
    requires InChannel(t.results, job.kind) <==> InChannel(s.results, job.kind)
    ensures JobOk(plan, run, t, job)
  {
    hide InChannel, BadDependency, DependenciesReady, Inputs;
    DependenciesStay(s, t, job, k);
  }

  lemma DependenciesStay(s: Sched, t: Sched, job: Job, k: Kind)
    requires k in s.states && (s.states[k] == Pending || s.states[k] == Loading)
    requires t.states.Keys == s.states.Keys && forall j | j in s.states && j != k :: t.states[j] == s.states[j]
    requires (forall j | j in t.cache :: j == k || (j in s.cache && t.cache[j] == s.cache[j])) && s.cache.Keys <= t.cache.Keys
    ensures BadDependency(job, s.states) ==> BadDependency(job, t.states)
    ensures DependenciesReady(job, s.states) ==> DependenciesReady(job, t.states) && Inputs(t.cache, job.dependsOn) == Inputs(s.cache, job.dependsOn)
  {
    hide Inputs;
    if BadDependency(job, s.states) {
      var d :| d in job.dependsOn && Unsuccessful(StateOf(s.states, d));
      assert Unsuccessful(StateOf(t.states, d));
    }
    if DependenciesReady(job, s.states) {
      forall d | d in job.dependsOn ensures d != k && StateOf(t.states, d) == Ready { assert StateOf(s.states, d) == Ready; }
      SameInputs(s.cache, t.cache, job.dependsOn);
    }
  }

  lemma SameInputs(a: map<Kind, Patch>, b: map<Kind, Patch>, deps: seq<Kind>)
    requires forall d | d in deps :: (d in a <==> d in b) && (d in a ==> a[d] == b[d])
    ensures Inputs(a, deps) == Inputs(b, deps)
  {
  }

  lemma BlockKeeps(plan: Plan, run: Runs, s: Sched, i: nat)
    requires DistinctKinds(plan.jobs) && Data(plan, run, s) && Enabled(plan, s, Block(i)) && !s.cancelled
    ensures JobsOk(plan, run, Next(plan, run, s, Block(i))) && Channel(plan, run, Next(plan, run, s, Block(i)))
  {
    var k, t := plan.jobs[i].kind, Next(plan, run, s, Block(i));
    assert JobOk(plan, run, s, plan.jobs[i]);
    forall j | 0 <= j < |plan.jobs| ensures JobOk(plan, run, t, plan.jobs[j]) {
      if j != i {
        assert plan.jobs[j].kind != k;
        OtherJobStays(plan, run, s, t, plan.jobs[j], k);
      }
    }
    forall j | 0 <= j < |t.results| ensures ResultOk(plan, run, t, t.results[j]) { assert ResultOk(plan, run, s, s.results[j]); }
  }

  lemma AdmitKeeps(plan: Plan, run: Runs, s: Sched)
    requires DistinctKinds(plan.jobs) && Data(plan, run, s) && Enabled(plan, s, Admit)
    ensures JobsOk(plan, run, Next(plan, run, s, Admit)) && Channel(plan, run, Next(plan, run, s, Admit))
  {
    var job, t := plan.jobs[s.pc.next], Next(plan, run, s, Admit);
    assert JobOk(plan, run, s, job) && Aimed(plan, s, s.pc.next);
    forall j | 0 <= j < |plan.jobs| ensures JobOk(plan, run, t, plan.jobs[j]) {
      if j != s.pc.next {
        assert plan.jobs[j].kind != job.kind;
        OtherJobStays(plan, run, s, t, plan.jobs[j], job.kind);
      } else {
        NotInChannel(plan, run, s, job.kind);
      }
    }
    forall j | 0 <= j < |t.results| ensures ResultOk(plan, run, t, t.results[j]) { assert ResultOk(plan, run, s, s.results[j]); }
  }

  lemma NotInChannel(plan: Plan, run: Runs, s: Sched, k: Kind)
    requires Channel(plan, run, s) && StateOf(s.states, k) != Loading
    ensures !InChannel(s.results, k)
  {
    forall i | 0 <= i < |s.results| ensures s.results[i].kind != k { assert ResultOk(plan, run, s, s.results[i]); }
  }

  lemma ReceiveKeeps(plan: Plan, run: Runs, s: Sched)
    requires DistinctKinds(plan.jobs) && Data(plan, run, s) && Enabled(plan, s, Receive) && !s.cancelled
    ensures JobsOk(plan, run, Next(plan, run, s, Receive)) && Channel(plan, run, Next(plan, run, s, Receive))
  {
    hide Tallied, DistinctKinds, Inputs, Outcome, InPlan;
    var r, t := s.results[0], Next(plan, run, s, Receive);
    assert ResultOk(plan, run, s, r);
    forall j | 0 <= j < |plan.jobs| ensures JobOk(plan, run, t, plan.jobs[j]) {
      var job := plan.jobs[j];
      assert JobOk(plan, run, s, job);
      if job.kind != r.kind {
        RestOfChannel(s.results, job.kind);
        OtherJobStays(plan, run, s, t, job, r.kind);
      } else {
        ReceivedJob(plan, run, s, j);
      }
    }
    forall i | 0 <= i < |t.results| ensures ResultOk(plan, run, t, t.results[i]) { assert ResultOk(plan, run, s, s.results[i + 1]); }
  }

  /** The received job itself. */
  lemma ReceivedJob(plan: Plan, run: Runs, s: Sched, j: nat)
    requires DistinctKinds(plan.jobs) && j < |plan.jobs| && JobOk(plan, run, s, plan.jobs[j])
    requires Enabled(plan, s, Receive) && !s.cancelled && s.results[0].kind == plan.jobs[j].kind && ResultOk(plan, run, s, s.results[0])
    requires plan.jobs[j].kind in s.states
    ensures JobOk(plan, run, Next(plan, run, s, Receive), plan.jobs[j])
  {
    hide DistinctKinds, InChannel, BadDependency;
    var job, t := plan.jobs[j], Next(plan, run, s, Receive);
    OneJob(plan.jobs, j);
    SomeInChannel(s.results, 0);
    DependenciesStay(s, t, job, job.kind);
  }

  lemma RestOfChannel(results: seq<Result>, k: Kind)
    requires results != [] && results[0].kind != k
    ensures InChannel(results[1..], k) <==> InChannel(results, k)
  {
    if InChannel(results, k) {
      var i :| 0 <= i < |results| && results[i].kind == k;
      assert results[1..][i - 1] == results[i];
    }
  }

  lemma StartKeeps(plan: Plan, run: Runs, s: Sched, k: Kind)
    requires JobsOk(plan, run, s) && Channel(plan, run, s) && Enabled(plan, s, StartJob(k))
    requires !s.cancelled && DistinctKinds(plan.jobs) && InPlan(plan.jobs, k)
    ensures JobsOk(plan, run, Next(plan, run, s, StartJob(k))) && Channel(plan, run, Next(plan, run, s, StartJob(k)))
  {
    hide InChannel, Inputs, BadDependency, DependenciesReady;
    var t := Next(plan, run, s, StartJob(k));
    forall j | 0 <= j < |plan.jobs| ensures JobOk(plan, run, t, plan.jobs[j]) { assert JobOk(plan, run, s, plan.jobs[j]); }
    forall i | 0 <= i < |s.results| ensures ResultOk(plan, run, t, s.results[i]) { assert ResultOk(plan, run, s, s.results[i]); }
  }

  lemma DeliverKeeps(plan: Plan, run: Runs, s: Sched, k: Kind)
    requires JobsOk(plan, run, s) && Channel(plan, run, s) && Enabled(plan, s, Deliver(k))
    requires !s.cancelled && DistinctKinds(plan.jobs) && InPlan(plan.jobs, k)
    ensures JobsOk(plan, run, Next(plan, run, s, Deliver(k))) && Channel(plan, run, Next(plan, run, s, Deliver(k)))
  {
    hide InChannel, Inputs, BadDependency, DependenciesReady, InPlan, Outcome;
    var t := Next(plan, run, s, Deliver(k));
    var r := Result(k, Outcome(plan, run, k, s.runners[k].input));
    var at := JobAt(plan.jobs, k);
    assert JobOk(plan, run, s, plan.jobs[at]);
    forall j | 0 <= j < |plan.jobs| ensures JobOk(plan, run, t, plan.jobs[j]) {
      assert JobOk(plan, run, s, plan.jobs[j]);
      LongerChannel(s.results, r, plan.jobs[j].kind);
    }
    forall i | 0 <= i < |s.results| ensures ResultOk(plan, run, t, s.results[i]) && s.results[i].kind != k {
      assert ResultOk(plan, run, s, s.results[i]);
      SomeInChannel(s.results, i);
    }
  }

  lemma JobAt(jobs: seq<Job>, k: Kind) returns (i: nat)
    requires InPlan(jobs, k)
    ensures i < |jobs| && jobs[i].kind == k
  {
    i :| 0 <= i < |jobs| && jobs[i].kind == k;
  }

  lemma SomeInChannel(results: seq<Result>, i: nat)
    requires i < |results|
    ensures InChannel(results, results[i].kind)
  {
  }

  lemma LongerChannel(results: seq<Result>, r: Result, k: Kind)
    ensures InChannel(results + [r], k) <==> InChannel(results, k) || r.kind == k
  {
    if InChannel(results, k) {
      var i :| 0 <= i < |results| && results[i].kind == k;
      assert (results + [r])[i] == results[i];
    }
    assert (results + [r])[|results|] == r;
  }

  lemma OtherStepsKeep(plan: Plan, run: Runs, s: Sched, t: Sched)
    requires JobsOk(plan, run, s) && Channel(plan, run, s)
    requires t.states == s.states && t.cache == s.cache && t.runners == s.runners && t.results == s.results
    ensures JobsOk(plan, run, t) && Channel(plan, run, t)
  {
    forall j | 0 <= j < |plan.jobs| ensures JobOk(plan, run, t, plan.jobs[j]) { assert JobOk(plan, run, s, plan.jobs[j]); }
    forall i | 0 <= i < |t.results| ensures ResultOk(plan, run, t, t.results[i]) { assert ResultOk(plan, run, s, s.results[i]); }
  }

  /** Published statuses follow the states; merged patches and runners belong to known jobs. */
  lemma DomainsKeep(plan: Plan, run: Runs, s: Sched, step: Step)
    requires DistinctKinds(plan.jobs) && Data(plan, run, s) && Enabled(plan, s, step)
    requires !Next(plan, run, s, step).cancelled
    ensures var t := Next(plan, run, s, step);
            t.status == t.states && t.cache.Keys <= t.states.Keys && t.runners.Keys <= t.states.Keys
  {
    hide Tallied, AimedAlways, JobsOk, Channel, Possible, Perform, IsRelease, DistinctKinds, NoneToBlock, Admissible, Outcome;
    ResultsAreKnown(plan, run, s);
  }

  lemma ResultsAreKnown(plan: Plan, run: Runs, s: Sched)
    requires Channel(plan, run, s)
    ensures s.results != [] ==> s.results[0].kind in s.states
  {
    assert s.results != [] ==> ResultOk(plan, run, s, s.results[0]);
  }

  predicate MovesNoJob(step: Step) {
    !step.Block? && !step.Admit? && !step.Receive? && !step.StartJob? && !step.Deliver? && !step.SkipJob?
  }

  lemma QuietSteps(plan: Plan, run: Runs, s: Sched, step: Step)
    requires Enabled(plan, s, step) && MovesNoJob(step)
    ensures var t := Next(plan, run, s, step); t.states == s.states && t.cache == s.cache && t.runners == s.runners && t.results == s.results
  {
    hide Enabled, Possible, Perform, Received, Admission, SetPhase, Outcome, Published;
  }

  /** A step that leaves the generation uncancelled found it uncancelled; a job that moves is planned. */
  lemma Uncancelled(plan: Plan, run: Runs, s: Sched, step: Step)
    requires DistinctKinds(plan.jobs) && Data(plan, run, s) && Enabled(plan, s, step)
    requires !Next(plan, run, s, step).cancelled
    ensures !s.cancelled && !step.SkipJob? && JobsOk(plan, run, s) && Channel(plan, run, s)
    ensures step.StartJob? || step.Deliver? ==> InPlan(plan.jobs, step.kind)
  {
    hide AimedAlways, JobsOk, Channel, DistinctKinds, Possible, Perform, IsRelease, NoneToBlock, Admissible, Outcome, InPlan;
    TerminalsFit(plan, s);
  }

  lemma JobsKeep(plan: Plan, run: Runs, s: Sched, step: Step)
    requires DistinctKinds(plan.jobs) && Data(plan, run, s) && Enabled(plan, s, step)
    requires !Next(plan, run, s, step).cancelled
    ensures JobsOk(plan, run, Next(plan, run, s, step)) && Channel(plan, run, Next(plan, run, s, step))
  {
    hide Data, JobsOk, Channel, Next, Enabled, DistinctKinds;
    Uncancelled(plan, run, s, step);
    match step {
      case Block(i) => BlockKeeps(plan, run, s, i);
      case Admit => AdmitKeeps(plan, run, s);
      case Receive => ReceiveKeeps(plan, run, s);
      case StartJob(k) => StartKeeps(plan, run, s, k);
      case Deliver(k) => DeliverKeeps(plan, run, s, k);
      case SkipJob(k) => assert false;
      case _ =>
        QuietSteps(plan, run, s, step);
        OtherStepsKeep(plan, run, s, Next(plan, run, s, step));
    }
  }

  lemma DataKeeps(plan: Plan, run: Runs, s: Sched, step: Step)
    requires DistinctKinds(plan.jobs) && Data(plan, run, s) && Enabled(plan, s, step)
    ensures Data(plan, run, Next(plan, run, s, step))
  {
    hide Tallied, AimedAlways, JobsOk, Channel, Enabled, Next, DistinctKinds;
    TalliesKeep(plan, run, s, step);
    if !Next(plan, run, s, step).cancelled {
      DomainsKeep(plan, run, s, step);
      JobsKeep(plan, run, s, step);
    }
  }
}
