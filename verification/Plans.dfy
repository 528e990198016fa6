/** Metadata plans and validateMetadataPlan: a plan is accepted exactly when it can be scheduled. */
module Plans {
  import opened Wrappers
  import opened CatalogTypes

  /** catalog.MetadataJob; `hasRun` says whether its Run function is given. */
  datatype Job = Job(kind: Kind, dependsOn: seq<Kind>, hasRun: bool)

  datatype Plan = Plan(parallelism: int, jobs: seq<Job>)

  datatype PlanError =
    | BadParallelism | UnknownKind(kind: Kind) | DuplicateKind(kind: Kind) | NilRun(kind: Kind)
    | MissingDependency(kind: Kind) | SelfDependency(kind: Kind) | DuplicateDependency(kind: Kind)
    | DependencyCycle

  datatype Verdict = Accepted | Rejected(error: PlanError)

  predicate DistinctKinds(jobs: seq<Job>) {
    forall i, j | 0 <= i < j < |jobs| :: jobs[i].kind != jobs[j].kind
  }

  predicate InPlan(jobs: seq<Job>, k: Kind) {
    exists i | 0 <= i < |jobs| :: jobs[i].kind == k
  }

  predicate DependenciesOk(jobs: seq<Job>, job: Job) {
    && (forall k | k in job.dependsOn :: InPlan(jobs, k) && k != job.kind)
    && Distinct(job.dependsOn)
  }

  /** Everything but acyclicity. */
  predicate WellFormed(p: Plan) {
    && 1 <= p.parallelism <= 3
    && DistinctKinds(p.jobs)
    && (forall i | 0 <= i < |p.jobs| :: KnownKind(p.jobs[i].kind) && p.jobs[i].hasRun && DependenciesOk(p.jobs, p.jobs[i]))
  }

  /** All that a job waits for is among `ks`. */
  predicate Satisfied(job: Job, ks: seq<Kind>) {
    forall k | k in job.dependsOn :: k in ks
  }

  /** `order` lists jobs one after the other, each after all that it depends on. */
  predicate Orders(jobs: seq<Job>, order: seq<Kind>) {
    && Distinct(order)
    && (forall n | 0 <= n < |order| :: Placed(jobs, order, n))
  }

  predicate Placed(jobs: seq<Job>, order: seq<Kind>, n: nat)
    requires n < |order|
  {
    exists i | 0 <= i < |jobs| :: jobs[i].kind == order[n] && Satisfied(jobs[i], order[..n])
  }

  /** A topological order of all the jobs. */
  predicate Schedules(jobs: seq<Job>, order: seq<Kind>) {
    Orders(jobs, order) && forall i | 0 <= i < |jobs| :: jobs[i].kind in order
  }

  ghost predicate ValidPlan(p: Plan) {
    WellFormed(p) && exists order: seq<Kind> :: Schedules(p.jobs, order)
  }

  // ----- what a rejection says

  predicate KindsFine(jobs: seq<Job>) {
    DistinctKinds(jobs) && forall i | 0 <= i < |jobs| :: KnownKind(jobs[i].kind) && jobs[i].hasRun
  }

  /** The first job that is wrong by itself, and how: unknown before named twice before without a Run. */
  predicate KindFault(jobs: seq<Job>, i: nat, e: PlanError) {
    && i < |jobs| && KindsFine(jobs[..i])
    && match e
       case UnknownKind(k) => k == jobs[i].kind && !KnownKind(k)
       case DuplicateKind(k) => k == jobs[i].kind && KnownKind(k) && InPlan(jobs[..i], k)
       case NilRun(k) => k == jobs[i].kind && KnownKind(k) && !InPlan(jobs[..i], k) && !jobs[i].hasRun
       case _ => false
  }

  /** The first dependency of a job that is wrong, and how. */
  predicate DependencyFault(jobs: seq<Job>, job: Job, d: nat, e: PlanError) {
    && d < |job.dependsOn| && DependenciesOk(jobs, job.(dependsOn := job.dependsOn[..d]))
    && match e
       case MissingDependency(k) => k == job.dependsOn[d] && !InPlan(jobs, k)
       case SelfDependency(k) => k == job.dependsOn[d] == job.kind && InPlan(jobs, k)
       case DuplicateDependency(k) => k == job.dependsOn[d] != job.kind && InPlan(jobs, k) && k in job.dependsOn[..d]
       case _ => false
  }

  /** The first job whose dependencies are wrong, and how the first wrong one is. */
  ghost predicate JobFault(jobs: seq<Job>, i: nat, e: PlanError) {
    && i < |jobs| && KindsFine(jobs) && (forall j | 0 <= j < i :: DependenciesOk(jobs, jobs[j]))
    && exists d: nat :: DependencyFault(jobs, jobs[i], d, e)
  }

  /** The error names the first thing that is wrong with a plan. */
  ghost predicate Describes(p: Plan, e: PlanError) {
    match e
    case BadParallelism => p.parallelism < 1 || p.parallelism > 3
    case DependencyCycle => WellFormed(p) && !exists order: seq<Kind> :: Schedules(p.jobs, order)
    case _ => 1 <= p.parallelism <= 3 && ((exists i: nat :: KindFault(p.jobs, i, e)) || exists i: nat :: JobFault(p.jobs, i, e))
  }

  // ----- the counters of Kahn's algorithm

  /** How many of `deps` are not in `finished`. */
  function Unfinished(deps: seq<Kind>, finished: seq<Kind>): nat {
    if deps == [] then 0 else Unfinished(deps[..|deps| - 1], finished) + if deps[|deps| - 1] in finished then 0 else 1
  }

  lemma {:induction false} NoneUnfinished(deps: seq<Kind>, finished: seq<Kind>)
    ensures Unfinished(deps, finished) == 0 <==> forall k | k in deps :: k in finished
  {
    if deps != [] {
      NoneUnfinished(deps[..|deps| - 1], finished);
      assert forall k :: k in deps <==> k in deps[..|deps| - 1] || k == deps[|deps| - 1];
    }
  }

  lemma {:induction false} OneMoreFinished(deps: seq<Kind>, finished: seq<Kind>, k: Kind)
    requires Distinct(deps) && k !in finished
    ensures Unfinished(deps, finished + [k]) == Unfinished(deps, finished) - if k in deps then 1 else 0
  {
    if deps != [] {
      var front := deps[..|deps| - 1];
      OneMoreFinished(front, finished, k);
      assert deps[|deps| - 1] !in front;
      assert deps == front + [deps[|deps| - 1]];
    }
  }

  /** The counter of a job: -1 once it is finished, else the number of dependencies it waits for. */
  predicate Counted(job: Job, remaining: map<Kind, int>, finished: seq<Kind>) {
    job.kind in remaining && remaining[job.kind] == if job.kind in finished then -1 else Unfinished(job.dependsOn, finished)
  }

  predicate AllCounted(jobs: seq<Job>, remaining: map<Kind, int>, finished: seq<Kind>) {
    forall i | 0 <= i < |jobs| :: Counted(jobs[i], remaining, finished)
  }

  // ----- orders

  lemma {:induction false} OrderGrows(jobs: seq<Job>, order: seq<Kind>, i: nat)
    requires Orders(jobs, order) && i < |jobs| && jobs[i].kind !in order && Satisfied(jobs[i], order)
    ensures Orders(jobs, order + [jobs[i].kind])
  {
    var next := order + [jobs[i].kind];
    forall n | 0 <= n < |next| ensures Placed(jobs, next, n) {
      if n < |order| {
        assert Placed(jobs, order, n) && next[..n] == order[..n];
      } else {
        assert next[..n] == order;
      }
    }
  }

  /** If every job left over still waits for something, no order of all the jobs exists. */
  lemma {:induction false} NoOrderLeft(jobs: seq<Job>, finished: seq<Kind>, order: seq<Kind>, n: nat)
    requires DistinctKinds(jobs) && Schedules(jobs, order) && n <= |order|
    requires forall i | 0 <= i < |jobs| && jobs[i].kind !in finished :: !Satisfied(jobs[i], finished)
    ensures forall m | 0 <= m < n :: order[m] in finished
  {
    if n > 0 {
      NoOrderLeft(jobs, finished, order, n - 1);
      assert Placed(jobs, order, n - 1);
    }
  }

  lemma OrderIsShort(jobs: seq<Job>, order: seq<Kind>)
    requires Orders(jobs, order)
    ensures |order| <= |jobs|
  {
    KindsAreFew(jobs);
    forall n | 0 <= n < |order| ensures order[n] in KindSet(jobs) { assert Placed(jobs, order, n); }
    OnceFits(order, KindSet(jobs));
  }

  function KindSet(jobs: seq<Job>): set<Kind> {
    if jobs == [] then {} else KindSet(jobs[..|jobs| - 1]) + {jobs[|jobs| - 1].kind}
  }

  lemma {:induction false} KindsAreFew(jobs: seq<Job>)
    ensures |KindSet(jobs)| <= |jobs| && forall i | 0 <= i < |jobs| :: jobs[i].kind in KindSet(jobs)
  {
    if jobs != [] {
      KindsAreFew(jobs[..|jobs| - 1]);
    }
  }

  lemma {:induction false} OnceFits(order: seq<Kind>, kinds: set<Kind>)
    requires Distinct(order) && forall n | 0 <= n < |order| :: order[n] in kinds
    ensures |order| <= |kinds|
  {
    if order != [] {
      OnceFits(order[..|order| - 1], kinds - {order[|order| - 1]});
    }
  }

  // ----- the checks

  method ValidateKinds(jobs: seq<Job>) returns (v: Verdict)
    ensures v.Accepted? <==> KindsFine(jobs)
    ensures v.Rejected? ==> exists i: nat :: KindFault(jobs, i, v.error)
  {
    var indices: map<Kind, nat> := map[];
    for i := 0 to |jobs|
      invariant forall k :: k in indices <==> InPlan(jobs[..i], k)
      invariant DistinctKinds(jobs[..i])
      invariant forall j | 0 <= j < i :: KnownKind(jobs[j].kind) && jobs[j].hasRun
    {
      var job := jobs[i];
      if !KnownKind(job.kind) {
        assert KindFault(jobs, i, UnknownKind(job.kind));
        return Rejected(UnknownKind(job.kind));
      }
      if job.kind in indices {
        assert KindFault(jobs, i, DuplicateKind(job.kind));
        var j :| 0 <= j < i && jobs[..i][j].kind == job.kind;
        assert jobs[j].kind == jobs[i].kind;
        return Rejected(DuplicateKind(job.kind));
      }
      if !job.hasRun {
        assert KindFault(jobs, i, NilRun(job.kind));
        return Rejected(NilRun(job.kind));
      }
      indices := indices[job.kind := i];
      forall k ensures k in indices <==> InPlan(jobs[..i + 1], k) {
        if InPlan(jobs[..i], k) {
          var j :| 0 <= j < i && jobs[..i][j].kind == k;
          assert jobs[..i + 1][j].kind == k;
        }
        assert jobs[..i + 1][i].kind == job.kind;
      }
      forall j | 0 <= j < i ensures jobs[j].kind != job.kind { assert jobs[..i][j].kind == jobs[j].kind; }
    }
    assert jobs[..|jobs|] == jobs;
    return Accepted;
  }

  method ValidateDependencies(jobs: seq<Job>, job: Job) returns (v: Verdict)
    ensures v.Accepted? <==> DependenciesOk(jobs, job)
    ensures v.Rejected? ==> exists d: nat :: DependencyFault(jobs, job, d, v.error)
  {
    var seen: set<Kind> := {};
    for i := 0 to |job.dependsOn|
      invariant forall k :: k in seen <==> k in job.dependsOn[..i]
      invariant Distinct(job.dependsOn[..i])
      invariant forall j | 0 <= j < i :: InPlan(jobs, job.dependsOn[j]) && job.dependsOn[j] != job.kind
    {
      var dependency := job.dependsOn[i];
      if !InPlan(jobs, dependency) {
        assert DependencyFault(jobs, job, i, MissingDependency(dependency));
        return Rejected(MissingDependency(dependency));
      }
      if dependency == job.kind {
        assert DependencyFault(jobs, job, i, SelfDependency(dependency));
        return Rejected(SelfDependency(job.kind));
      }
      if dependency in seen {
        assert DependencyFault(jobs, job, i, DuplicateDependency(dependency));
        var j :| 0 <= j < i && job.dependsOn[..i][j] == dependency;
        assert job.dependsOn[j] == job.dependsOn[i];
        return Rejected(DuplicateDependency(dependency));
      }
      seen := seen + {dependency};
      assert job.dependsOn[..i + 1] == job.dependsOn[..i] + [dependency];
    }
    assert job.dependsOn[..|job.dependsOn|] == job.dependsOn;
    return Accepted;
  }

  // ----- Kahn's algorithm

  /** One finished job is counted off every counter of a job that waits for it. */
  method CountOff(jobs: seq<Job>, remaining: map<Kind, int>, job: Job, ghost finished: seq<Kind>) returns (r: map<Kind, int>)
    requires DistinctKinds(jobs) && (forall i | 0 <= i < |jobs| :: Distinct(jobs[i].dependsOn))
    requires job in jobs && job.kind !in finished && job.kind !in job.dependsOn
    requires (forall i | 0 <= i < |jobs| && jobs[i].kind != job.kind :: Counted(jobs[i], remaining, finished))
    requires job.kind in remaining && remaining[job.kind] == -1
    requires forall i | 0 <= i < |jobs| && jobs[i].kind in finished :: job.kind !in jobs[i].dependsOn
    ensures AllCounted(jobs, r, finished + [job.kind])
  {
    r := remaining;
    var at :| 0 <= at < |jobs| && jobs[at] == job;
    for i := 0 to |jobs|
      invariant forall j | 0 <= j < i :: Counted(jobs[j], r, finished + [job.kind])
      invariant forall j | i <= j < |jobs| && jobs[j].kind != job.kind :: Counted(jobs[j], r, finished)
      invariant job.kind in r && r[job.kind] == -1
    {
      var dependent := jobs[i];
      r := CountOffOne(dependent, r, job.kind, finished);
    }
  }

  method CountOffOne(dependent: Job, remaining: map<Kind, int>, kind: Kind, ghost finished: seq<Kind>) returns (r: map<Kind, int>)
    requires Distinct(dependent.dependsOn) && kind !in finished && dependent.kind in remaining
    requires dependent.kind == kind ==> remaining[kind] == -1
    requires dependent.kind != kind ==> Counted(dependent, remaining, finished)
    requires dependent.kind == kind || dependent.kind in finished ==> kind !in dependent.dependsOn
    ensures Counted(dependent, r, finished + [kind])
    ensures r.Keys == remaining.Keys && forall k | k in r && k != dependent.kind :: r[k] == remaining[k]
  {
    r := remaining;
    var deps := dependent.dependsOn;
    OneMoreFinished(deps, finished, kind);
    ghost var start := remaining[dependent.kind];
    for j := 0 to |deps|
      invariant r.Keys == remaining.Keys && forall k | k in r && k != dependent.kind :: r[k] == remaining[k]
      invariant r[dependent.kind] == start - if kind in deps[..j] then 1 else 0
    {
      assert deps[..j + 1] == deps[..j] + [deps[j]];
      assert deps[j] !in deps[..j];
      if deps[j] == kind && r[dependent.kind] > 0 {
        r := r[dependent.kind := r[dependent.kind] - 1];
      }
    }
    assert deps[..|deps|] == deps;
  }

  predicate KahnInv(jobs: seq<Job>, remaining: map<Kind, int>, finished: seq<Kind>) {
    Orders(jobs, finished) && AllCounted(jobs, remaining, finished)
  }

  /** One pass over the jobs: finish every job that has become ready. */
  method Pass(jobs: seq<Job>, remaining: map<Kind, int>, ghost finished: seq<Kind>, done: nat)
    returns (r: map<Kind, int>, ghost after: seq<Kind>, next: nat, progress: bool)
    requires DistinctKinds(jobs) && forall i | 0 <= i < |jobs| :: DependenciesOk(jobs, jobs[i])
    requires KahnInv(jobs, remaining, finished) && done == |finished|
    ensures KahnInv(jobs, r, after) && next == |after|
    ensures finished <= after && (progress <==> |finished| < |after|)
    ensures !progress ==> forall i | 0 <= i < |jobs| && jobs[i].kind !in finished :: !Satisfied(jobs[i], finished)
  {
    r, after, next, progress := remaining, finished, done, false;
    for i := 0 to |jobs|
      invariant KahnInv(jobs, r, after) && next == |after|
      invariant finished <= after && (progress <==> |finished| < |after|)
      invariant !progress ==> forall j | 0 <= j < i && jobs[j].kind !in finished :: !Satisfied(jobs[j], finished)
    {
      var job := jobs[i];
      assert Counted(job, r, after);
      NoneUnfinished(job.dependsOn, after);
      if r[job.kind] != 0 {
        continue;
      }
      FinishedNeedNot(jobs, after, job);
      OrderGrows(jobs, after, i);
      r := CountOff(jobs, r[job.kind := -1], job, after);
      after, next, progress := after + [job.kind], next + 1, true;
    }
  }

  /** No finished job depends on one that is not. */
  lemma FinishedNeedNot(jobs: seq<Job>, finished: seq<Kind>, job: Job)
    requires DistinctKinds(jobs) && Orders(jobs, finished) && job.kind !in finished
    ensures forall i | 0 <= i < |jobs| && jobs[i].kind in finished :: job.kind !in jobs[i].dependsOn
  {
    forall i | 0 <= i < |jobs| && jobs[i].kind in finished ensures job.kind !in jobs[i].dependsOn {
      var n :| 0 <= n < |finished| && finished[n] == jobs[i].kind;
      assert Placed(jobs, finished, n);
    }
  }

  /** The loop ends with an order of all the jobs, or stops when there is none. */
  method Kahn(jobs: seq<Job>) returns (acyclic: bool)
    requires DistinctKinds(jobs) && forall i | 0 <= i < |jobs| :: DependenciesOk(jobs, jobs[i])
    ensures acyclic <==> exists order: seq<Kind> :: Schedules(jobs, order)
  {
    var remaining := StartCounters(jobs);
    var done := 0;
    ghost var finished: seq<Kind> := [];
    while done < |jobs|
      invariant KahnInv(jobs, remaining, finished) && done == |finished|
      decreases |jobs| - done
    {
      ghost var after;
      var next, progress;
      remaining, after, next, progress := Pass(jobs, remaining, finished, done);
      if !progress {
        if order: seq<Kind> :| Schedules(jobs, order) {
          NoOrderLeft(jobs, finished, order, |order|);
          AllFinished(jobs, finished);
        }
        return false;
      }
      finished, done := after, next;
      OrderIsShort(jobs, finished);
    }
    OrderIsFull(jobs, finished);
    assert Schedules(jobs, finished);
    return true;
  }

  method StartCounters(jobs: seq<Job>) returns (remaining: map<Kind, int>)
    requires DistinctKinds(jobs)
    ensures AllCounted(jobs, remaining, [])
  {
    remaining := map[];
    for i := 0 to |jobs|
      invariant forall j | 0 <= j < i :: Counted(jobs[j], remaining, [])
    {
      AllUnfinished(jobs[i].dependsOn);
      remaining := remaining[jobs[i].kind := |jobs[i].dependsOn|];
    }
  }

  lemma AllUnfinished(deps: seq<Kind>)
    ensures Unfinished(deps, []) == |deps|
  {
  }

  /** Fewer finished than jobs leaves a job unfinished. */
  lemma AllFinished(jobs: seq<Job>, finished: seq<Kind>)
    requires DistinctKinds(jobs) && Distinct(finished) && forall i | 0 <= i < |jobs| :: jobs[i].kind in finished
    ensures |jobs| <= |finished|
  {
    var kinds := seq(|jobs|, i requires 0 <= i < |jobs| => jobs[i].kind);
    OnceFits(kinds, Members(finished));
    MembersAreFew(finished);
  }

  function Members(ks: seq<Kind>): set<Kind> {
    set k | k in ks
  }

  lemma {:induction false} MembersAreFew(ks: seq<Kind>)
    ensures |Members(ks)| <= |ks|
  {
    if ks != [] {
      MembersAreFew(ks[..|ks| - 1]);
      assert Members(ks) == Members(ks[..|ks| - 1]) + {ks[|ks| - 1]};
    }
  }

  /** As many finished as there are jobs is all of them. */
  lemma OrderIsFull(jobs: seq<Job>, finished: seq<Kind>)
    requires DistinctKinds(jobs) && Orders(jobs, finished) && |jobs| <= |finished|
    ensures Schedules(jobs, finished)
  {
    KindsAreFew(jobs);
    forall n | 0 <= n < |finished| ensures finished[n] in KindSet(jobs) { assert Placed(jobs, finished, n); }
    forall i | 0 <= i < |jobs| ensures jobs[i].kind in finished {
      if jobs[i].kind !in finished {
        OnceFits(finished + [jobs[i].kind], KindSet(jobs));
      }
    }
  }

  /** validateMetadataPlan accepts exactly the plans that can be scheduled; of any other it names the first
      thing that is wrong, and calls it cyclic only when nothing else is. */
  method ValidatePlan(p: Plan) returns (v: Verdict)
    ensures v.Accepted? <==> ValidPlan(p)
    ensures v.Rejected? ==> Describes(p, v.error)
  {
    if p.parallelism < 1 || p.parallelism > 3 {
      return Rejected(BadParallelism);
    }
    v := ValidateKinds(p.jobs);
    if v.Rejected? {
      return;
    }
    for i := 0 to |p.jobs|
      invariant forall j | 0 <= j < i :: DependenciesOk(p.jobs, p.jobs[j])
    {
      v := ValidateDependencies(p.jobs, p.jobs[i]);
      if v.Rejected? {
        assert JobFault(p.jobs, i, v.error);
        return;
      }
    }
    var acyclic := Kahn(p.jobs);
    return if acyclic then Accepted else Rejected(DependencyCycle);
  }
}
