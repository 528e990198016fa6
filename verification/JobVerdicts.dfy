/** How the jobs of a plan must end: the recursion over the dependency graph. */
module JobVerdicts {
  import opened Wrappers
  import opened CatalogTypes
  import opened Plans

  /** How one job ends: merged, failed, or never run because something it depends on did not succeed. */
  datatype Ending = Merged(patch: Patch) | Failure | Stuck

  /** A job's Run together with the merge of its result, as a function of what its dependencies
      merged.  None is a failed Run or a refused result. */
  type Runs = (Kind, map<Kind, Patch>) -> Option<Patch>

  /** The part of a cache that a job depends on. */
  function Inputs(cache: map<Kind, Patch>, deps: seq<Kind>): map<Kind, Patch> {
    map k | k in deps && k in cache :: cache[k]
  }

  function MergedOf(v: map<Kind, Ending>): map<Kind, Patch> {
    map k | k in v && v[k].Merged? :: v[k].patch
  }

  predicate SomeUnmerged(job: Job, v: map<Kind, Ending>) {
    exists k | k in job.dependsOn :: k in v && !v[k].Merged?
  }

  function Judge(job: Job, run: Runs, v: map<Kind, Ending>): Ending {
    if SomeUnmerged(job, v) then Stuck else
      var r := run(job.kind, Inputs(MergedOf(v), job.dependsOn));
      if r.Some? then Merged(r.value) else Failure
  }

  /** Every job ends as its dependencies' endings demand. */
  predicate Solves(jobs: seq<Job>, run: Runs, v: map<Kind, Ending>) {
    && (forall i | 0 <= i < |jobs| :: jobs[i].kind in v && v[jobs[i].kind] == Judge(jobs[i], run, v))
    && (forall k | k in v :: InPlan(jobs, k))
  }

  function JobOf(jobs: seq<Job>, k: Kind): (job: Job)
    requires InPlan(jobs, k)
    ensures job in jobs && job.kind == k
  {
    if jobs[0].kind == k then jobs[0] else
      assert InPlan(jobs[1..], k) by { var i :| 0 <= i < |jobs| && jobs[i].kind == k; assert jobs[1..][i - 1] == jobs[i]; }
      JobOf(jobs[1..], k)
  }

  lemma OneJob(jobs: seq<Job>, i: nat)
    requires i < |jobs| && DistinctKinds(jobs)
    ensures InPlan(jobs, jobs[i].kind) && JobOf(jobs, jobs[i].kind) == jobs[i]
  {
  }

  /** The recursion over the graph, along a topological order. */
  function Evaluate(jobs: seq<Job>, run: Runs, order: seq<Kind>): map<Kind, Ending>
    requires forall n | 0 <= n < |order| :: InPlan(jobs, order[n])
  {
    if order == [] then map[] else
      var v := Evaluate(jobs, run, order[..|order| - 1]);
      var k := order[|order| - 1];
      v[k := Judge(JobOf(jobs, k), run, v)]
  }

  /** The last job of an order depends on what comes before it, which is itself an order. */
  lemma LastJob(jobs: seq<Job>, order: seq<Kind>) returns (i: nat)
    requires DistinctKinds(jobs) && Orders(jobs, order) && order != []
    ensures Orders(jobs, order[..|order| - 1]) && order[|order| - 1] !in order[..|order| - 1]
    ensures i < |jobs| && jobs[i].kind == order[|order| - 1] && Satisfied(jobs[i], order[..|order| - 1])
    ensures InPlan(jobs, jobs[i].kind) && JobOf(jobs, jobs[i].kind) == jobs[i]
    ensures forall k :: k in order <==> k in order[..|order| - 1] || k == jobs[i].kind
  {
    var front, last := order[..|order| - 1], order[|order| - 1];
    forall n | 0 <= n < |front| ensures Placed(jobs, front, n) { assert Placed(jobs, order, n) && front[..n] == order[..n]; }
    assert Placed(jobs, order, |order| - 1);
    i :| 0 <= i < |jobs| && jobs[i].kind == last && Satisfied(jobs[i], front);
    OneJob(jobs, i);
    assert order == front + [last];
  }

  /** A judgement looks at nothing but the job's dependencies. */
  lemma JudgeAgrees(job: Job, run: Runs, v: map<Kind, Ending>, w: map<Kind, Ending>)
    requires forall k | k in job.dependsOn :: k in v && k in w && v[k] == w[k]
    ensures Judge(job, run, v) == Judge(job, run, w)
  {
    assert Inputs(MergedOf(v), job.dependsOn) == Inputs(MergedOf(w), job.dependsOn);
  }

  /** The recursion agrees with every solution, so there is at most one solution. */
  lemma {:induction false} SolutionIsEvaluated(jobs: seq<Job>, run: Runs, order: seq<Kind>, v: map<Kind, Ending>)
    requires DistinctKinds(jobs) && Orders(jobs, order) && (forall n | 0 <= n < |order| :: InPlan(jobs, order[n]))
    requires Solves(jobs, run, v)
    ensures var e := Evaluate(jobs, run, order); forall k :: k in e <==> k in order
    ensures forall k | k in order :: k in v && Evaluate(jobs, run, order)[k] == v[k]
  {
    hide Judge, Orders, Distinct, DistinctKinds, InPlan;
    if order != [] {
      var front := order[..|order| - 1];
      var i := LastJob(jobs, order);
      SolutionIsEvaluated(jobs, run, front, v);
      JudgeAgrees(jobs[i], run, Evaluate(jobs, run, front), v);
    }
  }

  /** An assignment of endings in which each job is judged by its dependencies is the recursion's. */
  lemma SolvedByEvaluation(jobs: seq<Job>, run: Runs, order: seq<Kind>, v: map<Kind, Ending>)
    requires DistinctKinds(jobs) && Schedules(jobs, order) && (forall n | 0 <= n < |order| :: InPlan(jobs, order[n]))
    requires Solves(jobs, run, v)
    ensures v == Evaluate(jobs, run, order)
  {
    SolutionIsEvaluated(jobs, run, order, v);
    forall k | k in v ensures k in order { }
  }

  /** And the recursion is a solution. */
  lemma {:induction false} EvaluationSolves(jobs: seq<Job>, run: Runs, order: seq<Kind>)
    requires DistinctKinds(jobs) && Orders(jobs, order) && (forall n | 0 <= n < |order| :: InPlan(jobs, order[n]))
    ensures var e := Evaluate(jobs, run, order);
            && (forall k :: k in e <==> k in order)
            && (forall i | 0 <= i < |jobs| && jobs[i].kind in order :: e[jobs[i].kind] == Judge(jobs[i], run, e) && Satisfied(jobs[i], order))
  {
    hide Judge, Orders, Distinct;
    if order != [] {
      var front := order[..|order| - 1];
      var last := LastJob(jobs, order);
      EvaluationSolves(jobs, run, front);
      var before, e := Evaluate(jobs, run, front), Evaluate(jobs, run, order);
      forall i | 0 <= i < |jobs| && jobs[i].kind in order ensures e[jobs[i].kind] == Judge(jobs[i], run, e) && Satisfied(jobs[i], order) {
        assert jobs[i].kind == jobs[last].kind ==> i == last;
        assert Satisfied(jobs[i], front);
        JudgeAgrees(jobs[i], run, before, e);
      }
    }
  }
}
