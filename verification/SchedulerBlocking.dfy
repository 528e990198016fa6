/** The loop that blocks the transitive dependents of unsuccessful jobs. */
module SchedulerBlocking {
  import opened CatalogTypes
  import opened Plans
  import opened Scheduler

  /** Jobs `blocked` can be blocked one after the other. */
  predicate CanBlock(jobs: seq<Job>, states: map<Kind, State>, blocked: seq<nat>)
    decreases |blocked|, 0
  {
    blocked == [] ||
      (var front, last := blocked[..|blocked| - 1], blocked[|blocked| - 1];
       CanBlock(jobs, states, front) && last < |jobs| && ToBlock(jobs[last], BlockEach(jobs, states, front)))
  }

  function BlockEach(jobs: seq<Job>, states: map<Kind, State>, blocked: seq<nat>): map<Kind, State>
    requires CanBlock(jobs, states, blocked)
    decreases |blocked|, 1
  {
    if blocked == [] then states else
      BlockEach(jobs, states, blocked[..|blocked| - 1])[jobs[blocked[|blocked| - 1]].kind := Blocked]
  }

  function PendingKinds(states: map<Kind, State>): set<Kind> {
    set k | k in states && states[k] == Pending
  }

  /** Passes over the plan until none changes anything.  What it does is a run of single Block steps
      after which no job is left to block, each counted as terminal once. */
  method BlockDependents(jobs: seq<Job>, states: map<Kind, State>, terminal: int) returns (r: map<Kind, State>, count: int, ghost blocked: seq<nat>)
    ensures NoneToBlock(jobs, r)
    ensures CanBlock(jobs, states, blocked) && r == BlockEach(jobs, states, blocked) && count == terminal + |blocked|
  {
    r, count, blocked := states, terminal, [];
    var changed := true;
    while changed
      invariant CanBlock(jobs, states, blocked) && r == BlockEach(jobs, states, blocked) && count == terminal + |blocked|
      invariant !changed ==> NoneToBlock(jobs, r)
      decreases |PendingKinds(r)|, changed
    {
      changed := false;
      ghost var before := r;
      for i := 0 to |jobs|
        invariant CanBlock(jobs, states, blocked) && r == BlockEach(jobs, states, blocked) && count == terminal + |blocked|
        invariant if changed then |PendingKinds(r)| < |PendingKinds(before)| else r == before
        invariant !changed ==> forall j | 0 <= j < i :: !ToBlock(jobs[j], r)
      {
        if ToBlock(jobs[i], r) {
          BlockingShrinks(r, jobs[i].kind);
          r := r[jobs[i].kind := Blocked];
          assert (blocked + [i])[..|blocked|] == blocked;
          blocked, count, changed := blocked + [i], count + 1, true;
        }
      }
    }
  }

  lemma BlockingShrinks(states: map<Kind, State>, k: Kind)
    requires StateOf(states, k) == Pending
    ensures |PendingKinds(states[k := Blocked])| < |PendingKinds(states)|
  {
    assert PendingKinds(states[k := Blocked]) == PendingKinds(states) - {k};
  }
}
