/** What the registry promises its callers, over every run. */
module RegistryTheorems {
  import opened Wrappers
  import opened RegistryModel
  import opened RegistrySafety

  ghost predicate CanRun(r: Reg, steps: seq<Step>)
    decreases |steps|
  {
    steps == [] || (Sane(r) && Enabled(r, steps[0]) && CanRun(Next(r, steps[0]), steps[1..]))
  }

  ghost function After(r: Reg, steps: seq<Step>): Reg
    requires CanRun(r, steps)
    decreases |steps|
  {
    if steps == [] then r else After(Next(r, steps[0]), steps[1..])
  }

  lemma InitialIsSafe()
    ensures Safe(Initial())
  {
    forall k: Key ensures BudgetAt(Initial(), k) { assert BudgetHolders(Initial(), k) == {}; }
  }

  lemma {:induction false} SafeOverRuns(r: Reg, steps: seq<Step>)
    requires Safe(r) && CanRun(r, steps)
    ensures Safe(After(r, steps))
    decreases |steps|
  {
    hide Enabled, Next, RefsExact, Incarnations, TracksOk, Budgets, Placed, Shared, Shutdown;
    if steps != [] {
      SafeKeeps(r, steps[0]);
      SafeOverRuns(Next(r, steps[0]), steps[1..]);
    }
  }

  lemma Reachable(steps: seq<Step>)
    requires CanRun(Initial(), steps)
    ensures Safe(After(Initial(), steps))
  {
    InitialIsSafe();
    SafeOverRuns(Initial(), steps);
  }

  /** A track's references are exactly the Acquire calls waiting for it and its unreleased leases, and
      it is retired with the last of them. */
  lemma RefsAreExact(steps: seq<Step>, t: nat)
    requires CanRun(Initial(), steps) && t < |After(Initial(), steps).tracks|
    ensures var r := After(Initial(), steps);
            && r.tracks[t].refs == |Of(r.waiting, t)| + |Of(r.leases, t)|
            && (r.tracks[t].refs == 0 ==> r.tracks[t].closed && r.tracks[t].stage != Idle)
  {
    Reachable(steps);
    var r := After(Initial(), steps);
    assert RefsAt(r, t) && TrackOk(r.tracks[t]);
  }

  lemma HeldHasRefs(r: Reg, m: map<nat, nat>, c: nat)
    requires Sane(r) && RefsExact(r) && c in m && m[c] < |r.tracks| && (m == r.waiting || m == r.leases)
    ensures r.tracks[m[c]].refs > 0
  {
    assert RefsAt(r, m[c]) && c in Of(m, m[c]);
  }

  /** Unreleased leases with one key share one incarnation; with one scope too, one store. */
  lemma LeasesShare(steps: seq<Step>, a: nat, b: nat)
    requires CanRun(Initial(), steps)
    requires var r := After(Initial(), steps); Sane(r) && a in r.leases && b in r.leases && KeyOf(r, r.leases[a]) == KeyOf(r, r.leases[b])
    ensures var r := After(Initial(), steps); var t, u := r.leases[a], r.leases[b];
            && r.made[r.tracks[t].entry].incarnation == r.made[r.tracks[u].entry].incarnation
            && (r.tracks[t].scope == r.tracks[u].scope ==> t == u)
  {
    Reachable(steps);
    var r := After(Initial(), steps);
    HeldHasRefs(r, r.leases, a);
    HeldHasRefs(r, r.leases, b);
  }

  /** Entries stay on record; a retired one is never live again. */
  lemma EntriesStay(r: Reg, step: Step)
    requires Safe(r) && Enabled(r, step)
    ensures var q := Next(r, step);
            |r.made| <= |q.made| && forall e | 0 <= e < |r.made| :: q.made[e].key == r.made[e].key && (r.made[e].retired ==> q.made[e].retired)
  {
    hide RefsExact, Incarnations, TracksOk, Budgets, Shared, Shutdown, RefsAt, FinalizeTrack, GiveBack, Placed, ReleaseRef, CanFinalize, Attached, MadeFor;
    match step {
      case Attach(call, key, scope) =>
        AttachStays(r, call, key, scope);
      case Withdraw(call) => ReleaseIs(r.(waiting := r.waiting - {call}), r.waiting[call]);
      case Release(lease) => ReleaseIs(r.(leases := r.leases - {lease}), r.leases[lease]);
      case Close =>
      case Finalize(t) => FinalizeIs(r, t);
      case _ => OthersStay(r, step);
    }
  }

  lemma OthersStay(r: Reg, step: Step)
    requires Sane(r) && Enabled(r, step) && !step.Attach? && !step.Withdraw? && !step.Release? && !step.Close? && !step.Finalize?
    ensures Next(r, step).made == r.made
  {
    hide Sane, FinalizeTrack, GiveBack, ReleaseRef, CanFinalize, Attached, Shut;
  }

  lemma AttachStays(r: Reg, call: nat, key: Key, scope: Scope)
    requires Sane(r) && Placed(r)
    ensures var q := Attached(r, call, key, scope);
            |r.made| <= |q.made| && forall e | 0 <= e < |r.made| :: q.made[e].key == r.made[e].key && (r.made[e].retired ==> q.made[e].retired)
  {
    hide Attached, Placed, ForStore;
    if Joins(r, key, scope) {
      JoinShape(r, call, key, scope);
    } else {
      MakeShape(r, call, key, scope);
    }
  }

  lemma {:induction false} EntriesStayOverRuns(r: Reg, steps: seq<Step>, e: nat)
    requires Safe(r) && CanRun(r, steps) && e < |r.made|
    ensures var q := After(r, steps);
            |r.made| <= |q.made| && q.made[e].key == r.made[e].key && (r.made[e].retired ==> q.made[e].retired)
    decreases |steps|
  {
    hide Enabled, Next, RefsExact, Incarnations, TracksOk, Budgets, Placed, Shared, Shutdown;
    if steps != [] {
      EntriesStay(r, steps[0]);
      SafeKeeps(r, steps[0]);
      EntriesStayOverRuns(Next(r, steps[0]), steps[1..], e);
    }
  }

  /** A key that is served by another entry later is served by a strictly larger incarnation. */
  lemma RecreatedIsLarger(before: seq<Step>, between: seq<Step>, key: Key)
    requires CanRun(Initial(), before) && CanRun(After(Initial(), before), between)
    requires var r, q := After(Initial(), before), After(After(Initial(), before), between);
             Sane(r) && Sane(q) && key in r.entries && key in q.entries && r.entries[key] != q.entries[key]
    ensures var r, q := After(Initial(), before), After(After(Initial(), before), between);
            r.made[r.entries[key]].incarnation < q.made[q.entries[key]].incarnation
  {
    Reachable(before);
    var r := After(Initial(), before);
    SafeOverRuns(r, between);
    ServedLater(r, between, key);
  }

  lemma ServedLater(r: Reg, between: seq<Step>, key: Key)
    requires Safe(r) && CanRun(r, between) && Safe(After(r, between))
    requires var q := After(r, between); key in r.entries && key in q.entries && r.entries[key] != q.entries[key]
    ensures r.made[r.entries[key]].incarnation < After(r, between).made[After(r, between).entries[key]].incarnation
  {
    var q := After(r, between);
    ClosedServesNone(r);
    ClosedServesNone(q);
    var f := q.entries[key];
    OlderAreRetired(r, between, key, f);
    assert f >= |r.made|;
  }

  lemma OlderAreRetired(r: Reg, between: seq<Step>, key: Key, f: nat)
    requires Safe(r) && CanRun(r, between) && key in r.entries && !r.closed
    ensures f < |r.made| && f < |After(r, between).made| && After(r, between).made[f].key == key && f != r.entries[key] ==> After(r, between).made[f].retired
  {
    if f < |r.made| {
      EntriesStayOverRuns(r, between, f);
      assert EntryOk(r, f);
    }
  }

  lemma ClosedServesNone(r: Reg)
    requires Safe(r)
    ensures r.closed ==> r.entries == map[]
  {
  }

  /** Stores of one key that have not given their budget reference back share one set of permits. */
  lemma BudgetsAreShared(steps: seq<Step>, t: nat, u: nat)
    requires CanRun(Initial(), steps)
    requires var r := After(Initial(), steps);
             Sane(r) && t < |r.tracks| && u < |r.tracks| && HoldsBudget(r.tracks[t]) && HoldsBudget(r.tracks[u]) && KeyOf(r, t) == KeyOf(r, u)
    ensures var r := After(Initial(), steps);
            && r.tracks[t].budget == r.tracks[u].budget
            && KeyOf(r, t) in r.budgets && r.budgets[KeyOf(r, t)].budget == r.tracks[t].budget
            && r.budgets[KeyOf(r, t)].refs == |BudgetHolders(r, KeyOf(r, t))|
  {
    Reachable(steps);
    var r := After(Initial(), steps);
    assert BudgetAt(r, KeyOf(r, t));
    assert t in BudgetHolders(r, KeyOf(r, t)) && u in BudgetHolders(r, KeyOf(r, t));
  }

  /** A key has permits exactly as long as some store of it has not given its reference back. */
  lemma BudgetsEnd(steps: seq<Step>, key: Key)
    requires CanRun(Initial(), steps)
    ensures var r := After(Initial(), steps);
            key in r.budgets <==> exists t | 0 <= t < |r.tracks| :: HoldsBudget(r.tracks[t]) && r.tracks[t].entry < |r.made| && KeyOf(r, t) == key
  {
    hide TracksOk, Placed, Shared, Shutdown;
    Reachable(steps);
    var r := After(Initial(), steps);
    assert BudgetAt(r, key);
    if key in r.budgets {
      var t :| t in BudgetHolders(r, key);
    } else {
      assert forall t | 0 <= t < |r.tracks| && HoldsBudget(r.tracks[t]) :: t !in BudgetHolders(r, key);
    }
  }

  /** A provider is closed at most once, and only after its factory returned and all native work of
      its store has drained; and work can no longer start. */
  lemma ProviderClosesOnce(steps: seq<Step>, t: nat)
    requires CanRun(Initial(), steps) && t < |After(Initial(), steps).tracks|
    ensures var x := After(Initial(), steps).tracks[t];
            && x.closes <= 1
            && (x.closes == 1 ==> Ready(x) && HasProvider(x) && x.closed && x.loaderStopped && x.jobs == 0 && !x.maintaining && x.detailsStale && x.loads == 0)
  {
    Reachable(steps);
    assert TrackOk(After(Initial(), steps).tracks[t]);
  }

  /** Close answers nil only when every store that ever was is finalized, its provider closed if it had
      one, and no store can be made any more. */
  lemma CloseIsComplete(steps: seq<Step>)
    requires CanRun(Initial(), steps) && After(Initial(), steps).closeDone
    ensures var r := After(Initial(), steps);
            && r.closed
            && forall t | 0 <= t < |r.tracks| :: r.tracks[t].stage == Finalized && r.tracks[t].closes == if HasProvider(r.tracks[t]) then 1 else 0
  {
    Reachable(steps);
    var r := After(Initial(), steps);
    forall t | 0 <= t < |r.tracks| ensures r.tracks[t].stage == Finalized && r.tracks[t].closes == if HasProvider(r.tracks[t]) then 1 else 0 {
      assert TrackOk(r.tracks[t]);
    }
  }
}
