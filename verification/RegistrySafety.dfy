/** What every run of a registry keeps. */
module RegistrySafety {
  import opened Wrappers
  import opened RegistryModel

  // ----- reference counts

  /** The calls, or the leases, of one track. */
  function Of(m: map<nat, nat>, t: nat): set<nat> {
    set c | c in m && m[c] == t
  }

  lemma OneLess(m: map<nat, nat>, c: nat, t: nat)
    requires c in m
    ensures |Of(m - {c}, t)| == |Of(m, t)| - if m[c] == t then 1 else 0
  {
    assert Of(m - {c}, t) == Of(m, t) - {c};
    if m[c] == t { assert c in Of(m, t); }
  }

  lemma OneMore(m: map<nat, nat>, c: nat, u: nat, t: nat)
    requires c !in m
    ensures |Of(m[c := u], t)| == |Of(m, t)| + if u == t then 1 else 0
  {
    assert Of(m[c := u], t) == if u == t then Of(m, t) + {c} else Of(m, t);
  }

  predicate RefsAt(r: Reg, t: nat)
    requires t < |r.tracks|
  {
    r.tracks[t].refs == |Of(r.waiting, t)| + |Of(r.leases, t)|
  }

  /** A track's references are the Acquire calls waiting for it and its unreleased leases. */
  ghost predicate RefsExact(r: Reg) {
    forall t | 0 <= t < |r.tracks| :: RefsAt(r, t)
  }

  // ----- a track's own life

  predicate TrackOk(x: Track) {
    var rank := Rank(x.stage);
    && (x.stage != Idle ==> x.closed) && (x.refs <= 0 ==> x.stage != Idle)
    && (rank >= 2 ==> x.cancelled)
    && (rank >= 3 ==> Ready(x))
    && (rank >= 4 ==> x.loaderStopped && !x.maintaining)
    && (rank >= 5 ==> x.jobs == 0)
    && (rank >= 6 ==> x.detailsStale)
    && (rank >= 7 ==> x.loads == 0)
    && x.closes == (if rank >= 8 && HasProvider(x) then 1 else 0)
    && (x.live <==> x.stage != Finalized)
  }

  ghost predicate TracksOk(r: Reg) {
    forall t | 0 <= t < |r.tracks| :: TrackOk(r.tracks[t])
  }

  // ----- entries and tracks

  function KeyOf(r: Reg, t: nat): Key
    requires t < |r.tracks| && r.tracks[t].entry < |r.made|
  {
    r.made[r.tracks[t].entry].key
  }

  /** Incarnations are handed out in the order in which entries are made. */
  ghost predicate Incarnations(r: Reg) {
    r.incarnations == |r.made| && forall e | 0 <= e < |r.made| :: r.made[e].incarnation == e + 1
  }

  predicate EntryOk(r: Reg, e: nat)
    requires e < |r.made|
  {
    && (r.made[e].retired ==> r.made[e].tracks == map[])
    && (!r.made[e].retired ==> r.made[e].tracks != map[] && r.made[e].key in r.entries && r.entries[r.made[e].key] == e)
  }

  predicate SlotOk(r: Reg, e: nat, s: Scope)
    requires e < |r.made| && s in r.made[e].tracks
  {
    var t := r.made[e].tracks[s];
    t < |r.tracks| && r.tracks[t].entry == e && r.tracks[t].scope == s && r.tracks[t].refs > 0
  }

  predicate InPlace(r: Reg, t: nat)
    requires t < |r.tracks| && r.tracks[t].entry < |r.made|
  {
    var e := r.tracks[t].entry;
    r.tracks[t].scope in r.made[e].tracks && r.made[e].tracks[r.tracks[t].scope] == t
  }

  /** While the registry is open, entries and tracks with references are exactly those in use. */
  ghost predicate Placed(r: Reg)
    requires Sane(r)
  {
    && (forall k | k in r.entries :: r.made[r.entries[k]].key == k && !r.made[r.entries[k]].retired)
    && (forall e | 0 <= e < |r.made| :: EntryOk(r, e))
    && (forall e, s | 0 <= e < |r.made| && s in r.made[e].tracks :: SlotOk(r, e, s))
    && (forall t | 0 <= t < |r.tracks| && r.tracks[t].refs > 0 :: InPlace(r, t))
  }

  /** Tracks in use with one key are of one entry, and with one scope too are one track. */
  ghost predicate Shared(r: Reg)
    requires Sane(r)
  {
    forall t, u | 0 <= t < |r.tracks| && 0 <= u < |r.tracks| && r.tracks[t].refs > 0 && r.tracks[u].refs > 0 && KeyOf(r, t) == KeyOf(r, u) ::
      r.tracks[t].entry == r.tracks[u].entry && (r.tracks[t].scope == r.tracks[u].scope ==> t == u)
  }

  lemma PlacedIsShared(r: Reg)
    requires Sane(r) && Placed(r)
    ensures Shared(r)
  {
    forall t, u | 0 <= t < |r.tracks| && 0 <= u < |r.tracks| && r.tracks[t].refs > 0 && r.tracks[u].refs > 0 && KeyOf(r, t) == KeyOf(r, u)
      ensures r.tracks[t].entry == r.tracks[u].entry && (r.tracks[t].scope == r.tracks[u].scope ==> t == u)
    {
      assert InPlace(r, t) && InPlace(r, u);
      assert EntryOk(r, r.tracks[t].entry) && EntryOk(r, r.tracks[u].entry);
    }
  }

  // ----- budgets

  predicate HoldsBudget(x: Track) {
    Rank(x.stage) <= 8
  }

  function BudgetHolders(r: Reg, k: Key): set<nat>
    requires forall t | 0 <= t < |r.tracks| :: r.tracks[t].entry < |r.made|
  {
    set t | 0 <= t < |r.tracks| && HoldsBudget(r.tracks[t]) && KeyOf(r, t) == k
  }

  ghost predicate BudgetAt(r: Reg, k: Key)
    requires forall t | 0 <= t < |r.tracks| :: r.tracks[t].entry < |r.made|
  {
    && (k in r.budgets <==> BudgetHolders(r, k) != {})
    && (k in r.budgets ==> r.budgets[k].refs == |BudgetHolders(r, k)| && forall t | t in BudgetHolders(r, k) :: r.tracks[t].budget == r.budgets[k].budget)
  }

  /** The tracks of a key that have not given their reference back share one permit set, which knows
      how many they are. */
  ghost predicate Budgets(r: Reg)
    requires Sane(r)
  {
    forall k: Key :: BudgetAt(r, k)
  }

  // ----- closing

  ghost predicate Shutdown(r: Reg) {
    && (r.closed ==> forall t | 0 <= t < |r.tracks| :: t in r.closing || r.tracks[t].stage == Finalized)
    && (r.closed ==> forall t | 0 <= t < |r.tracks| :: r.tracks[t].stage != Idle)
    && (r.closed ==> r.entries == map[])
    && (r.closeDone ==> r.closed && forall t | 0 <= t < |r.tracks| :: r.tracks[t].stage == Finalized)
  }

  ghost predicate Safe(r: Reg) {
    && Sane(r) && RefsExact(r) && TracksOk(r) && Incarnations(r)
    && (!r.closed ==> Placed(r)) && Shared(r) && Budgets(r) && Shutdown(r)
  }

  // ----- steps that change one track and nothing about who uses it

  predicate SameUse(x: Track, y: Track) {
    x.entry == y.entry && x.scope == y.scope && x.refs == y.refs && x.budget == y.budget
  }

  /** `q` has the same entries, calls and leases, and its tracks are used as in `r`. */
  ghost predicate SameShape(r: Reg, q: Reg) {
    && q.entries == r.entries && q.made == r.made && q.waiting == r.waiting && q.leases == r.leases
    && q.incarnations == r.incarnations && |q.tracks| == |r.tracks|
    && forall t | 0 <= t < |r.tracks| :: SameUse(r.tracks[t], q.tracks[t])
  }

  lemma ShapeKeeps(r: Reg, q: Reg)
    requires Sane(r) && SameShape(r, q) && RefsExact(r) && Shared(r) && Incarnations(r)
    ensures Sane(q) && RefsExact(q) && Shared(q) && Incarnations(q)
    ensures Placed(r) ==> Placed(q)
  {
    hide KeyOf;
    forall t | 0 <= t < |q.tracks| ensures q.tracks[t].entry < |q.made| { assert SameUse(r.tracks[t], q.tracks[t]); }
    RefsStay(r, q);
    SharingStays(r, q);
    if Placed(r) {
      PlacesStay(r, q);
    }
  }

  lemma RefsStay(r: Reg, q: Reg)
    requires SameShape(r, q) && RefsExact(r)
    ensures RefsExact(q)
  {
    forall t | 0 <= t < |q.tracks| ensures RefsAt(q, t) { assert RefsAt(r, t) && SameUse(r.tracks[t], q.tracks[t]); }
  }

  lemma SharingStays(r: Reg, q: Reg)
    requires Sane(r) && Sane(q) && SameShape(r, q) && Shared(r)
    ensures Shared(q)
  {
    forall t | 0 <= t < |q.tracks| ensures SameUse(r.tracks[t], q.tracks[t]) && KeyOf(r, t) == KeyOf(q, t) { }
  }

  lemma PlacesStay(r: Reg, q: Reg)
    requires Sane(r) && Sane(q) && SameShape(r, q) && Placed(r)
    ensures Placed(q)
  {
    forall e | 0 <= e < |q.made| ensures EntryOk(q, e) { assert EntryOk(r, e); }
    forall e, s | 0 <= e < |q.made| && s in q.made[e].tracks ensures SlotOk(q, e, s) {
      assert SlotOk(r, e, s);
      assert SameUse(r.tracks[r.made[e].tracks[s]], q.tracks[r.made[e].tracks[s]]);
    }
    forall t | 0 <= t < |q.tracks| && q.tracks[t].refs > 0 ensures InPlace(q, t) { assert SameUse(r.tracks[t], q.tracks[t]) && InPlace(r, t); }
  }

  lemma BudgetsStay(r: Reg, q: Reg)
    requires Sane(r) && Sane(q) && q.made == r.made && Budgets(r) && q.budgets == r.budgets && |q.tracks| == |r.tracks|
    requires forall t | 0 <= t < |r.tracks| :: q.tracks[t].entry == r.tracks[t].entry && q.tracks[t].budget == r.tracks[t].budget && (HoldsBudget(q.tracks[t]) <==> HoldsBudget(r.tracks[t]))
    ensures Budgets(q)
  {
    forall k: Key ensures BudgetAt(q, k) {
      assert BudgetAt(r, k);
      assert BudgetHolders(q, k) == BudgetHolders(r, k);
    }
  }

  /** One track changes, without a change of stage. */
  lemma OneTrackKeeps(r: Reg, t: nat, x: Track)
    requires Safe(r) && t < |r.tracks| && SameUse(r.tracks[t], x) && x.stage == r.tracks[t].stage && TrackOk(x)
    ensures Safe(Changed(r, t, x))
  {
    hide RefsExact, Placed, Shared, Incarnations, Budgets, Rank, TrackOk, HasProvider;
    var q := Changed(r, t, x);
    ShapeKeeps(r, q);
    BudgetsStay(r, q);
  }

  /** The root context ends: every track's context with it. */
  lemma RootKeeps(r: Reg)
    requires Safe(r)
    ensures Safe(CancelRoot(r))
  {
    hide RefsExact, Placed, Shared, Incarnations, Budgets;
    var q := CancelRoot(r);
    ShapeKeeps(r, q);
    BudgetsStay(r, q);
    forall t | 0 <= t < |q.tracks| ensures TrackOk(q.tracks[t]) { assert TrackOk(r.tracks[t]); }
  }

  lemma WorkKeeps(r: Reg, step: Step)
    requires Safe(r) && Enabled(r, step)
    requires step.FactoryFails? || step.FactoryReturns? || step.StartLoader? || step.JobStarts? || step.JobEnds?
             || step.LoadStarts? || step.LoadEnds? || step.MaintenanceStarts? || step.MaintenanceEnds?
    ensures Safe(Next(r, step))
  {
    hide RefsExact, Placed, Shared, Incarnations, Budgets, Shutdown, TracksOk, TrackOk, Enabled, Next;
    SafeTracks(r, step.t);
    var x := WorkDone(r, step);
    OneTrackKeeps(r, step.t, x);
  }

  /** What such a step does to its track. */
  lemma WorkDone(r: Reg, step: Step) returns (x: Track)
    requires Sane(r) && Enabled(r, step)
    requires step.FactoryFails? || step.FactoryReturns? || step.StartLoader? || step.JobStarts? || step.JobEnds?
             || step.LoadStarts? || step.LoadEnds? || step.MaintenanceStarts? || step.MaintenanceEnds?
    requires step.t < |r.tracks| ==> TrackOk(r.tracks[step.t])
    ensures step.t < |r.tracks| && Next(r, step) == Changed(r, step.t, x)
    ensures SameUse(r.tracks[step.t], x) && x.stage == r.tracks[step.t].stage && TrackOk(x)
  {
    x := Next(r, step).tracks[step.t];
  }

  lemma SafeTracks(r: Reg, t: nat)
    requires Safe(r)
    ensures t < |r.tracks| ==> TrackOk(r.tracks[t])
  {
  }

  // ----- the finalizer

  lemma FinalizerAdvances(x: Track)
    requires TrackOk(x) && CanFinalize(x)
    ensures var y := FinalizeTrack(x);
            TrackOk(y) && SameUse(x, y) && Rank(y.stage) == Rank(x.stage) + 1 && (HoldsBudget(y) <==> HoldsBudget(x) && x.stage != Returning)
  {
  }

  lemma FinalizeIs(r: Reg, t: nat)
    requires Sane(r) && Enabled(r, Finalize(t))
    ensures t < |r.tracks| && CanFinalize(r.tracks[t])
    ensures var q := Changed(r, t, FinalizeTrack(r.tracks[t]));
            Next(r, Finalize(t)) == if r.tracks[t].stage == Returning then q.(budgets := GiveBack(r.budgets, KeyOf(r, t))) else q
  {
  }

  lemma FinalizeKeeps(r: Reg, t: nat)
    requires Safe(r) && Enabled(r, Finalize(t))
    ensures Safe(Next(r, Finalize(t)))
  {
    hide RefsExact, Placed, Shared, Incarnations, TrackOk, HoldsBudget, CanFinalize, FinalizeTrack, GiveBack, Next, Enabled, Ready, Shutdown, Budgets, SameUse;
    FinalizeIs(r, t);
    var x := r.tracks[t];
    SafeTracks(r, t);
    FinalizerAdvances(x);
    var q := Next(r, Finalize(t));
    FinalizedShape(r, q, t, FinalizeTrack(x));
    ShapeKeeps(r, q);
    StageMoves(x);
    ShutdownStays(r, q, t);
    if x.stage == Returning {
      GivingBackKeeps(r, q, t);
    } else {
      BudgetsStay(r, q);
    }
  }

  lemma FinalizedShape(r: Reg, q: Reg, t: nat, y: Track)
    requires t < |r.tracks| && SameUse(r.tracks[t], y) && q == Changed(r, t, y).(budgets := q.budgets) && TracksOk(r) && TrackOk(y)
    ensures SameShape(r, q) && TracksOk(q)
    ensures forall u | 0 <= u < |r.tracks| :: q.tracks[u].entry == r.tracks[u].entry && q.tracks[u].budget == r.tracks[u].budget
  {
    hide TrackOk;
  }

  lemma ShutdownStays(r: Reg, q: Reg, t: nat)
    requires t < |r.tracks| == |q.tracks| && Shutdown(r) && q == r.(tracks := q.tracks, budgets := q.budgets) && q.tracks == r.tracks[t := q.tracks[t]]
    requires r.tracks[t].stage != Finalized && q.tracks[t].stage != Idle
    ensures Shutdown(q)
  {
  }

  lemma StageMoves(x: Track)
    requires CanFinalize(x)
    ensures x.stage != Finalized && FinalizeTrack(x).stage != Idle
    ensures x.stage == Returning ==> HoldsBudget(x) && !HoldsBudget(FinalizeTrack(x))
  {
  }

  lemma GivingBackKeeps(r: Reg, q: Reg, t: nat)
    requires Sane(r) && Sane(q) && Budgets(r) && t < |r.tracks| == |q.tracks| && SameUse(r.tracks[t], q.tracks[t]) && q.made == r.made
    requires q.tracks == r.tracks[t := q.tracks[t]] && HoldsBudget(r.tracks[t]) && !HoldsBudget(q.tracks[t])
    requires q.budgets == GiveBack(r.budgets, KeyOf(r, t))
    ensures Budgets(q)
  {
    hide BudgetHolders, HoldsBudget, KeyOf;
    forall k: Key ensures BudgetAt(q, k) {
      assert BudgetAt(r, k);
      HoldersLess(r, q, k, t);
    }
  }

  lemma HoldersLess(r: Reg, q: Reg, k: Key, t: nat)
    requires Sane(r) && Sane(q) && t < |r.tracks| == |q.tracks| && q.made == r.made && SameUse(r.tracks[t], q.tracks[t])
    requires q.tracks == r.tracks[t := q.tracks[t]] && HoldsBudget(r.tracks[t]) && !HoldsBudget(q.tracks[t])
    ensures BudgetHolders(q, k) == if KeyOf(r, t) == k then BudgetHolders(r, k) - {t} else BudgetHolders(r, k)
    ensures KeyOf(r, t) == k ==> t in BudgetHolders(r, k) && |BudgetHolders(q, k)| == |BudgetHolders(r, k)| - 1
    ensures forall u | u in BudgetHolders(q, k) :: q.tracks[u].budget == r.tracks[u].budget
  {
    hide HoldsBudget;
    forall u | 0 <= u < |r.tracks| ensures KeyOf(q, u) == KeyOf(r, u) { }
  }

  // ----- calls become leases

  lemma GrantKeeps(r: Reg, call: nat, lease: nat)
    requires Safe(r) && Enabled(r, Grant(call, lease))
    ensures Safe(Next(r, Grant(call, lease)))
  {
    hide RefsExact, Placed, TrackOk, KeyOf, Budgets, Shared;
    GrantRefs(r, call, lease);
    SameButCalls(r, Next(r, Grant(call, lease)));
  }

  lemma GrantRefs(r: Reg, call: nat, lease: nat)
    requires Sane(r) && RefsExact(r) && Enabled(r, Grant(call, lease))
    ensures RefsExact(Next(r, Grant(call, lease)))
  {
    hide Of;
    var q := Next(r, Grant(call, lease));
    forall t | 0 <= t < |q.tracks| ensures RefsAt(q, t) {
      assert RefsAt(r, t);
      OneLess(r.waiting, call, t);
      OneMore(r.leases, lease, r.waiting[call], t);
    }
  }

  lemma SameButCalls(r: Reg, q: Reg)
    requires Sane(r) && Sane(q) && q == r.(waiting := q.waiting, leases := q.leases)
    ensures Placed(r) ==> Placed(q)
    ensures Shared(r) ==> Shared(q)
    ensures Budgets(r) ==> Budgets(q)
  {
    assert SameShape(r.(waiting := q.waiting, leases := q.leases), q);
    if Placed(r) {
      forall e | 0 <= e < |q.made| ensures EntryOk(q, e) { assert EntryOk(r, e); }
      forall e, s | 0 <= e < |q.made| && s in q.made[e].tracks ensures SlotOk(q, e, s) { assert SlotOk(r, e, s); }
      forall t | 0 <= t < |q.tracks| && q.tracks[t].refs > 0 ensures InPlace(q, t) { assert InPlace(r, t); }
    }
    if Shared(r) {
      forall t | 0 <= t < |q.tracks| ensures KeyOf(q, t) == KeyOf(r, t) { }
    }
    if Budgets(r) {
      BudgetsStay(r, q);
    }
  }

  // ----- giving a reference up

  /** `r` with one call or lease of track `t` taken away, its reference not yet given back. */
  ghost predicate OneTooMany(r: Reg, t: nat) {
    && t < |r.tracks|
    && r.tracks[t].refs == |Of(r.waiting, t)| + |Of(r.leases, t)| + 1
    && forall u | 0 <= u < |r.tracks| && u != t :: RefsAt(r, u)
  }

  function Given(x: Track): Track {
    var y := x.(refs := x.refs - 1);
    if y.refs <= 0 then Finalizing(y) else y
  }

  lemma GivenOk(x: Track)
    requires TrackOk(x) && x.refs > 0
    ensures TrackOk(Given(x)) && Given(x).entry == x.entry && Given(x).scope == x.scope && Given(x).budget == x.budget
    ensures (HoldsBudget(Given(x)) <==> HoldsBudget(x)) && (Given(x).refs > 0 ==> Given(x).stage == x.stage)
    ensures x.stage != Idle ==> Given(x).stage == x.stage
    ensures x.stage == Finalized <==> Given(x).stage == Finalized
  {
  }

  /** Entries may lose tracks, and be retired, but never change their key or incarnation. */
  ghost predicate OnlyLoses(r: Reg, q: Reg) {
    && |q.made| == |r.made|
    && (forall e | 0 <= e < |r.made| :: q.made[e].key == r.made[e].key && q.made[e].incarnation == r.made[e].incarnation
                                        && (r.made[e].retired ==> q.made[e].retired))
    && (forall e, s | 0 <= e < |r.made| && s in q.made[e].tracks :: s in r.made[e].tracks && q.made[e].tracks[s] == r.made[e].tracks[s])
    && (forall k | k in q.entries :: k in r.entries && q.entries[k] == r.entries[k])
  }

  lemma DetachedLoses(r: Reg, t: nat)
    requires t < |r.tracks| && r.tracks[t].entry < |r.made|
    ensures OnlyLoses(r, Detached(r, t)) && Detached(r, t) == r.(made := Detached(r, t).made, entries := Detached(r, t).entries)
  {
  }

  lemma ReleaseIs(r: Reg, t: nat)
    requires t < |r.tracks| && r.tracks[t].entry < |r.made|
    ensures var q, p := ReleaseRef(r, t), Changed(r, t, Given(r.tracks[t]));
            OnlyLoses(r, q) && q == p.(made := q.made, entries := q.entries)
  {
    hide Detached;
    hide OnlyLoses;
    var p := Changed(r, t, Given(r.tracks[t]));
    if Given(r.tracks[t]).refs <= 0 {
      DetachedLoses(p, t);
      assert ReleaseRef(r, t) == Detached(p, t);
      LosesToo(r, p, ReleaseRef(r, t));
    } else {
      NothingLost(r, p);
    }
  }

  lemma LosesToo(r: Reg, p: Reg, q: Reg)
    requires OnlyLoses(p, q) && p.made == r.made && p.entries == r.entries
    ensures OnlyLoses(r, q)
  {
  }

  lemma NothingLost(r: Reg, q: Reg)
    requires q.made == r.made && q.entries == r.entries
    ensures OnlyLoses(r, q)
  {
  }

  lemma LosingIsSane(r: Reg, q: Reg, t: nat)
    requires Sane(r) && OnlyLoses(r, q) && t < |r.tracks| && q.tracks == r.tracks[t := Given(r.tracks[t])]
    requires q.waiting == r.waiting && q.leases == r.leases
    ensures Sane(q)
  {
    forall u | 0 <= u < |q.tracks| ensures q.tracks[u].entry == r.tracks[u].entry { }
  }

  lemma GivenRefs(r: Reg, q: Reg, t: nat)
    requires OneTooMany(r, t) && q.tracks == r.tracks[t := Given(r.tracks[t])] && q.waiting == r.waiting && q.leases == r.leases
    ensures RefsExact(q)
  {
    forall u | 0 <= u < |q.tracks| ensures RefsAt(q, u) { if u != t { assert RefsAt(r, u); } }
  }

  lemma GivenSharing(r: Reg, q: Reg, t: nat)
    requires Sane(r) && Sane(q) && Shared(r) && t < |r.tracks| && q.tracks == r.tracks[t := Given(r.tracks[t])]
    requires |q.made| == |r.made| && forall e | 0 <= e < |r.made| :: q.made[e].key == r.made[e].key
    ensures Shared(q)
  {
    forall u | 0 <= u < |q.tracks| ensures KeyOf(q, u) == KeyOf(r, u) && q.tracks[u].entry == r.tracks[u].entry && q.tracks[u].scope == r.tracks[u].scope && (q.tracks[u].refs > 0 ==> r.tracks[u].refs > 0) { }
  }

  lemma GivenBudgets(r: Reg, q: Reg, t: nat)
    requires Sane(r) && Sane(q) && Budgets(r) && q.budgets == r.budgets && t < |r.tracks| && q.tracks == r.tracks[t := Given(r.tracks[t])]
    requires |q.made| == |r.made| && (forall e | 0 <= e < |r.made| :: q.made[e].key == r.made[e].key)
    requires HoldsBudget(Given(r.tracks[t])) <==> HoldsBudget(r.tracks[t])
    ensures Budgets(q)
  {
    hide HoldsBudget;
    forall k: Key ensures BudgetAt(q, k) {
      assert BudgetAt(r, k);
      forall u | 0 <= u < |q.tracks| ensures KeyOf(q, u) == KeyOf(r, u) && q.tracks[u].budget == r.tracks[u].budget { }
      assert BudgetHolders(q, k) == BudgetHolders(r, k);
    }
  }

  /** The last reference takes the track out of its entry, and an empty entry out of the registry. */
  lemma DetachedPlaces(r: Reg, t: nat)
    requires Sane(r) && Placed(r) && t < |r.tracks| && r.tracks[t].refs == 1
    ensures Sane(ReleaseRef(r, t)) && Placed(ReleaseRef(r, t))
  {
    hide ReleaseRef, EntryOk, Given;
    var q := ReleaseRef(r, t);
    DetachedEntries(r, q, t);
    DetachedSlots(r, q, t);
  }

  lemma DetachedSlots(r: Reg, q: Reg, t: nat)
    requires Sane(r) && Placed(r) && t < |r.tracks| && r.tracks[t].refs == 1
    requires q.tracks == r.tracks[t := Given(r.tracks[t])] && |q.made| == |r.made|
    requires var e := r.tracks[t].entry;
             && q.made[e].tracks == r.made[e].tracks - {r.tracks[t].scope}
             && forall f | 0 <= f < |r.made| && f != e :: q.made[f] == r.made[f]
    ensures forall u | 0 <= u < |q.tracks| :: q.tracks[u].entry < |q.made|
    ensures forall f, s | 0 <= f < |q.made| && s in q.made[f].tracks :: q.made[f].tracks[s] < |q.tracks| && SlotOk(q, f, s)
    ensures forall u | 0 <= u < |q.tracks| && q.tracks[u].refs > 0 :: InPlace(q, u)
  {
    hide EntryOk;
    forall u | 0 <= u < |q.tracks| ensures q.tracks[u].entry == r.tracks[u].entry && q.tracks[u].scope == r.tracks[u].scope { }
    forall f, s | 0 <= f < |q.made| && s in q.made[f].tracks ensures q.made[f].tracks[s] < |q.tracks| && SlotOk(q, f, s) {
      assert SlotOk(r, f, s);
    }
    forall u | 0 <= u < |q.tracks| && q.tracks[u].refs > 0 ensures InPlace(q, u) { assert InPlace(r, u); }
  }

  lemma DetachedEntries(r: Reg, q: Reg, t: nat)
    requires Sane(r) && Placed(r) && t < |r.tracks| && r.tracks[t].refs == 1 && q == ReleaseRef(r, t)
    ensures q.tracks == r.tracks[t := Given(r.tracks[t])] && q.waiting == r.waiting && q.leases == r.leases && |q.made| == |r.made|
    ensures var e := r.tracks[t].entry;
            && q.made[e].tracks == r.made[e].tracks - {r.tracks[t].scope}
            && forall f | 0 <= f < |r.made| && f != e :: q.made[f] == r.made[f]
    ensures forall k | k in q.entries :: q.entries[k] < |q.made| && q.made[q.entries[k]].key == k && !q.made[q.entries[k]].retired
    ensures forall f | 0 <= f < |q.made| :: EntryOk(q, f)
  {
    hide ReleaseRef, SlotOk;
    var e := r.tracks[t].entry;
    assert InPlace(r, t) && EntryOk(r, e);
    DetachedShape(r, q, t);
    forall f | 0 <= f < |q.made| ensures EntryOk(q, f) { assert EntryOk(r, f); }
  }

  lemma DetachedShape(r: Reg, q: Reg, t: nat)
    requires t < |r.tracks| && r.tracks[t].entry < |r.made| && InPlace(r, t) && r.tracks[t].refs == 1 && q == ReleaseRef(r, t)
    requires var entry := r.made[r.tracks[t].entry]; !entry.retired && entry.key in r.entries && r.entries[entry.key] == r.tracks[t].entry
    ensures var e := r.tracks[t].entry; var left := r.made[e].tracks - {r.tracks[t].scope};
            && q.tracks == r.tracks[t := Given(r.tracks[t])] && q.waiting == r.waiting && q.leases == r.leases
            && q.made == r.made[e := r.made[e].(tracks := left, retired := left == map[])]
            && q.entries == if left == map[] then r.entries - {r.made[e].key} else r.entries
  {
  }

  lemma KeptPlaces(r: Reg, t: nat)
    requires Sane(r) && Placed(r) && t < |r.tracks| && r.tracks[t].refs > 1
    ensures Sane(ReleaseRef(r, t)) && Placed(ReleaseRef(r, t))
  {
    var q := ReleaseRef(r, t);
    forall f, s | 0 <= f < |q.made| && s in q.made[f].tracks ensures SlotOk(q, f, s) { assert SlotOk(r, f, s); }
    forall f | 0 <= f < |q.made| ensures EntryOk(q, f) { assert EntryOk(r, f); }
    forall u | 0 <= u < |q.tracks| && q.tracks[u].refs > 0 ensures InPlace(q, u) { assert InPlace(r, u); }
  }

  /** Everything but the reference counts. */
  ghost predicate SafeBut(r: Reg) {
    && Sane(r) && TracksOk(r) && Incarnations(r)
    && (!r.closed ==> Placed(r)) && Shared(r) && Budgets(r) && Shutdown(r)
  }

  lemma ReleaseKeeps(r: Reg, t: nat)
    requires SafeBut(r) && OneTooMany(r, t)
    ensures Safe(ReleaseRef(r, t))
  {
    hide Placed, Shared, Budgets, ReleaseRef, RefsExact, TrackOk, HasProvider, Rank, HoldsBudget, Given, KeyOf;
    var q := ReleaseRef(r, t);
    assert TrackOk(r.tracks[t]);
    GivenOk(r.tracks[t]);
    ReleaseIs(r, t);
    LosingIsSane(r, q, t);
    GivenRefs(r, q, t);
    if !r.closed {
      if r.tracks[t].refs > 1 { KeptPlaces(r, t); } else { DetachedPlaces(r, t); }
    }
    GivenSharing(r, q, t);
    GivenBudgets(r, q, t);
  }

  lemma WithdrawKeeps(r: Reg, call: nat)
    requires Safe(r) && Enabled(r, Withdraw(call))
    ensures Safe(Next(r, Withdraw(call)))
  {
    hide Placed, Shared, Budgets, ReleaseRef, RefsAt, TrackOk, Incarnations, Of;
    var q, t := r.(waiting := r.waiting - {call}), r.waiting[call];
    SameButCalls(r, q);
    TakenCall(r, call);
    CallsAside(r, q);
    ReleaseKeeps(q, t);
  }

  lemma LeaseKeeps(r: Reg, lease: nat)
    requires Safe(r) && Enabled(r, Release(lease))
    ensures Safe(Next(r, Release(lease)))
  {
    hide Placed, Shared, Budgets, ReleaseRef, RefsAt, TrackOk, Incarnations, Of;
    var q, t := r.(leases := r.leases - {lease}), r.leases[lease];
    SameButCalls(r, q);
    TakenLease(r, lease);
    CallsAside(r, q);
    ReleaseKeeps(q, t);
  }

  lemma CallsAside(r: Reg, q: Reg)
    requires q == r.(waiting := q.waiting, leases := q.leases)
    ensures Incarnations(r) ==> Incarnations(q)
    ensures TracksOk(r) ==> TracksOk(q)
  {
  }

  lemma TakenCall(r: Reg, call: nat)
    requires Sane(r) && RefsExact(r) && call in r.waiting
    ensures OneTooMany(r.(waiting := r.waiting - {call}), r.waiting[call])
  {
    hide Of;
    var q, t := r.(waiting := r.waiting - {call}), r.waiting[call];
    forall u | 0 <= u < |r.tracks| ensures RefsAt(r, u) && (u != t ==> RefsAt(q, u)) { OneLess(r.waiting, call, u); }
    assert RefsAt(r, t);
    OneLess(r.waiting, call, t);
  }

  lemma TakenLease(r: Reg, lease: nat)
    requires Sane(r) && RefsExact(r) && lease in r.leases
    ensures OneTooMany(r.(leases := r.leases - {lease}), r.leases[lease])
  {
    hide Of;
    var q, t := r.(leases := r.leases - {lease}), r.leases[lease];
    forall u | 0 <= u < |r.tracks| ensures RefsAt(r, u) && (u != t ==> RefsAt(q, u)) { OneLess(r.leases, lease, u); }
    assert RefsAt(r, t);
    OneLess(r.leases, lease, t);
  }

  // ----- attaching

  /** The entry a call for `key` attaches to, and the entries with it. */
  function EntryFor(r: Reg, key: Key): nat {
    if key in r.entries then r.entries[key] else |r.made|
  }

  function MadeFor(r: Reg, key: Key): seq<Entry> {
    if key in r.entries then r.made else r.made + [Entry(key, r.incarnations + 1, false, map[])]
  }

  predicate Joins(r: Reg, key: Key, scope: Scope)
    requires forall k | k in r.entries :: r.entries[k] < |r.made|
  {
    key in r.entries && scope in r.made[r.entries[key]].tracks
  }

  /** A live track is joined: it gets one more reference and one more waiting call. */
  lemma JoinShape(r: Reg, call: nat, key: Key, scope: Scope)
    requires Sane(r) && Placed(r) && Joins(r, key, scope)
    ensures var t := r.made[r.entries[key]].tracks[scope];
            Attached(r, call, key, scope) ==
              r.(tracks := r.tracks[t := r.tracks[t].(refs := r.tracks[t].refs + 1)], waiting := r.waiting[call := t])
  {
  }

  function FreshTrack(e: nat, scope: Scope, budget: nat, cancelled: bool): Track {
    Track(e, scope, 1, InFactory, false, cancelled, Idle, false, 0, false, 0, false, 0, budget, true)
  }

  /** Otherwise a track is made, in the live entry of the key or in a new one. */
  lemma MakeShape(r: Reg, call: nat, key: Key, scope: Scope)
    requires Sane(r) && Placed(r) && !Joins(r, key, scope)
    ensures var q, e, n := Attached(r, call, key, scope), EntryFor(r, key), |r.tracks|;
            && e < |MadeFor(r, key)| && MadeFor(r, key)[e].key == key && !MadeFor(r, key)[e].retired
            && q.made == MadeFor(r, key)[e := MadeFor(r, key)[e].(tracks := MadeFor(r, key)[e].tracks[scope := n])]
            && q.entries == r.entries[key := e] && q.incarnations == |q.made| - |r.made| + r.incarnations
            && q.tracks == r.tracks + [FreshTrack(e, scope, ForStore(r.budgets, r.nextBudget, key).1, r.cancelled)]
            && q.budgets == ForStore(r.budgets, r.nextBudget, key).0 && q.waiting == r.waiting[call := n] && q.leases == r.leases
            && q.closed == r.closed && q.closing == r.closing && q.closeDone == r.closeDone && q.cancelled == r.cancelled
  {
    hide WithEntry, WithTrack, SlotOk, InPlace, EntryFor, MadeFor, EntryOk, ForStore;
    EntryShape(r, key);
    NewScope(r, key, scope);
    TrackShape(WithEntry(r, key).0, EntryFor(r, key), scope);
  }

  lemma EntryShape(r: Reg, key: Key)
    requires Sane(r) && Placed(r)
    ensures WithEntry(r, key) ==
            (r.(made := MadeFor(r, key), entries := r.entries[key := EntryFor(r, key)], incarnations := |MadeFor(r, key)| - |r.made| + r.incarnations), EntryFor(r, key))
    ensures EntryFor(r, key) < |MadeFor(r, key)| && MadeFor(r, key)[EntryFor(r, key)].key == key && !MadeFor(r, key)[EntryFor(r, key)].retired
  {
    if key in r.entries { assert r.entries[key := r.entries[key]] == r.entries; }
  }

  lemma NewScope(r: Reg, key: Key, scope: Scope)
    requires Sane(r) && Placed(r) && !Joins(r, key, scope)
    ensures EntryFor(r, key) < |MadeFor(r, key)| && scope !in MadeFor(r, key)[EntryFor(r, key)].tracks
  {
  }

  lemma TrackShape(q: Reg, e: nat, scope: Scope)
    requires e < |q.made| && scope !in q.made[e].tracks
    ensures var (p, t) := WithTrack(q, e, scope);
            var (budgets, budget) := ForStore(q.budgets, q.nextBudget, q.made[e].key);
            && t == |q.tracks| && |p.tracks| == t + 1
            && AddRef(p, t) == q.(made := q.made[e := q.made[e].(tracks := q.made[e].tracks[scope := t])],
                                  tracks := q.tracks + [FreshTrack(e, scope, budget, q.cancelled)],
                                  budgets := budgets, nextBudget := AddRef(p, t).nextBudget)
  {
  }

  lemma JoinKeeps(r: Reg, call: nat, key: Key, scope: Scope)
    requires Safe(r) && Enabled(r, Attach(call, key, scope)) && Joins(r, key, scope)
    ensures Safe(Attached(r, call, key, scope))
  {
    hide RefsExact, Incarnations, TrackOk, Budgets, KeyOf, Attached, Placed, Shared, HasProvider, Rank;
    var t, q := r.made[r.entries[key]].tracks[scope], Attached(r, call, key, scope);
    JoinShape(r, call, key, scope);
    JoinTarget(r, key, scope);
    assert TrackOk(r.tracks[t]);
    JoinedOk(r.tracks[t]);
    JoinRefs(r, q, call, t);
    JoinPlaces(r, q, t);
    PlacedIsShared(q);
    JoinIncarnations(r, q);
    BudgetsStay(r, q);
  }

  lemma JoinTarget(r: Reg, key: Key, scope: Scope)
    requires Sane(r) && Placed(r) && Joins(r, key, scope)
    ensures var t := r.made[r.entries[key]].tracks[scope]; t < |r.tracks| && r.tracks[t].refs > 0
  {
    assert SlotOk(r, r.entries[key], scope);
  }

  lemma JoinIncarnations(r: Reg, q: Reg)
    requires Incarnations(r) && q.made == r.made && q.incarnations == r.incarnations
    ensures Incarnations(q)
  {
  }

  lemma JoinedOk(x: Track)
    requires TrackOk(x) && x.refs > 0
    ensures TrackOk(x.(refs := x.refs + 1))
  {
  }

  lemma JoinRefs(r: Reg, q: Reg, call: nat, t: nat)
    requires RefsExact(r) && t < |r.tracks| && call !in r.waiting && q.leases == r.leases
    requires q.tracks == r.tracks[t := r.tracks[t].(refs := r.tracks[t].refs + 1)] && q.waiting == r.waiting[call := t]
    ensures RefsExact(q)
  {
    hide Of;
    forall u | 0 <= u < |q.tracks| ensures RefsAt(q, u) {
      assert RefsAt(r, u);
      OneMore(r.waiting, call, t, u);
    }
  }

  lemma JoinPlaces(r: Reg, q: Reg, t: nat)
    requires Sane(r) && Sane(q) && Placed(r) && t < |r.tracks| && r.tracks[t].refs > 0 && q.made == r.made && q.entries == r.entries
    requires q.tracks == r.tracks[t := r.tracks[t].(refs := r.tracks[t].refs + 1)]
    ensures Placed(q)
  {
    forall f, s | 0 <= f < |q.made| && s in q.made[f].tracks ensures SlotOk(q, f, s) { assert SlotOk(r, f, s); }
    forall f | 0 <= f < |q.made| ensures EntryOk(q, f) { assert EntryOk(r, f); }
    forall u | 0 <= u < |q.tracks| && q.tracks[u].refs > 0 ensures InPlace(q, u) { assert InPlace(r, u); }
  }

  /** The shape of MakeShape, as a relation. */
  ghost predicate Made(r: Reg, q: Reg, call: nat, key: Key, scope: Scope) {
    var e, n := EntryFor(r, key), |r.tracks|;
    && e < |MadeFor(r, key)| && MadeFor(r, key)[e].key == key && !MadeFor(r, key)[e].retired
    && q.made == MadeFor(r, key)[e := MadeFor(r, key)[e].(tracks := MadeFor(r, key)[e].tracks[scope := n])]
    && q.entries == r.entries[key := e] && q.incarnations == |q.made| - |r.made| + r.incarnations
    && q.tracks == r.tracks + [FreshTrack(e, scope, ForStore(r.budgets, r.nextBudget, key).1, r.cancelled)]
    && q.budgets == ForStore(r.budgets, r.nextBudget, key).0 && q.waiting == r.waiting[call := n] && q.leases == r.leases
    && q.closed == r.closed && q.closing == r.closing && q.closeDone == r.closeDone && q.cancelled == r.cancelled
  }

  lemma MakeSane(r: Reg, q: Reg, call: nat, key: Key, scope: Scope)
    requires Sane(r) && Made(r, q, call, key, scope)
    ensures Sane(q)
  {
    forall f, s | 0 <= f < |q.made| && s in q.made[f].tracks ensures q.made[f].tracks[s] < |q.tracks| {
      if f < |r.made| && s in r.made[f].tracks { assert r.made[f].tracks[s] < |r.tracks|; }
    }
  }

  lemma MakeRefs(r: Reg, q: Reg, call: nat, key: Key, scope: Scope)
    requires Sane(r) && RefsExact(r) && call !in r.waiting && Made(r, q, call, key, scope)
    ensures RefsExact(q)
  {
    hide Of, MadeFor, ForStore;
    forall u | 0 <= u < |q.tracks| ensures RefsAt(q, u) {
      OneMore(r.waiting, call, |r.tracks|, u);
      if u < |r.tracks| {
        assert RefsAt(r, u);
      } else {
        NoneOf(r.waiting, u);
        NoneOf(r.leases, u);
      }
    }
  }

  lemma NoneOf(m: map<nat, nat>, t: nat)
    requires forall c | c in m :: m[c] < t
    ensures |Of(m, t)| == 0
  {
    assert Of(m, t) == {};
  }

  lemma MakePlaces(r: Reg, q: Reg, call: nat, key: Key, scope: Scope)
    requires Sane(r) && Sane(q) && Placed(r) && !Joins(r, key, scope) && Made(r, q, call, key, scope)
    ensures Placed(q)
  {
    hide ForStore;
    MakeEntries(r, q, call, key, scope);
    hide EntryOk;
    forall f, s | 0 <= f < |q.made| && s in q.made[f].tracks ensures SlotOk(q, f, s) {
      if f < |r.made| && s in r.made[f].tracks { assert SlotOk(r, f, s); }
    }
    forall u | 0 <= u < |q.tracks| && q.tracks[u].refs > 0 ensures InPlace(q, u) {
      if u < |r.tracks| { assert InPlace(r, u); }
    }
  }

  lemma MakeEntries(r: Reg, q: Reg, call: nat, key: Key, scope: Scope)
    requires Sane(r) && Sane(q) && Placed(r) && !Joins(r, key, scope) && Made(r, q, call, key, scope)
    ensures forall f | 0 <= f < |q.made| :: EntryOk(q, f)
    ensures forall k | k in q.entries :: q.made[q.entries[k]].key == k && !q.made[q.entries[k]].retired
  {
    hide ForStore, SlotOk, InPlace;
    forall f | 0 <= f < |q.made| ensures EntryOk(q, f) {
      if f < |r.made| { assert EntryOk(r, f); }
      if f == EntryFor(r, key) {
        assert scope in q.made[f].tracks;
      } else {
        assert f < |r.made| && q.made[f] == r.made[f];
      }
    }
  }

  lemma MakeKeys(r: Reg, q: Reg, call: nat, key: Key, scope: Scope)
    requires Sane(r) && Sane(q) && Made(r, q, call, key, scope)
    ensures KeyOf(q, |r.tracks|) == key && forall u | 0 <= u < |r.tracks| :: KeyOf(q, u) == KeyOf(r, u)
  {
    hide ForStore;
    forall u | 0 <= u < |r.tracks| ensures KeyOf(q, u) == KeyOf(r, u) { assert q.tracks[u] == r.tracks[u]; }
  }

  lemma MakeBudgets(r: Reg, q: Reg, call: nat, key: Key, scope: Scope)
    requires Sane(r) && Sane(q) && Budgets(r) && Made(r, q, call, key, scope)
    ensures Budgets(q)
  {
    hide KeyOf, MadeFor, EntryFor, BudgetAt, FreshTrack, ForStore;
    MakeKeys(r, q, call, key, scope);
    FreshHolds(EntryFor(r, key), scope, ForStore(r.budgets, r.nextBudget, key).1, r.cancelled);
    forall k: Key ensures BudgetAt(q, k) {
      MakeBudgetAt(r, q, key, k, |r.tracks|);
    }
  }

  lemma MakeBudgetAt(r: Reg, q: Reg, key: Key, k: Key, n: nat)
    requires Sane(r) && Sane(q) && n == |r.tracks| && |q.tracks| == n + 1 && q.tracks[..n] == r.tracks && HoldsBudget(q.tracks[n]) && KeyOf(q, n) == key
    requires forall u | 0 <= u < n :: KeyOf(q, u) == KeyOf(r, u)
    requires (q.budgets, q.tracks[n].budget) == ForStore(r.budgets, r.nextBudget, key) && BudgetAt(r, k)
    ensures BudgetAt(q, k)
  {
    hide KeyOf, BudgetHolders, HoldsBudget;
    MakeHolders(r, q, k, n);
  }

  lemma FreshHolds(e: nat, scope: Scope, budget: nat, cancelled: bool)
    ensures HoldsBudget(FreshTrack(e, scope, budget, cancelled)) && FreshTrack(e, scope, budget, cancelled).budget == budget
  {
  }

  lemma MakeHolders(r: Reg, q: Reg, k: Key, n: nat)
    requires Sane(r) && Sane(q) && n == |r.tracks| && |q.tracks| == n + 1 && q.tracks[..n] == r.tracks && HoldsBudget(q.tracks[n])
    requires forall u | 0 <= u < n :: KeyOf(q, u) == KeyOf(r, u)
    ensures BudgetHolders(q, k) == BudgetHolders(r, k) + if KeyOf(q, n) == k then {n} else {}
    ensures n !in BudgetHolders(r, k)
    ensures forall u | u in BudgetHolders(r, k) :: u < n && q.tracks[u] == r.tracks[u]
  {
    hide KeyOf, HoldsBudget;
    forall u | 0 <= u < n ensures q.tracks[u] == r.tracks[u] { assert q.tracks[..n][u] == r.tracks[u]; }
  }

  lemma MakeRest(r: Reg, q: Reg, call: nat, key: Key, scope: Scope)
    requires Incarnations(r) && TracksOk(r) && Shutdown(r) && !r.closed && Made(r, q, call, key, scope)
    ensures Incarnations(q) && TracksOk(q) && Shutdown(q)
  {
    hide ForStore;
    forall u | 0 <= u < |q.tracks| ensures TrackOk(q.tracks[u]) {
      if u < |r.tracks| { assert TrackOk(r.tracks[u]); }
    }
  }

  lemma AttachKeeps(r: Reg, call: nat, key: Key, scope: Scope)
    requires Safe(r) && Enabled(r, Attach(call, key, scope))
    ensures Safe(Next(r, Attach(call, key, scope)))
  {
    hide RefsExact, Incarnations, TracksOk, Budgets, Attached, Placed, Shared, Shutdown, MadeFor, ForStore;
    var q := Attached(r, call, key, scope);
    if Joins(r, key, scope) {
      JoinKeeps(r, call, key, scope);
    } else {
      MakeShape(r, call, key, scope);
      assert Made(r, q, call, key, scope);
      MakeSane(r, q, call, key, scope);
      MakeRefs(r, q, call, key, scope);
      MakePlaces(r, q, call, key, scope);
      PlacedIsShared(q);
      MakeBudgets(r, q, call, key, scope);
      MakeRest(r, q, call, key, scope);
    }
  }

  // ----- closing

  lemma ShutKeeps(r: Reg)
    requires Safe(r)
    ensures Safe(Shut(r))
  {
    hide RefsExact, Budgets, Shared, Incarnations, TrackOk, Placed, HasProvider, Rank;
    if !r.closed {
      var q := Shut(r);
      forall t | 0 <= t < |r.tracks| ensures ShutTrack(r.tracks[t], q.tracks[t]) && TrackOk(q.tracks[t]) {
        assert TrackOk(r.tracks[t]);
        FinalizingOk(r.tracks[t]);
      }
      ShutShape(r);
      ShutRefs(r, q);
      ShutSharing(r, q);
      ShutBudgets(r, q);
    }
  }

  predicate ShutTrack(x: Track, y: Track) {
    SameUse(x, y) && (HoldsBudget(x) <==> HoldsBudget(y)) && y.stage != Idle && (x.live || y.stage == Finalized)
  }

  lemma FinalizingOk(x: Track)
    requires TrackOk(x)
    ensures TrackOk(Finalizing(x)) && ShutTrack(x, if x.live then Finalizing(x) else x)
  {
  }

  lemma ShutShape(r: Reg)
    requires Sane(r) && Incarnations(r) && !r.closed
    ensures Sane(Shut(r)) && Incarnations(Shut(r))
    ensures |Shut(r).made| == |r.made| && forall e | 0 <= e < |r.made| :: Shut(r).made[e].key == r.made[e].key
  {
    hide Finalizing;
    var q := Shut(r);
    forall t | 0 <= t < |q.tracks| ensures q.tracks[t].entry < |q.made| { ShutEntry(r.tracks[t]); }
  }

  lemma ShutEntry(x: Track)
    ensures Finalizing(x).entry == x.entry
  {
  }

  lemma ShutRefs(r: Reg, q: Reg)
    requires RefsExact(r) && |q.tracks| == |r.tracks| && q.waiting == r.waiting && q.leases == r.leases
    requires forall t | 0 <= t < |r.tracks| :: ShutTrack(r.tracks[t], q.tracks[t])
    ensures RefsExact(q)
  {
    forall t | 0 <= t < |q.tracks| ensures RefsAt(q, t) { assert RefsAt(r, t) && ShutTrack(r.tracks[t], q.tracks[t]); }
  }

  lemma ShutSharing(r: Reg, q: Reg)
    requires Sane(r) && Sane(q) && Shared(r) && |q.tracks| == |r.tracks|
    requires forall t | 0 <= t < |r.tracks| :: ShutTrack(r.tracks[t], q.tracks[t])
    requires |q.made| == |r.made| && forall e | 0 <= e < |r.made| :: q.made[e].key == r.made[e].key
    ensures Shared(q)
  {
    forall t | 0 <= t < |q.tracks| ensures SameUse(r.tracks[t], q.tracks[t]) && KeyOf(r, t) == KeyOf(q, t) { assert ShutTrack(r.tracks[t], q.tracks[t]); }
  }

  lemma ShutBudgets(r: Reg, q: Reg)
    requires Sane(r) && Sane(q) && Budgets(r) && |q.tracks| == |r.tracks| && q.budgets == r.budgets
    requires forall t | 0 <= t < |r.tracks| :: ShutTrack(r.tracks[t], q.tracks[t])
    requires |q.made| == |r.made| && forall e | 0 <= e < |r.made| :: q.made[e].key == r.made[e].key
    ensures Budgets(q)
  {
    hide HoldsBudget;
    forall t | 0 <= t < |q.tracks| ensures q.tracks[t].budget == r.tracks[t].budget && KeyOf(r, t) == KeyOf(q, t) && (HoldsBudget(q.tracks[t]) <==> HoldsBudget(r.tracks[t])) {
      assert ShutTrack(r.tracks[t], q.tracks[t]);
    }
    forall k: Key ensures BudgetAt(q, k) {
      assert BudgetAt(r, k);
      assert BudgetHolders(q, k) == BudgetHolders(r, k);
    }
  }

  lemma CompleteKeeps(r: Reg)
    requires Safe(r) && Enabled(r, CloseCompletes)
    ensures Safe(Next(r, CloseCompletes))
  {
    hide Placed, Incarnations, TrackOk, RefsExact, Shared, Budgets, CancelRoot;
    var p, q := CancelRoot(r), Next(r, CloseCompletes);
    RootKeeps(r);
    AllFinalizedStay(r, p);
    assert SameShape(p, q);
    ShapeKeeps(p, q);
    BudgetsStay(p, q);
  }

  lemma RootStep(r: Reg)
    requires Sane(r)
    ensures Enabled(r, RootCancelled) && Next(r, RootCancelled) == CancelRoot(r)
  {
  }

  lemma AllFinalizedStay(r: Reg, p: Reg)
    requires Sane(r) && Shutdown(r) && Enabled(r, CloseCompletes) && p == CancelRoot(r)
    ensures p.closed && forall t | 0 <= t < |p.tracks| :: p.tracks[t].stage == Finalized
  {
  }

  // ----- every step, and every run

  lemma SafeKeeps(r: Reg, step: Step)
    requires Safe(r) && Enabled(r, step)
    ensures Safe(Next(r, step))
  {
    hide RefsExact, Incarnations, TracksOk, Budgets, Placed, Shared, Shutdown, Enabled, Next;
    match step {
      case Attach(call, key, scope) => AttachKeeps(r, call, key, scope);
      case Grant(call, lease) => GrantKeeps(r, call, lease);
      case Withdraw(call) => WithdrawKeeps(r, call);
      case Release(lease) => LeaseKeeps(r, lease);
      case Finalize(t) => FinalizeKeeps(r, t);
      case Close => CloseKeeps(r);
      case CloseCompletes => CompleteKeeps(r);
      case RootCancelled =>
        RootKeeps(r);
        RootStep(r);
      case _ => WorkKeeps(r, step);
    }
  }

  lemma CloseKeeps(r: Reg)
    requires Safe(r) && Enabled(r, Close)
    ensures Safe(Next(r, Close))
  {
    hide Shut, RefsExact, Incarnations, TracksOk, Budgets, Placed, Shared, Shutdown;
    ShutKeeps(r);
  }
}
