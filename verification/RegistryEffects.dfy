/** What becomes of a store: as asked for, left alone while someone uses it, abandoned if it is retired
    before its loader starts, and torn down to the end otherwise. */
module RegistryEffects {
  import opened Wrappers
  import opened RegistryModel
  import opened RegistrySafety
  import opened RegistryTheorems

  // ----- a track's flags are those of its finalizer

  predicate FlagsFit(x: Track, closed: bool, cancelled: bool) {
    && (x.closed <==> x.stage != Idle)
    && (x.cancelled <==> cancelled || Rank(x.stage) >= 2)
    && (x.loaderStopped <==> Rank(x.stage) >= 4)
    && (x.detailsStale <==> Rank(x.stage) >= 6)
    && (x.creation != Running ==> x.jobs == 0 && x.loads == 0 && !x.maintaining)
    && (!closed && x.refs > 0 ==> x.stage == Idle)
  }

  ghost predicate AllFit(r: Reg) {
    forall t | 0 <= t < |r.tracks| :: FlagsFit(r.tracks[t], r.closed, r.cancelled)
  }

  /** A lease is given out on a running store alone. */
  ghost predicate LeasedRun(r: Reg) {
    forall l | l in r.leases :: r.leases[l] < |r.tracks| && r.tracks[r.leases[l]].creation == Running
  }

  lemma FitsAfter(r: Reg, step: Step)
    requires Safe(r) && Enabled(r, step) && AllFit(r)
    ensures AllFit(Next(r, step))
  {
    hide RefsExact, Incarnations, Budgets, Placed, Shared, Rank, TrackOk, Enabled, Next, AllFit;
    match step {
      case Attach(call, key, scope) => AttachFits(r, call, key, scope);
      case Withdraw(call) => WithdrawFits(r, call);
      case Release(lease) => LeaseFits(r, lease);
      case Close => ShutFits(r);
      case CloseCompletes => CompletionFits(r);
      case RootCancelled =>
        RootFits(r);
        RootStep(r);
      case Grant(call, lease) => GrantFits(r, call, lease);
      case Finalize(t) => FinalizeFits(r, t);
      case _ => WorkFits(r, step);
    }
  }

  lemma WithdrawIs(r: Reg, call: nat)
    requires Sane(r) && Enabled(r, Withdraw(call))
    ensures call in r.waiting && r.waiting[call] < |r.tracks| && r.tracks[r.waiting[call]].entry < |r.made|
    ensures Next(r, Withdraw(call)) == ReleaseRef(r.(waiting := r.waiting - {call}), r.waiting[call])
  {
  }

  lemma LeaseIs(r: Reg, lease: nat)
    requires Sane(r) && Enabled(r, Release(lease))
    ensures lease in r.leases && r.leases[lease] < |r.tracks| && r.tracks[r.leases[lease]].entry < |r.made|
    ensures Next(r, Release(lease)) == ReleaseRef(r.(leases := r.leases - {lease}), r.leases[lease])
  {
  }

  lemma WithdrawFits(r: Reg, call: nat)
    requires Sane(r) && RefsExact(r) && Enabled(r, Withdraw(call)) && AllFit(r)
    ensures AllFit(Next(r, Withdraw(call)))
  {
    hide RefsExact, FlagsFit, ReleaseRef, Next, Enabled;
    WithdrawIs(r, call);
    HeldHasRefs(r, r.waiting, call);
    ReleaseFits(r.(waiting := r.waiting - {call}), r.waiting[call]);
  }

  lemma LeaseFits(r: Reg, lease: nat)
    requires Sane(r) && RefsExact(r) && Enabled(r, Release(lease)) && AllFit(r)
    ensures AllFit(Next(r, Release(lease)))
  {
    hide RefsExact, FlagsFit, ReleaseRef, Next, Enabled;
    LeaseIs(r, lease);
    HeldHasRefs(r, r.leases, lease);
    ReleaseFits(r.(leases := r.leases - {lease}), r.leases[lease]);
  }

  lemma GrantFits(r: Reg, call: nat, lease: nat)
    requires Sane(r) && Enabled(r, Grant(call, lease)) && AllFit(r)
    ensures AllFit(Next(r, Grant(call, lease)))
  {
  }

  lemma WorkFits(r: Reg, step: Step)
    requires Sane(r) && Enabled(r, step) && AllFit(r)
    requires step.FactoryFails? || step.FactoryReturns? || step.StartLoader? || step.JobStarts? || step.JobEnds?
             || step.LoadStarts? || step.LoadEnds? || step.MaintenanceStarts? || step.MaintenanceEnds?
    ensures AllFit(Next(r, step))
  {
    hide Rank;
  }

  lemma FinalizeFits(r: Reg, t: nat)
    requires Sane(r) && AllFit(r) && Enabled(r, Finalize(t))
    ensures AllFit(Next(r, Finalize(t)))
  {
    hide AllFit, Enabled, Next, GiveBack, FlagsFit, CanFinalize, FinalizeTrack;
    FinalizeIs(r, t);
    FitAt(r, t);
    TurnFits(r.tracks[t], r.closed, r.cancelled);
    OneFits(r, t, FinalizeTrack(r.tracks[t]));
    SameFits(Changed(r, t, FinalizeTrack(r.tracks[t])), Next(r, Finalize(t)));
  }

  lemma FitAt(r: Reg, t: nat)
    requires AllFit(r) && t < |r.tracks|
    ensures FlagsFit(r.tracks[t], r.closed, r.cancelled)
  {
  }

  lemma TurnFits(x: Track, closed: bool, cancelled: bool)
    requires FlagsFit(x, closed, cancelled) && CanFinalize(x)
    ensures FlagsFit(FinalizeTrack(x), closed, cancelled)
  {
  }

  lemma OneFits(r: Reg, t: nat, x: Track)
    requires AllFit(r) && t < |r.tracks| && FlagsFit(x, r.closed, r.cancelled)
    ensures AllFit(Changed(r, t, x))
  {
    hide FlagsFit;
  }

  lemma SameFits(r: Reg, q: Reg)
    requires AllFit(r) && q.tracks == r.tracks && q.closed == r.closed && q.cancelled == r.cancelled
    ensures AllFit(q)
  {
    hide FlagsFit;
  }

  lemma RootFits(r: Reg)
    requires AllFit(r)
    ensures AllFit(CancelRoot(r))
  {
    hide Rank;
    forall t | 0 <= t < |r.tracks| ensures FlagsFit(CancelRoot(r).tracks[t], r.closed, true) { FitAt(r, t); }
  }

  lemma CompletionFits(r: Reg)
    requires Sane(r) && AllFit(r) && Enabled(r, CloseCompletes)
    ensures AllFit(Next(r, CloseCompletes))
  {
    RootFits(r);
  }

  lemma ShutFits(r: Reg)
    requires Sane(r) && TracksOk(r) && AllFit(r)
    ensures AllFit(Next(r, Close))
  {
    hide FlagsFit, TrackOk;
    if !r.closed {
      forall t | 0 <= t < |r.tracks| ensures FlagsFit(Shut(r).tracks[t], true, r.cancelled) {
        ClosedFits(r.tracks[t], r.cancelled);
      }
    }
  }

  lemma ClosedFits(x: Track, cancelled: bool)
    requires TrackOk(x) && FlagsFit(x, false, cancelled)
    ensures FlagsFit(if x.live then Finalizing(x) else x, true, cancelled)
  {
  }

  lemma AttachFits(r: Reg, call: nat, key: Key, scope: Scope)
    requires Sane(r) && (!r.closed ==> Placed(r)) && AllFit(r) && Enabled(r, Attach(call, key, scope))
    ensures AllFit(Next(r, Attach(call, key, scope)))
  {
    hide Placed, Attached, MadeFor, ForStore, EntryFor;
    if Joins(r, key, scope) {
      JoinShape(r, call, key, scope);
      JoinTarget(r, key, scope);
    } else {
      MakeShape(r, call, key, scope);
    }
  }

  lemma ReleaseFits(r: Reg, t: nat)
    requires t < |r.tracks| && r.tracks[t].entry < |r.made| && AllFit(r) && r.tracks[t].refs > 0
    ensures AllFit(ReleaseRef(r, t))
  {
    hide ReleaseRef, FlagsFit, Given;
    ReleaseIs(r, t);
    GivenFits(r.tracks[t], r.closed, r.cancelled);
  }

  lemma GivenFits(x: Track, closed: bool, cancelled: bool)
    requires FlagsFit(x, closed, cancelled) && x.refs > 0
    ensures FlagsFit(Given(x), closed, cancelled)
  {
  }

  // ----- leases

  lemma LeasedAfter(r: Reg, step: Step)
    requires Safe(r) && Enabled(r, step) && LeasedRun(r)
    ensures LeasedRun(Next(r, step))
  {
    hide Safe, Enabled, Next, SameStore, CreationMoves;
    SafeIsSane(r);
    CreationStays(r, step);
    LeasesCome(r, step);
    var q := Next(r, step);
    forall l | l in q.leases ensures q.leases[l] < |q.tracks| && q.tracks[q.leases[l]].creation == Running {
      LeasedTrack(r, step, l);
      StillRuns(q.leases[l], r.tracks[q.leases[l]], q.tracks[q.leases[l]], step);
    }
  }

  lemma LeasedTrack(r: Reg, step: Step, l: nat)
    requires Safe(r) && Enabled(r, step) && LeasedRun(r) && l in Next(r, step).leases
    ensures Next(r, step).leases[l] < |r.tracks| && r.tracks[Next(r, step).leases[l]].creation == Running
  {
    hide Enabled, Next, RefsExact, Incarnations, TracksOk, Shared, Budgets, Shutdown, Placed;
    LeasesCome(r, step);
  }

  lemma StillRuns(t: nat, x: Track, y: Track, step: Step)
    requires CreationMoves(t, x, y, step) && x.creation == Running
    ensures y.creation == Running
  {
  }

  /** What a step does to each store: its factory answers, its loader starts or is abandoned, or one piece of
      work begins or ends; a new store has none of it. */
  lemma CreationStays(r: Reg, step: Step)
    requires Safe(r) && Enabled(r, step)
    ensures |Next(r, step).tracks| >= |r.tracks| && (!step.Attach? ==> |Next(r, step).tracks| == |r.tracks|)
    ensures forall t | 0 <= t < |r.tracks| :: SameStore(r.tracks[t], Next(r, step).tracks[t]) && CreationMoves(t, r.tracks[t], Next(r, step).tracks[t], step)
    ensures forall t | |r.tracks| <= t < |Next(r, step).tracks| :: Begins(Next(r, step).tracks[t])
  {
    hide RefsExact, Incarnations, Budgets, Placed, Shared, TracksOk, Shutdown, Enabled, Next, SameStore, CreationMoves;
    match step {
      case Attach(call, key, scope) => AttachCreation(r, call, key, scope);
      case Withdraw(call) => WithdrawIs(r, call); ReleaseCreation(r.(waiting := r.waiting - {call}), r.waiting[call], step);
      case Release(lease) => LeaseIs(r, lease); ReleaseCreation(r.(leases := r.leases - {lease}), r.leases[lease], step);
      case Close => ShutCreation(r);
      case Finalize(t) => FinalizeCreation(r, t);
      case Grant(_, _) => OtherCreation(r, step);
      case CloseCompletes => OtherCreation(r, step);
      case RootCancelled => OtherCreation(r, step);
      case _ => WorkCreation(r, step);
    }
  }

  predicate SameStore(x: Track, y: Track) {
    y.scope == x.scope && y.entry == x.entry
  }

  predicate CreationMoves(t: nat, x: Track, y: Track, step: Step) {
    && (if step == FactoryFails(t) then x.creation == InFactory && y.creation == Failed
        else if step == FactoryReturns(t) then x.creation == InFactory && y.creation == Created
        else if step == StartLoader(t) then x.creation == Created && (y.creation == Running || y.creation == Abandoned)
        else y.creation == x.creation)
    && y.jobs == x.jobs + Change(step, JobStarts(t), JobEnds(t))
    && y.loads == x.loads + Change(step, LoadStarts(t), LoadEnds(t))
    && Busy(y) == Busy(x) + Change(step, MaintenanceStarts(t), MaintenanceEnds(t))
  }

  function Change(step: Step, begins: Step, ends: Step): int {
    if step == begins then 1 else if step == ends then -1 else 0
  }

  function Busy(x: Track): nat {
    if x.maintaining then 1 else 0
  }

  predicate Begins(x: Track) {
    x.creation == InFactory && x.jobs == 0 && x.loads == 0 && !x.maintaining
  }

  lemma AttachCreation(r: Reg, call: nat, key: Key, scope: Scope)
    requires Sane(r) && (!r.closed ==> Placed(r)) && Enabled(r, Attach(call, key, scope))
    ensures var q := Next(r, Attach(call, key, scope));
            && |q.tracks| >= |r.tracks| && (forall t | 0 <= t < |r.tracks| :: SameStore(r.tracks[t], q.tracks[t]) && CreationMoves(t, r.tracks[t], q.tracks[t], Attach(call, key, scope)))
            && (forall t | |r.tracks| <= t < |q.tracks| :: Begins(q.tracks[t]))
  {
    hide Attached, Placed;
    AttachTracks(r, call, key, scope);
  }

  lemma ReleaseCreation(r: Reg, t: nat, step: Step)
    requires t < |r.tracks| && r.tracks[t].entry < |r.made| && (step.Withdraw? || step.Release?)
    ensures var q := ReleaseRef(r, t);
            |q.tracks| == |r.tracks| && forall u | 0 <= u < |r.tracks| :: SameStore(r.tracks[u], q.tracks[u]) && CreationMoves(u, r.tracks[u], q.tracks[u], step)
  {
    hide ReleaseRef;
    ReleaseIs(r, t);
  }

  lemma ShutCreation(r: Reg)
    requires Sane(r)
    ensures var q := Next(r, Close);
            |q.tracks| == |r.tracks| && forall u | 0 <= u < |r.tracks| :: SameStore(r.tracks[u], q.tracks[u]) && CreationMoves(u, r.tracks[u], q.tracks[u], Close)
  {
  }

  lemma FinalizeCreation(r: Reg, t: nat)
    requires Sane(r) && Enabled(r, Finalize(t))
    ensures var q := Next(r, Finalize(t));
            |q.tracks| == |r.tracks| && forall u | 0 <= u < |r.tracks| :: SameStore(r.tracks[u], q.tracks[u]) && CreationMoves(u, r.tracks[u], q.tracks[u], Finalize(t))
  {
    hide GiveBack, Next, Enabled, FinalizeTrack, CanFinalize;
    FinalizeIs(r, t);
    TurnKeepsStore(r.tracks[t]);
  }

  lemma TurnKeepsStore(x: Track)
    requires CanFinalize(x)
    ensures var y := FinalizeTrack(x);
            SameStore(x, y) && y.creation == x.creation && y.jobs == x.jobs && y.loads == x.loads && y.maintaining == x.maintaining
  {
    match x.stage {
      case Starting =>
      case AwaitReady =>
      case Stopping =>
      case Draining =>
      case _ =>
    }
  }

  lemma OtherCreation(r: Reg, step: Step)
    requires Sane(r) && Enabled(r, step) && (step.Grant? || step.CloseCompletes? || step.RootCancelled?)
    ensures |Next(r, step).tracks| == |r.tracks|
    ensures forall t | 0 <= t < |r.tracks| :: SameStore(r.tracks[t], Next(r, step).tracks[t]) && CreationMoves(t, r.tracks[t], Next(r, step).tracks[t], step)
  {
    hide GiveBack, FinalizeTrack, Sane, Ready, CanFinalize;
  }

  lemma WorkCreation(r: Reg, step: Step)
    requires Sane(r) && Enabled(r, step)
    requires step.FactoryFails? || step.FactoryReturns? || step.StartLoader? || step.JobStarts? || step.JobEnds?
             || step.LoadStarts? || step.LoadEnds? || step.MaintenanceStarts? || step.MaintenanceEnds?
    ensures |Next(r, step).tracks| == |r.tracks|
    ensures forall t | 0 <= t < |r.tracks| :: SameStore(r.tracks[t], Next(r, step).tracks[t]) && CreationMoves(t, r.tracks[t], Next(r, step).tracks[t], step)
  {
    hide Sane, Next, Enabled, SameStore, CreationMoves;
    WorkMovesOne(r, step);
    forall t | 0 <= t < |r.tracks| && t != step.t
      ensures SameStore(r.tracks[t], Next(r, step).tracks[t]) && CreationMoves(t, r.tracks[t], Next(r, step).tracks[t], step)
    {
      NothingMoves(t, r.tracks[t], step);
    }
  }

  lemma WorkMovesOne(r: Reg, step: Step)
    requires Sane(r) && Enabled(r, step)
    requires step.FactoryFails? || step.FactoryReturns? || step.StartLoader? || step.JobStarts? || step.JobEnds?
             || step.LoadStarts? || step.LoadEnds? || step.MaintenanceStarts? || step.MaintenanceEnds?
    ensures step.t < |r.tracks| == |Next(r, step).tracks| && Next(r, step).tracks == r.tracks[step.t := Next(r, step).tracks[step.t]]
    ensures var x, y := r.tracks[step.t], Next(r, step).tracks[step.t]; SameStore(x, y) && CreationMoves(step.t, x, y, step)
  {
    hide Sane, Next, Enabled, SameStore, CreationMoves;
    match step {
      case FactoryFails(_) => FactoryMoves(r, step);
      case FactoryReturns(_) => FactoryMoves(r, step);
      case StartLoader(_) => StartMoves(r, step);
      case JobStarts(_) => JobMoves(r, step);
      case JobEnds(_) => JobMoves(r, step);
      case LoadStarts(_) => LoadMoves(r, step);
      case LoadEnds(_) => LoadMoves(r, step);
      case _ => MaintenanceMoves(r, step);
    }
  }

  lemma FactoryMoves(r: Reg, step: Step)
    requires Sane(r) && Enabled(r, step) && (step.FactoryFails? || step.FactoryReturns?)
    ensures step.t < |r.tracks| == |Next(r, step).tracks| && Next(r, step).tracks == r.tracks[step.t := Next(r, step).tracks[step.t]]
    ensures var x, y := r.tracks[step.t], Next(r, step).tracks[step.t]; SameStore(x, y) && CreationMoves(step.t, x, y, step)
  {
    hide Sane;
  }

  lemma StartMoves(r: Reg, step: Step)
    requires Sane(r) && Enabled(r, step) && step.StartLoader?
    ensures step.t < |r.tracks| == |Next(r, step).tracks| && Next(r, step).tracks == r.tracks[step.t := Next(r, step).tracks[step.t]]
    ensures var x, y := r.tracks[step.t], Next(r, step).tracks[step.t]; SameStore(x, y) && CreationMoves(step.t, x, y, step)
  {
    hide Sane;
  }

  lemma JobMoves(r: Reg, step: Step)
    requires Sane(r) && Enabled(r, step) && (step.JobStarts? || step.JobEnds?)
    ensures step.t < |r.tracks| == |Next(r, step).tracks| && Next(r, step).tracks == r.tracks[step.t := Next(r, step).tracks[step.t]]
    ensures var x, y := r.tracks[step.t], Next(r, step).tracks[step.t]; SameStore(x, y) && CreationMoves(step.t, x, y, step)
  {
    hide Sane;
  }

  lemma LoadMoves(r: Reg, step: Step)
    requires Sane(r) && Enabled(r, step) && (step.LoadStarts? || step.LoadEnds?)
    ensures step.t < |r.tracks| == |Next(r, step).tracks| && Next(r, step).tracks == r.tracks[step.t := Next(r, step).tracks[step.t]]
    ensures var x, y := r.tracks[step.t], Next(r, step).tracks[step.t]; SameStore(x, y) && CreationMoves(step.t, x, y, step)
  {
    hide Sane;
  }

  lemma MaintenanceMoves(r: Reg, step: Step)
    requires Sane(r) && Enabled(r, step) && (step.MaintenanceStarts? || step.MaintenanceEnds?)
    ensures step.t < |r.tracks| == |Next(r, step).tracks| && Next(r, step).tracks == r.tracks[step.t := Next(r, step).tracks[step.t]]
    ensures var x, y := r.tracks[step.t], Next(r, step).tracks[step.t]; SameStore(x, y) && CreationMoves(step.t, x, y, step)
  {
    hide Sane;
  }

  lemma NothingMoves(t: nat, x: Track, step: Step)
    requires step.FactoryFails? || step.FactoryReturns? || step.StartLoader? || step.JobStarts? || step.JobEnds?
             || step.LoadStarts? || step.LoadEnds? || step.MaintenanceStarts? || step.MaintenanceEnds?
    requires step.t != t
    ensures SameStore(x, x) && CreationMoves(t, x, x, step)
  {
  }

  lemma AttachTracks(r: Reg, call: nat, key: Key, scope: Scope)
    requires Sane(r) && Placed(r)
    ensures var q := Attached(r, call, key, scope);
            && |q.tracks| >= |r.tracks| && q.leases == r.leases && q.waiting.Keys == r.waiting.Keys + {call}
            && (forall c | c in r.waiting && c != call :: q.waiting[c] == r.waiting[c])
            && (forall t | 0 <= t < |r.tracks| :: q.tracks[t] == r.tracks[t].(refs := q.tracks[t].refs))
            && (forall t | |r.tracks| <= t < |q.tracks| :: Begins(q.tracks[t]))
  {
    hide Placed, Attached, MadeFor, ForStore, EntryFor, FreshTrack, Begins;
    if Joins(r, key, scope) {
      JoinTarget(r, key, scope);
      JoinShape(r, call, key, scope);
      JoinedTracks(r, r.made[r.entries[key]].tracks[scope]);
    } else {
      MakeShape(r, call, key, scope);
      FreshBegins(EntryFor(r, key), scope, ForStore(r.budgets, r.nextBudget, key).1, r.cancelled);
    }
  }

  lemma JoinedTracks(r: Reg, u: nat)
    requires u < |r.tracks|
    ensures var tracks := r.tracks[u := r.tracks[u].(refs := r.tracks[u].refs + 1)];
            forall t | 0 <= t < |r.tracks| :: tracks[t] == r.tracks[t].(refs := tracks[t].refs)
  {
  }

  lemma FreshBegins(e: nat, scope: Scope, budget: nat, cancelled: bool)
    ensures Begins(FreshTrack(e, scope, budget, cancelled))
  {
  }

  /** Leases and calls keep their track; only a grant makes a lease, on the track of a running store. */
  lemma LeasesCome(r: Reg, step: Step)
    requires Safe(r) && Enabled(r, step)
    ensures forall l | l in Next(r, step).leases ::
              if l in r.leases then Next(r, step).leases[l] == r.leases[l] else
                step.Grant? && step.lease == l && step.call in r.waiting && Next(r, step).leases[l] == r.waiting[step.call] && r.tracks[r.waiting[step.call]].creation == Running
    ensures forall c | c in Next(r, step).waiting && c in r.waiting :: Next(r, step).waiting[c] == r.waiting[c]
    ensures forall c | c in r.waiting && c !in Next(r, step).waiting :: step == Withdraw(c) || (step.Grant? && step.call == c)
  {
    hide RefsExact, Incarnations, Budgets, Placed, Shared, TracksOk, Shutdown, ReleaseRef, Attached, Shut, FinalizeTrack, CanFinalize, GiveBack;
    match step {
      case Attach(call, key, scope) => AttachTracks(r, call, key, scope);
      case Withdraw(call) => ReleaseIs(r.(waiting := r.waiting - {call}), r.waiting[call]);
      case Release(lease) => ReleaseIs(r.(leases := r.leases - {lease}), r.leases[lease]);
      case Grant(_, _) =>
      case Finalize(t) => FinalizeIs(r, t);
      case _ => HoldersStay(r, step);
    }
  }

  lemma HoldersStay(r: Reg, step: Step)
    requires Sane(r) && Enabled(r, step) && !step.Attach? && !step.Withdraw? && !step.Release? && !step.Grant? && !step.Finalize?
    ensures Next(r, step).waiting == r.waiting && Next(r, step).leases == r.leases
  {
    hide Sane, FinalizeTrack, GiveBack, ReleaseRef, CanFinalize, Attached, AllFinalizing, AllRetired, LiveTracks, Enabled;
  }

  ghost predicate Good(r: Reg) {
    Safe(r) && AllFit(r) && LeasedRun(r)
  }

  lemma {:induction false} GoodOverRuns(r: Reg, steps: seq<Step>)
    requires Good(r) && CanRun(r, steps)
    ensures Good(After(r, steps))
    decreases |steps|
  {
    hide Enabled, Next, Safe, AllFit, LeasedRun;
    if steps != [] {
      SafeKeeps(r, steps[0]);
      FitsAfter(r, steps[0]);
      LeasedAfter(r, steps[0]);
      GoodOverRuns(Next(r, steps[0]), steps[1..]);
    }
  }

  lemma GoodReachable(steps: seq<Step>)
    requires CanRun(Initial(), steps)
    ensures Good(After(Initial(), steps))
  {
    InitialIsSafe();
    GoodOverRuns(Initial(), steps);
  }

  /** While the registry is open, a store that someone waits for or holds is left alone: it is not
      retired, its loader and its details still take work, and its context goes on unless the root's
      has ended. */
  lemma UsedStoreStays(steps: seq<Step>, t: nat)
    requires CanRun(Initial(), steps)
    requires var r := After(Initial(), steps); !r.closed && t < |r.tracks| && Of(r.waiting, t) + Of(r.leases, t) != {}
    ensures var r := After(Initial(), steps); var x := r.tracks[t];
            && !x.closed && x.stage == Idle && !x.loaderStopped && !x.detailsStale && x.live && x.closes == 0
            && (x.cancelled <==> r.cancelled)
            && (t in r.leases.Values ==> x.creation == Running)
  {
    GoodReachable(steps);
    var r := After(Initial(), steps);
    UsedHasRefs(r, t);
    FitAt(r, t);
    assert TrackOk(r.tracks[t]);
  }

  lemma UsedHasRefs(r: Reg, t: nat)
    requires RefsExact(r) && t < |r.tracks| && Of(r.waiting, t) + Of(r.leases, t) != {}
    ensures r.tracks[t].refs > 0
  {
    assert RefsAt(r, t);
    if Of(r.waiting, t) == {} { assert |Of(r.leases, t)| > 0; }
  }

  // ----- abandoned stores

  /** Work of track `t` begins, or a lease on it is given out. */
  predicate Uses(r: Reg, step: Step, t: nat) {
    || step == JobStarts(t) || step == LoadStarts(t) || step == MaintenanceStarts(t)
    || (step.Grant? && step.call in r.waiting && r.waiting[step.call] == t)
  }

  ghost predicate NeverUsed(r: Reg, steps: seq<Step>, t: nat)
    requires CanRun(r, steps)
    decreases |steps|
  {
    steps == [] || (!Uses(r, steps[0], t) && NeverUsed(Next(r, steps[0]), steps[1..], t))
  }

  predicate Unused(r: Reg, t: nat)
    requires t < |r.tracks|
  {
    r.tracks[t].creation == Abandoned && r.tracks[t].jobs == 0 && r.tracks[t].loads == 0 && !r.tracks[t].maintaining && t !in r.leases.Values
  }

  lemma GoodIsUnused(r: Reg, t: nat)
    requires Good(r) && t < |r.tracks| && r.tracks[t].creation == Abandoned
    ensures Unused(r, t)
  {
    FitAt(r, t);
  }

  lemma {:induction false} AbandonedOverRuns(r: Reg, steps: seq<Step>, t: nat)
    requires Good(r) && CanRun(r, steps) && t < |r.tracks| && r.tracks[t].creation == Abandoned
    ensures t < |After(r, steps).tracks| && Unused(After(r, steps), t) && NeverUsed(r, steps, t)
    decreases |steps|
  {
    hide Good, Next, Enabled, Unused, Uses;
    GoodIsUnused(r, t);
    if steps != [] {
      AbandonedStep(r, steps[0], t);
      AbandonedOverRuns(Next(r, steps[0]), steps[1..], t);
    }
  }

  lemma AbandonedStep(r: Reg, step: Step, t: nat)
    requires Good(r) && Sane(r) && Enabled(r, step) && t < |r.tracks| && r.tracks[t].creation == Abandoned
    ensures Good(Next(r, step)) && t < |Next(r, step).tracks| && Next(r, step).tracks[t].creation == Abandoned && !Uses(r, step, t)
  {
    hide Safe, Next, Enabled, SameStore, CreationMoves, AllFit, LeasedRun, Uses;
    SafeKeeps(r, step);
    FitsAfter(r, step);
    LeasedAfter(r, step);
    CreationStays(r, step);
    StaysAbandoned(t, r.tracks[t], Next(r, step).tracks[t], step);
    NotUsed(r, step, t);
  }

  lemma StaysAbandoned(t: nat, x: Track, y: Track, step: Step)
    requires CreationMoves(t, x, y, step) && x.creation == Abandoned
    ensures y.creation == Abandoned
  {
  }

  lemma NotUsed(r: Reg, step: Step, t: nat)
    requires Sane(r) && Enabled(r, step) && t < |r.tracks| && r.tracks[t].creation == Abandoned
    ensures !Uses(r, step, t)
  {
  }

  /** A store that is retired or cancelled when its loader is to start never runs a job, a detail load or
      maintenance, and nobody gets a lease on it; any other store can run all three from then on. */
  lemma RetiredNeverRuns(before: seq<Step>, t: nat, later: seq<Step>)
    requires CanRun(Initial(), before) && Sane(After(Initial(), before)) && Enabled(After(Initial(), before), StartLoader(t))
    requires CanRun(Next(After(Initial(), before), StartLoader(t)), later)
    ensures var r := After(Initial(), before); var q := Next(r, StartLoader(t));
            if r.tracks[t].closed || r.tracks[t].cancelled then
              t < |After(q, later).tracks| && Unused(After(q, later), t) && NeverUsed(q, later, t)
            else
              Sane(q) && Enabled(q, JobStarts(t)) && Enabled(q, LoadStarts(t)) && Enabled(q, MaintenanceStarts(t))
  {
    hide Safe, Good;
    GoodReachable(before);
    var r := After(Initial(), before);
    var q := Next(r, StartLoader(t));
    FirstStep(r, StartLoader(t));
    GoodOverRuns(r, [StartLoader(t)]);
    StartedOrNot(r, t);
    if r.tracks[t].closed || r.tracks[t].cancelled {
      AbandonedOverRuns(q, later, t);
    }
  }

  lemma FirstStep(r: Reg, step: Step)
    requires Sane(r) && Enabled(r, step)
    ensures CanRun(r, [step]) && After(r, [step]) == Next(r, step)
  {
    hide Next, Enabled;
  }

  lemma StartedOrNot(r: Reg, t: nat)
    requires Good(r) && Enabled(r, StartLoader(t))
    ensures t < |r.tracks| == |Next(r, StartLoader(t)).tracks| && Good(Next(r, StartLoader(t)))
    ensures var q := Next(r, StartLoader(t));
            if r.tracks[t].closed || r.tracks[t].cancelled then q.tracks[t].creation == Abandoned
            else Enabled(q, JobStarts(t)) && Enabled(q, LoadStarts(t)) && Enabled(q, MaintenanceStarts(t))
  {
    FitAt(r, t);
    FirstStep(r, StartLoader(t));
    GoodOverRuns(r, [StartLoader(t)]);
  }

  // ----- Acquire

  predicate InUse(r: Reg, t: nat, key: Key, scope: Scope)
    requires forall u | 0 <= u < |r.tracks| :: r.tracks[u].entry < |r.made|
  {
    t < |r.tracks| && r.tracks[t].refs > 0 && KeyOf(r, t) == key && r.tracks[t].scope == scope
  }

  /** A new store: referenced once, its factory not called, and nothing else true of it. */
  predicate Untouched(x: Track, cancelled: bool) {
    && x.refs == 1 && x.creation == InFactory && !x.closed && x.cancelled == cancelled && x.stage == Idle && x.live
    && !x.loaderStopped && !x.detailsStale && x.jobs == 0 && x.loads == 0 && !x.maintaining && x.closes == 0
  }

  /** An open registry attaches a call to the store of its key and scope that is in use, if there is one,
      and else to a new one; the key keeps its entry, and gets one if it has none.  Nothing else changes. */
  lemma AttachEffect(r: Reg, call: nat, key: Key, scope: Scope)
    requires Safe(r) && Enabled(r, Attach(call, key, scope))
    ensures var q := Next(r, Attach(call, key, scope));
            && Sane(q) && call in q.waiting && InUse(q, q.waiting[call], key, scope) && q.waiting == r.waiting[call := q.waiting[call]] && q.leases == r.leases
            && q.closed == r.closed && q.closeDone == r.closeDone
    ensures var q := Next(r, Attach(call, key, scope)); var t := q.waiting[call];
            if exists u :: InUse(r, u, key, scope) then
              InUse(r, t, key, scope) && q.made == r.made && q.entries == r.entries && q.tracks == r.tracks[t := r.tracks[t].(refs := r.tracks[t].refs + 1)]
            else
              && t == |r.tracks| && |q.tracks| == t + 1 && q.tracks[..t] == r.tracks && Untouched(q.tracks[t], r.cancelled)
              && key in q.entries && q.entries[key] == q.tracks[t].entry && q.entries == r.entries[key := q.entries[key]]
              && (if key in r.entries then |q.made| == |r.made| && q.entries[key] == r.entries[key] else |q.made| == |r.made| + 1 && q.entries[key] == |r.made|)
  {
    hide RefsExact, Incarnations, TracksOk, Shared, Budgets, Shutdown, Attached, Placed, InUse, Untouched, FreshTrack;
    AttachKeeps(r, call, key, scope);
    if Joins(r, key, scope) {
      JoinEffect(r, call, key, scope);
    } else {
      MakeEffect(r, call, key, scope);
      NewInUse(Next(r, Attach(call, key, scope)), |r.tracks|, key, scope);
    }
  }

  lemma NewInUse(q: Reg, t: nat, key: Key, scope: Scope)
    requires Sane(q) && t < |q.tracks| && q.tracks[t].refs > 0 && KeyOf(q, t) == key && q.tracks[t].scope == scope
    ensures InUse(q, t, key, scope)
  {
  }

  lemma JoinEffect(r: Reg, call: nat, key: Key, scope: Scope)
    requires Sane(r) && Placed(r) && Joins(r, key, scope)
    ensures var q, t := Attached(r, call, key, scope), r.made[r.entries[key]].tracks[scope];
            && InUse(r, t, key, scope) && q == r.(tracks := r.tracks[t := r.tracks[t].(refs := r.tracks[t].refs + 1)], waiting := r.waiting[call := t])
            && r.tracks[t].entry < |r.made| && InUse(q, t, key, scope)
  {
    hide Attached, Placed;
    JoinShape(r, call, key, scope);
    JoinedInUse(r, key, scope);
  }

  lemma MakeEffect(r: Reg, call: nat, key: Key, scope: Scope)
    requires Sane(r) && Placed(r) && !Joins(r, key, scope)
    ensures !exists u :: InUse(r, u, key, scope)
    ensures var q, t := Attached(r, call, key, scope), |r.tracks|;
            && q.waiting == r.waiting[call := t] && q.leases == r.leases && q.closed == r.closed && q.closeDone == r.closeDone
            && |q.tracks| == t + 1 && q.tracks[..t] == r.tracks && Untouched(q.tracks[t], r.cancelled) && q.tracks[t].refs == 1 && q.tracks[t].scope == scope
            && key in q.entries && q.entries[key] == q.tracks[t].entry && q.entries == r.entries[key := q.entries[key]]
            && q.entries[key] < |q.made| && q.made[q.entries[key]].key == key
            && (if key in r.entries then |q.made| == |r.made| && q.entries[key] == r.entries[key] else |q.made| == |r.made| + 1 && q.entries[key] == |r.made|)
  {
    hide Attached, Placed, MadeFor, ForStore, Sane;
    NotInUse(r, key, scope);
    MakeShape(r, call, key, scope);
    MadeCount(r, key);
  }

  lemma MadeCount(r: Reg, key: Key)
    ensures |MadeFor(r, key)| == if key in r.entries then |r.made| else |r.made| + 1
  {
  }

  lemma JoinedInUse(r: Reg, key: Key, scope: Scope)
    requires Sane(r) && Placed(r) && Joins(r, key, scope)
    ensures InUse(r, r.made[r.entries[key]].tracks[scope], key, scope)
  {
    assert SlotOk(r, r.entries[key], scope);
  }

  lemma NotInUse(r: Reg, key: Key, scope: Scope)
    requires Sane(r) && Placed(r) && !Joins(r, key, scope)
    ensures !exists u :: InUse(r, u, key, scope)
  {
    forall u: nat ensures !InUse(r, u, key, scope) {
      if InUse(r, u, key, scope) { PlacedTrack(r, u); }
    }
  }

  ghost predicate StillWaits(r: Reg, steps: seq<Step>, call: nat)
    requires CanRun(r, steps)
    decreases |steps|
  {
    call in r.waiting && (steps == [] || StillWaits(Next(r, steps[0]), steps[1..], call))
  }

  lemma {:induction false} WaitsForOne(r: Reg, steps: seq<Step>, call: nat)
    requires Safe(r) && CanRun(r, steps) && StillWaits(r, steps, call)
    ensures var q, t := After(r, steps), r.waiting[call];
            && Safe(r) && Safe(q) && call in q.waiting && q.waiting[call] == t && t < |r.tracks| && t < |q.tracks| && SameStore(r.tracks[t], q.tracks[t])
            && KeyOf(r, t) == KeyOf(q, t)
    decreases |steps|
  {
    hide Next, RefsExact, Incarnations, TracksOk, Shared, Budgets, Shutdown, Placed, Enabled;
    if steps != [] {
      var p, t := Next(r, steps[0]), r.waiting[call];
      SafeKeeps(r, steps[0]);
      LeasesCome(r, steps[0]);
      CreationStays(r, steps[0]);
      assert SameStore(r.tracks[t], p.tracks[t]);
      EntriesStay(r, steps[0]);
      WaitsForOne(p, steps[1..], call);
    }
  }

  /** The lease that an Acquire call is given is on a running store of the key and scope it asked for, neither
      retired nor cancelled at that moment. */
  lemma LeaseIsAsAsked(before: seq<Step>, call: nat, key: Key, scope: Scope, between: seq<Step>, lease: nat)
    requires CanRun(Initial(), before)
    requires var r := After(Initial(), before);
             && Sane(r) && Enabled(r, Attach(call, key, scope))
             && CanRun(Next(r, Attach(call, key, scope)), between) && StillWaits(Next(r, Attach(call, key, scope)), between, call)
    requires var q := After(Next(After(Initial(), before), Attach(call, key, scope)), between); Sane(q) && Enabled(q, Grant(call, lease))
    ensures var q := After(Next(After(Initial(), before), Attach(call, key, scope)), between); var p := Next(q, Grant(call, lease));
            && Sane(p) && lease in p.leases && InUse(p, p.leases[lease], key, scope)
            && p.tracks[p.leases[lease]].creation == Running && !p.tracks[p.leases[lease]].closed && !p.tracks[p.leases[lease]].cancelled
  {
    hide Safe, Next, Enabled;
    Reachable(before);
    var r := After(Initial(), before);
    AttachEffect(r, call, key, scope);
    SafeKeeps(r, Attach(call, key, scope));
    WaitsForOne(Next(r, Attach(call, key, scope)), between, call);
    Granted(After(Next(r, Attach(call, key, scope)), between), call, lease);
  }

  lemma Granted(q: Reg, call: nat, lease: nat)
    requires Safe(q) && Enabled(q, Grant(call, lease))
    ensures var p := Next(q, Grant(call, lease));
            && Sane(p) && call in q.waiting && lease in p.leases && p.leases[lease] == q.waiting[call] && p.tracks == q.tracks && p.made == q.made
            && q.tracks[q.waiting[call]].refs > 0 && q.tracks[q.waiting[call]].creation == Running
            && !q.tracks[q.waiting[call]].closed && !q.tracks[q.waiting[call]].cancelled
  {
    HeldHasRefs(q, q.waiting, call);
  }

  // ----- the end of a reference

  /** Some other track of the same entry is in use. */
  ghost predicate Accompanied(r: Reg, t: nat)
    requires t < |r.tracks|
  {
    exists u :: 0 <= u < |r.tracks| && u != t && r.tracks[u].refs > 0 && r.tracks[u].entry == r.tracks[t].entry
  }

  /** An open registry gives one reference of a store back.  If it was not the last, nothing else
      changes.  If it was, the store is retired and its finalizer starts; its entry is retired, and stops
      serving its key, exactly when no other store of it is in use.  Other stores stay as they are. */
  lemma ReleaseEffect(r: Reg, lease: nat)
    requires Good(r) && Enabled(r, Release(lease)) && !r.closed
    ensures var q, t := Next(r, Release(lease)), r.leases[lease]; var x, key := r.tracks[t], KeyOf(r, t);
            && q.leases == r.leases - {lease} && q.waiting == r.waiting && |q.made| == |r.made|
            && q.tracks == r.tracks[t := if x.refs == 1 then x.(refs := 0, closed := true, stage := Starting) else x.(refs := x.refs - 1)]
            && (forall e | 0 <= e < |r.made| && e != x.entry :: q.made[e] == r.made[e])
            && key in r.entries && r.entries[key] == x.entry && !r.made[x.entry].retired
            && (if x.refs > 1 then q.made == r.made && q.entries == r.entries else
                  && (q.made[x.entry].retired <==> !Accompanied(r, t))
                  && q.entries == if Accompanied(r, t) then r.entries else r.entries - {key})
  {
    hide RefsExact, Incarnations, TracksOk, Shared, Budgets, Shutdown, Placed, ReleaseRef, Next, Enabled, Given, AllFit;
    LeaseIs(r, lease);
    var p, t := r.(leases := r.leases - {lease}), r.leases[lease];
    HeldHasRefs(r, r.leases, lease);
    PlacedTrack(r, t);
    FitAt(r, t);
    GivenIs(r.tracks[t]);
    if r.tracks[t].refs == 1 {
      DetachedShape(p, ReleaseRef(p, t), t);
      LastOut(r, t);
    } else {
      KeptShape(p, t);
    }
  }

  lemma GivenIs(x: Track)
    ensures x.refs > 1 ==> Given(x) == x.(refs := x.refs - 1)
    ensures x.refs == 1 && x.stage == Idle ==> Given(x) == x.(refs := 0, closed := true, stage := Starting)
  {
  }

  lemma KeptShape(r: Reg, t: nat)
    requires t < |r.tracks| && r.tracks[t].entry < |r.made| && r.tracks[t].refs > 1
    ensures ReleaseRef(r, t) == r.(tracks := r.tracks[t := r.tracks[t].(refs := r.tracks[t].refs - 1)])
  {
  }

  lemma PlacedTrack(r: Reg, t: nat)
    requires Sane(r) && Placed(r) && t < |r.tracks| && r.tracks[t].refs > 0
    ensures InPlace(r, t)
    ensures var e := r.tracks[t].entry; !r.made[e].retired && KeyOf(r, t) in r.entries && r.entries[KeyOf(r, t)] == e
  {
    assert InPlace(r, t);
    assert EntryOk(r, r.tracks[t].entry);
  }

  lemma LastOut(r: Reg, t: nat)
    requires Sane(r) && Placed(r) && t < |r.tracks| && r.tracks[t].refs > 0
    ensures (r.made[r.tracks[t].entry].tracks - {r.tracks[t].scope} == map[]) <==> !Accompanied(r, t)
  {
    var e, scope := r.tracks[t].entry, r.tracks[t].scope;
    assert InPlace(r, t);
    if Accompanied(r, t) {
      var u :| 0 <= u < |r.tracks| && u != t && r.tracks[u].refs > 0 && r.tracks[u].entry == e;
      assert InPlace(r, u);
      assert r.tracks[u].scope in r.made[e].tracks - {scope};
    }
  }

  // ----- the finalizer

  /** How many steps of its finalizer are left. */
  function TearDown(x: Track): nat {
    10 - Rank(x.stage)
  }

  function Finals(t: nat, count: nat): seq<Step> {
    seq(count, i => Finalize(t))
  }

  /** Once its factory has answered and no work of a retired store is left, the finalizer comes to its end by
      itself: the provider, if there is one, is closed, and the store leaves the live ones. */
  lemma {:induction false} FinalizerEnds(r: Reg, t: nat)
    requires Safe(r) && t < |r.tracks| && r.tracks[t].stage != Idle
    requires Ready(r.tracks[t]) && r.tracks[t].jobs == 0 && r.tracks[t].loads == 0 && !r.tracks[t].maintaining
    ensures CanRun(r, Finals(t, TearDown(r.tracks[t])))
    ensures var q := After(r, Finals(t, TearDown(r.tracks[t])));
            t < |q.tracks| && q.tracks[t].stage == Finalized && !q.tracks[t].live && q.tracks[t].closes == if HasProvider(r.tracks[t]) then 1 else 0
    decreases TearDown(r.tracks[t])
  {
    hide RefsExact, Incarnations, TracksOk, Shared, Budgets, Shutdown, Placed, TrackOk, Ready, HasProvider, Next, Enabled, FinalizeTrack, CanFinalize, GiveBack;
    SafeTracks(r, t);
    var x := r.tracks[t];
    if x.stage == Finalized {
      ClosedOnce(x);
    } else {
      Turns(r, t);
      SafeKeeps(r, Finalize(t));
      var q := Next(r, Finalize(t));
      FinalizerEnds(q, t);
      assert Finals(t, TearDown(x))[1..] == Finals(t, TearDown(x) - 1);
    }
  }

  lemma ClosedOnce(x: Track)
    requires TrackOk(x) && x.stage == Finalized
    ensures x.closes == (if HasProvider(x) then 1 else 0) && !x.live
  {
  }

  lemma Turns(r: Reg, t: nat)
    requires Sane(r) && t < |r.tracks| && TrackOk(r.tracks[t]) && r.tracks[t].stage != Idle && r.tracks[t].stage != Finalized
    requires Ready(r.tracks[t]) && r.tracks[t].jobs == 0 && r.tracks[t].loads == 0 && !r.tracks[t].maintaining
    ensures Enabled(r, Finalize(t))
    ensures var x, y := r.tracks[t], Next(r, Finalize(t)).tracks[t];
            && |Next(r, Finalize(t)).tracks| == |r.tracks| && Rank(y.stage) == Rank(x.stage) + 1 && y.stage != Idle
            && Ready(y) && y.jobs == 0 && y.loads == 0 && !y.maintaining && (HasProvider(y) <==> HasProvider(x))
  {
    hide GiveBack, Ready, HasProvider, Next, Enabled, CanFinalize, FinalizeTrack, Rank, TrackOk;
    CanTurn(r, t);
    FinalizeIs(r, t);
    Turn(r.tracks[t]);
  }

  lemma CanTurn(r: Reg, t: nat)
    requires Sane(r) && t < |r.tracks| && r.tracks[t].stage != Idle && r.tracks[t].stage != Finalized
    requires Ready(r.tracks[t]) && r.tracks[t].jobs == 0 && r.tracks[t].loads == 0 && !r.tracks[t].maintaining
    ensures Enabled(r, Finalize(t))
  {
    hide Sane, Ready;
  }

  lemma Turn(x: Track)
    requires TrackOk(x) && CanFinalize(x)
    ensures var y := FinalizeTrack(x);
            && Rank(y.stage) == Rank(x.stage) + 1 && y.stage != Idle && (Ready(y) <==> Ready(x)) && (HasProvider(y) <==> HasProvider(x))
            && y.jobs == x.jobs && y.loads == x.loads && y.maintaining == x.maintaining
  {
    hide FinalizeTrack, CanFinalize, Rank, TrackOk;
    FinalizerAdvances(x);
    StageMoves(x);
    TurnKeepsStore(x);
  }

  lemma AllRetire(r: Reg)
    requires Sane(r) && Placed(r)
    ensures forall e | 0 <= e < |r.made| :: AllRetired(r.made, r.entries)[e].retired && AllRetired(r.made, r.entries)[e].tracks == map[]
  {
    forall e | 0 <= e < |r.made| ensures AllRetired(r.made, r.entries)[e].retired && AllRetired(r.made, r.entries)[e].tracks == map[] {
      assert EntryOk(r, e);
    }
  }

  /** A finalizer waits for its factory, for maintenance once the context is cancelled, for jobs once the loader
      is stopped and for detail loads once the details are stale: for nothing that can begin anew. */
  lemma FinalizerWaits(steps: seq<Step>, t: nat)
    requires CanRun(Initial(), steps)
    requires var r := After(Initial(), steps); Sane(r) && t < |r.tracks| && r.tracks[t].stage != Idle && r.tracks[t].stage != Finalized && !Enabled(r, Finalize(t))
    ensures var r := After(Initial(), steps); var x := r.tracks[t];
            && x.closed && x.cancelled
            && (if !Ready(x) then x.creation == InFactory || x.creation == Created
                else if x.maintaining then !x.loaderStopped && !Enabled(r, MaintenanceStarts(t))
                else if x.jobs > 0 then !Enabled(r, JobStarts(t)) && !x.detailsStale
                else x.loads > 0 && !Enabled(r, LoadStarts(t)) && !Enabled(r, JobStarts(t)))
  {
    hide Safe, Shared, Sane, FlagsFit, TrackOk, CanFinalize;
    GoodReachable(steps);
    var r := After(Initial(), steps);
    FitAt(r, t);
    SafeTracks(r, t);
    Waiting(r, t);
  }

  lemma Waiting(r: Reg, t: nat)
    requires Sane(r) && t < |r.tracks| && TrackOk(r.tracks[t]) && FlagsFit(r.tracks[t], r.closed, r.cancelled)
    requires r.tracks[t].stage != Idle && r.tracks[t].stage != Finalized && !Enabled(r, Finalize(t))
    ensures var x := r.tracks[t];
            && x.closed && x.cancelled
            && (if !Ready(x) then x.creation == InFactory || x.creation == Created
                else if x.maintaining then !x.loaderStopped && !Enabled(r, MaintenanceStarts(t))
                else if x.jobs > 0 then !Enabled(r, JobStarts(t)) && !x.detailsStale
                else x.loads > 0 && !Enabled(r, LoadStarts(t)) && !Enabled(r, JobStarts(t)))
  {
    hide Sane;
  }

  // ----- what the steps of a run say of a store

  function Count(steps: seq<Step>, step: Step): nat {
    if steps == [] then 0 else (if steps[0] == step then 1 else 0) + Count(steps[1..], step)
  }

  /** The state of a store's work, zero before it is made. */
  function JobsOf(r: Reg, t: nat): int { if t < |r.tracks| then r.tracks[t].jobs else 0 }
  function LoadsOf(r: Reg, t: nat): int { if t < |r.tracks| then r.tracks[t].loads else 0 }
  function BusyOf(r: Reg, t: nat): int { if t < |r.tracks| then Busy(r.tracks[t]) else 0 }
  function CreationOf(r: Reg, t: nat): Creation { if t < |r.tracks| then r.tracks[t].creation else InFactory }

  lemma WorkMoves(r: Reg, step: Step, t: nat)
    requires Safe(r) && Enabled(r, step)
    ensures Moves(r, Next(r, step), step, t)
  {
    hide Safe, Next, Enabled, SameStore, CreationMoves, Begins;
    SafeIsSane(r);
    CreationStays(r, step);
    var q := Next(r, step);
    if t < |r.tracks| {
      assert CreationMoves(t, r.tracks[t], q.tracks[t], step);
      TrackMoves(r, q, step, t);
    } else {
      NamesTrack(r, step);
      if t < |q.tracks| { assert Begins(q.tracks[t]); }
      NewMoves(r, q, step, t);
    }
  }

  lemma SafeIsSane(r: Reg)
    requires Safe(r)
    ensures Sane(r)
  {
  }

  lemma TrackMoves(r: Reg, q: Reg, step: Step, t: nat)
    requires t < |r.tracks| <= |q.tracks| && CreationMoves(t, r.tracks[t], q.tracks[t], step)
    ensures Moves(r, q, step, t)
  {
  }

  lemma NewMoves(r: Reg, q: Reg, step: Step, t: nat)
    requires |r.tracks| <= t && (t < |q.tracks| ==> Begins(q.tracks[t])) && !Names(step, t)
    ensures Moves(r, q, step, t)
  {
  }

  predicate Names(step: Step, t: nat) {
    || step == FactoryFails(t) || step == FactoryReturns(t) || step == JobStarts(t) || step == JobEnds(t)
    || step == LoadStarts(t) || step == LoadEnds(t) || step == MaintenanceStarts(t) || step == MaintenanceEnds(t)
  }

  /** What a step adds to a store's work. */
  predicate Moves(r: Reg, q: Reg, step: Step, t: nat) {
    && JobsOf(q, t) == JobsOf(r, t) + Change(step, JobStarts(t), JobEnds(t))
    && LoadsOf(q, t) == LoadsOf(r, t) + Change(step, LoadStarts(t), LoadEnds(t))
    && BusyOf(q, t) == BusyOf(r, t) + Change(step, MaintenanceStarts(t), MaintenanceEnds(t))
    && (CreationOf(q, t) == Failed <==> CreationOf(r, t) == Failed || step == FactoryFails(t))
    && (CreationOf(q, t) == InFactory <==> CreationOf(r, t) == InFactory && step != FactoryFails(t) && step != FactoryReturns(t))
    && (step == FactoryFails(t) || step == FactoryReturns(t) ==> CreationOf(r, t) == InFactory)
  }

  lemma NamesTrack(r: Reg, step: Step)
    requires Sane(r) && Enabled(r, step)
    ensures forall t | |r.tracks| <= t :: !Names(step, t)
  {
    hide Sane;
  }

  lemma {:induction false} WorkOverRuns(r: Reg, steps: seq<Step>, t: nat)
    requires Safe(r) && CanRun(r, steps)
    ensures var q := After(r, steps);
            && JobsOf(q, t) == JobsOf(r, t) + Count(steps, JobStarts(t)) - Count(steps, JobEnds(t))
            && LoadsOf(q, t) == LoadsOf(r, t) + Count(steps, LoadStarts(t)) - Count(steps, LoadEnds(t))
            && BusyOf(q, t) == BusyOf(r, t) + Count(steps, MaintenanceStarts(t)) - Count(steps, MaintenanceEnds(t))
            && (CreationOf(q, t) == Failed <==> CreationOf(r, t) == Failed || FactoryFails(t) in steps)
            && (CreationOf(q, t) == InFactory <==> CreationOf(r, t) == InFactory && FactoryFails(t) !in steps && FactoryReturns(t) !in steps)
            && (FactoryFails(t) in steps || FactoryReturns(t) in steps ==> CreationOf(r, t) == InFactory)
            && !(FactoryFails(t) in steps && FactoryReturns(t) in steps)
    decreases |steps|
  {
    hide Safe, Enabled, Next, JobsOf, LoadsOf, BusyOf, CreationOf;
    if steps != [] {
      var q := Next(r, steps[0]);
      WorkMoves(r, steps[0], t);
      SafeKeeps(r, steps[0]);
      WorkOverRuns(q, steps[1..], t);
      assert steps == [steps[0]] + steps[1..];
    }
  }

  /** The work that a store has in flight is what has begun and not ended; and by the time it is finalized its
      provider has been closed exactly if its factory had returned one, in use or not, with none of it left. */
  lemma WorkIsCounted(steps: seq<Step>, t: nat)
    requires CanRun(Initial(), steps) && t < |After(Initial(), steps).tracks|
    ensures var x := After(Initial(), steps).tracks[t];
            && x.jobs == Count(steps, JobStarts(t)) - Count(steps, JobEnds(t))
            && x.loads == Count(steps, LoadStarts(t)) - Count(steps, LoadEnds(t))
            && Busy(x) == Count(steps, MaintenanceStarts(t)) - Count(steps, MaintenanceEnds(t))
            && (x.closes == 1 ==> FactoryReturns(t) in steps && x.jobs == 0 && x.loads == 0 && !x.maintaining)
            && (x.stage == Finalized ==> FactoryReturns(t) in steps || FactoryFails(t) in steps)
            && (x.stage == Finalized ==> x.closes == if FactoryReturns(t) in steps then 1 else 0)
  {
    hide Safe, TrackOk, Enabled, Next;
    Reachable(steps);
    InitialIsSafe();
    WorkOverRuns(Initial(), steps, t);
    SafeTracks(After(Initial(), steps), t);
    ClosedAfterFactory(After(Initial(), steps).tracks[t]);
  }

  lemma ClosedAfterFactory(x: Track)
    requires TrackOk(x)
    ensures x.closes == 1 ==> x.creation != InFactory && x.creation != Failed && x.jobs == 0 && x.loads == 0 && !x.maintaining
    ensures x.stage == Finalized ==> x.creation != InFactory && x.closes == if x.creation == Failed then 0 else 1
  {
  }

  /** Close retires every store that is left and every entry at once, changes nothing else of them, and
      once closed does nothing more; it can be answered when, and only when, every store is finalized. */
  lemma CloseEffect(r: Reg)
    requires Safe(r)
    ensures var q := Next(r, Close);
            && q.closed && q.entries == map[] && q.waiting == r.waiting && q.leases == r.leases && |q.tracks| == |r.tracks|
            && (forall t | 0 <= t < |r.tracks| :: q.tracks[t].stage == (if r.tracks[t].stage == Idle then Starting else r.tracks[t].stage)
                                                  && q.tracks[t] == r.tracks[t].(closed := true, stage := q.tracks[t].stage))
            && (r.closed ==> q == r)
            && (!r.closed ==> forall e | 0 <= e < |q.made| :: q.made[e].retired && q.made[e].tracks == map[])
            && (forall call, key, scope :: Sane(q) && !Enabled(q, Attach(call, key, scope)))
    ensures r.closed ==> (Enabled(r, CloseCompletes) <==> !r.closeDone && forall t | 0 <= t < |r.tracks| :: r.tracks[t].stage == Finalized)
  {
    hide RefsExact, Incarnations, Shared, Budgets, Placed, Rank, HasProvider, EntryOk;
    ShutKeeps(r);
    if !r.closed { AllRetire(r); }
    forall t | 0 <= t < |r.tracks| ensures TrackOk(r.tracks[t]) { }
  }
}
