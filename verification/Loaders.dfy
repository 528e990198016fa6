/** metadata.Loader: the critical sections under its mutex, in place. */
module Loaders {
  import opened Wrappers
  import opened CatalogTypes
  import opened LoaderModel
  import opened LoaderHistory

  /** for kind, status := range statuses: cancel what has not ended */
  method CancelUnsettled(statuses: map<Kind, Status>) returns (r: map<Kind, Status>, changed: bool)
    ensures r == SettledStatus(statuses)
    ensures !changed <==> forall k | k in statuses :: !Unsettled(statuses[k].state)
  {
    r, changed := statuses, false;
    var todo := statuses.Keys;
    while todo != {}
      invariant todo <= statuses.Keys && r.Keys == statuses.Keys
      invariant forall k | k in todo :: r[k] == statuses[k]
      invariant forall k | k in statuses.Keys - todo :: r[k] == if Unsettled(statuses[k].state) then statuses[k].(state := Cancelled) else statuses[k]
      invariant !changed <==> forall k | k in statuses.Keys - todo :: !Unsettled(statuses[k].state)
    {
      var kind :| kind in todo;
      var status := statuses[kind];
      if status.state == Pending || status.state == Loading {
        r := r[kind := status.(state := Cancelled)];
        changed := true;
      }
      todo := todo - {kind};
    }
  }

  /** emptyMetadataStatus */
  method EmptyMetadataStatus() returns (status: map<Kind, Status>)
    ensures status == EmptyStatus()
  {
    status := map[];
    var todo := KINDS;
    while todo != {}
      invariant todo <= KINDS && status == map k | k in KINDS - todo :: Status(Unsupported, false, 0)
    {
      var kind :| kind in todo;
      status := status[kind := Status(Unsupported, false, 0)];
      todo := todo - {kind};
    }
    assert KINDS - todo == KINDS;
  }

  /** The status of a plan's categories is pending. */
  method PlannedStatus(kinds: set<Kind>) returns (status: map<Kind, Status>)
    requires kinds <= KINDS
    ensures status == Planned(kinds)
  {
    status := EmptyMetadataStatus();
    var todo := kinds;
    while todo != {}
      invariant todo <= kinds && status == map k | k in KINDS :: Status(if k in kinds - todo then Pending else Unsupported, false, 0)
    {
      var kind :| kind in todo;
      status := status[kind := Status(Pending, false, 0)];
      todo := todo - {kind};
    }
    assert kinds - todo == kinds;
  }

  lemma ResetStep(l: Loader, g: nat)
    requires Inv(l) && Enabled(l, DoReset(g))
    ensures Inv(LoaderModel.Reset(l, g)) && Follows(l.snapshot, LoaderModel.Reset(l, g).snapshot)
  {
    hide Inv, Follows;
    InvKeeps(l, DoReset(g));
    FollowsKeeps(l, DoReset(g));
  }

  lemma StartStep(l: Loader, g: nat, kinds: set<Kind>)
    requires Inv(l) && Enabled(l, DoStart(g, kinds))
    ensures Inv(LoaderModel.Start(l, g, kinds)) && Follows(l.snapshot, LoaderModel.Start(l, g, kinds).snapshot)
  {
    hide Inv, Follows;
    InvKeeps(l, DoStart(g, kinds));
    FollowsKeeps(l, DoStart(g, kinds));
  }

  lemma EndJobStep(l: Loader, g: nat, kind: Kind, state: State)
    requires Inv(l) && Enabled(l, DoEndJob(g, kind, state))
    ensures g in l.runs && Inv(LoaderModel.EndJob(l, g, kind, state)) && Follows(l.snapshot, LoaderModel.EndJob(l, g, kind, state).snapshot)
  {
    hide Inv, Follows;
    InvKeeps(l, DoEndJob(g, kind, state));
    FollowsKeeps(l, DoEndJob(g, kind, state));
  }

  lemma SettleCancelledStep(l: Loader, g: nat)
    requires Inv(l) && Enabled(l, DoSettleCancelled(g))
    ensures Inv(LoaderModel.SettleCancelled(l, g)) && Follows(l.snapshot, LoaderModel.SettleCancelled(l, g).snapshot)
  {
    hide Inv, Follows;
    InvKeeps(l, DoSettleCancelled(g));
    FollowsKeeps(l, DoSettleCancelled(g));
  }

  lemma MarkStaleStep(l: Loader)
    requires Inv(l)
    ensures Inv(LoaderModel.MarkStale(l)) && Follows(l.snapshot, LoaderModel.MarkStale(l).snapshot)
  {
    hide Inv, Follows;
    InvKeeps(l, DoMarkStale);
    FollowsKeeps(l, DoMarkStale);
  }

  lemma StopStep(l: Loader)
    requires Inv(l)
    ensures Inv(LoaderModel.Stop(l)) && Follows(l.snapshot, LoaderModel.Stop(l).snapshot)
  {
    hide Inv, Follows;
    InvKeeps(l, DoStop);
    FollowsKeeps(l, DoStop);
  }

  lemma AdmitStep(l: Loader, g: nat, kind: Kind)
    requires Inv(l) && Enabled(l, DoAdmit(g, kind))
    ensures g in l.runs && Inv(LoaderModel.AdmitJob(l, g, kind)) && Follows(l.snapshot, LoaderModel.AdmitJob(l, g, kind).snapshot)
  {
    hide Inv, Follows;
    InvKeeps(l, DoAdmit(g, kind));
    FollowsKeeps(l, DoAdmit(g, kind));
  }

  lemma InstallStep(l: Loader, s: Snapshot, ended: bool)
    requires Inv(l)
    ensures Inv(LoaderModel.InstallSettled(l, s, ended)) && Follows(l.snapshot, LoaderModel.InstallSettled(l, s, ended).snapshot)
  {
    hide Inv, Follows;
    InvKeeps(l, DoInstall(s, ended));
    FollowsKeeps(l, DoInstall(s, ended));
  }

  /** The next snapshot, with copies of what changes. */
  method WithStatus(current: Snapshot, kind: Kind, state: State) returns (next: Snapshot)
    requires kind in current.status
    ensures next == Ended(current, kind, state)
  {
    var statuses := current.status[kind := current.status[kind].(state := state)];
    next := current.(revision := current.revision + 1, status := statuses);
    if state == Ready {
      next := next.(ready := current.ready + {kind});
    }
  }

  class MetadataLoader {
    var snapshot: Option<Snapshot>
    var generation: nat
    var started: bool
    var startFailed: bool
    var stopped: bool
    var ctx: Ctx
    var done: Done
    var active: int
    var drained: bool
    ghost var runs: map<nat, map<Kind, State>>
    ghost var retired: map<nat, Snapshot>
    ghost var lost: set<Kind>

    ghost function State(): Loader
      reads this
    {
      Loader(snapshot, generation, started, startFailed, stopped, ctx, done, active, drained, runs, retired, lost)
    }

    constructor ()
      ensures State() == New() && Inv(State())
    {
      snapshot, generation, started, startFailed, stopped := None, 0, false, false, false;
      ctx, done, active, drained := NoCtx, NoDone, 0, true;
      runs, retired, lost := map[], map[], {};
    }

    method CloseDoneLocked()
      modifies this`done
      ensures done == CloseDone(old(done))
    {
      if done == Open {
        done := Closed;
      }
    }

    method Cancel()
      modifies this`ctx
      ensures ctx == CancelCtx(old(ctx))
    {
      if ctx != NoCtx {
        ctx := EndedByLoader;
      }
    }

    /** The superseded generation is cancelled and settled. */
    method RetireSnapshot()
      modifies this`ctx, this`snapshot, this`retired, this`done
      ensures retired == if old(snapshot).None? then old(retired)
                         else old(retired)[generation := Republished(old(snapshot).value, SettledStatus(old(snapshot).value.status))]
      ensures old(snapshot).None? ==> snapshot.None?
    {
      hide SettledStatus;
      Cancel();
      if snapshot.Some? {
        var status, changed := CancelUnsettled(snapshot.value.status);
        snapshot := Some(snapshot.value.(revision := snapshot.value.revision + 1, status := status));
        retired := retired[generation := snapshot.value];
        CloseDoneLocked();
      }
    }

    method Reset(g: nat)
      requires Inv(State())
      modifies this
      ensures State() == LoaderModel.Reset(old(State()), g)
      ensures Inv(State()) && Follows(old(snapshot), snapshot)
    {
      hide Inv, Follows, EmptyStatus, SettledStatus;
      ResetStep(State(), g);
      if stopped || g <= generation {
        return;
      }
      RetireSnapshot();
      generation, started, startFailed := g, false, false;
      ctx, done, lost := NoCtx, NoDone, {};
      var empty := EmptyMetadataStatus();
      snapshot := Some(Snapshot(g, 1, false, false, false, {}, empty));
    }

    /** The new context and completion signal, and the snapshot that announces the plan. */
    method Begin(kinds: set<Kind>)
      requires snapshot.Some? && kinds <= KINDS
      modifies this`ctx, this`started, this`done, this`snapshot
      ensures ctx == Live && started && done == Open
      ensures var before := old(snapshot).value;
              snapshot == Some(before.(revision := before.revision + 1, started := true, startFailed := false, status := Planned(kinds)))
    {
      hide Planned;
      ctx, started, done := Live, true, Open;
      var status := PlannedStatus(kinds);
      snapshot := Some(snapshot.value.(revision := snapshot.value.revision + 1, started := true, startFailed := false, status := status));
    }

    /** Start, after the plan was found valid. */
    method Start(g: nat, kinds: set<Kind>) returns (ok: bool)
      requires Inv(State()) && kinds <= KINDS
      modifies this
      ensures State() == LoaderModel.Start(old(State()), g, kinds)
      ensures ok <==> !old(stopped) && g == old(generation) && old(snapshot).Some? && !old(started) && !old(startFailed)
      ensures Inv(State()) && Follows(old(snapshot), snapshot)
    {
      hide Inv, Follows, Planned;
      StartStep(State(), g, kinds);
      if stopped || g != generation || snapshot.None? || started || startFailed {
        return false;
      }
      Begin(kinds);
      active := active + 1;
      drained := false;
      runs := runs[g := map k | k in kinds :: Pending];
      return true;
    }

    /** The launch linearization point of one job. */
    method AdmitJob(g: nat, kind: Kind) returns (admitted: bool)
      requires Inv(State()) && g in runs && kind in runs[g] && runs[g][kind] == Pending
      modifies this`runs, this`snapshot, this`active, this`drained
      ensures State() == LoaderModel.AdmitJob(old(State()), g, kind) && (admitted <==> Admissible(old(State()), g, kind))
      ensures Inv(State()) && Follows(old(snapshot), snapshot)
    {
      hide Inv, Follows;
      AdmitStep(State(), g, kind);
      if stopped || !started || generation != g || snapshot.None? || ctx != Live {
        return false;
      }
      var statuses := snapshot.value.status;
      if kind !in statuses || statuses[kind].state != Pending {
        return false;
      }
      statuses := statuses[kind := statuses[kind].(state := Loading)];
      snapshot := Some(snapshot.value.(revision := snapshot.value.revision + 1, status := statuses));
      active, drained := active + 1, false;
      runs := runs[g := runs[g][kind := Loading]];
      return true;
    }

    /** setStatus; a job that became ready brings the merged cache. */
    method SetStatus(g: nat, kind: Kind, state: State)
      modifies this`snapshot, this`lost
      ensures snapshot == StatusSnapshot(old(State()), g, kind, state)
      ensures lost == old(lost) + Unpublished(old(State()), g, kind)
    {
      hide Ended;
      lost := lost + Unpublished(State(), g, kind);
      if generation != g || snapshot.None? || ctx != Live {
        return;
      }
      if kind in snapshot.value.status && Unsettled(snapshot.value.status[kind].state) {
        var next := WithStatus(snapshot.value, kind, state);
        snapshot := Some(next);
      }
    }

    /** The schedule notes the end of a job, and publishes it. */
    method EndJob(g: nat, kind: Kind, state: State)
      requires Inv(State()) && Enabled(State(), DoEndJob(g, kind, state))
      modifies this`runs, this`snapshot, this`lost
      ensures State() == LoaderModel.EndJob(old(State()), g, kind, state)
      ensures Inv(State()) && Follows(old(snapshot), snapshot)
    {
      hide Inv, Follows, Enabled, StatusSnapshot, Unpublished;
      EndJobStep(State(), g, kind, state);
      SetStatus(g, kind, state);
      runs := runs[g := runs[g][kind := state]];
    }

    method SettleCancelled(g: nat)
      requires Inv(State()) && Enabled(State(), DoSettleCancelled(g))
      modifies this`runs, this`snapshot, this`done, this`lost
      ensures State() == LoaderModel.SettleCancelled(old(State()), g)
      ensures Inv(State()) && Follows(old(snapshot), snapshot)
    {
      hide Inv, Follows, SettledStatus, Settled, Enabled, Republished;
      SettleCancelledStep(State(), g);
      runs := runs - {g};
      if generation != g || snapshot.None? {
        return;
      }
      SettleSnapshot();
      lost := {};
      CloseDoneLocked();
    }

    method SettleSnapshot()
      requires snapshot.Some?
      modifies this`snapshot
      ensures snapshot == Some(if Settled(old(snapshot).value) then old(snapshot).value
                               else Republished(old(snapshot).value, SettledStatus(old(snapshot).value.status)))
    {
      hide SettledStatus;
      var statuses, changed := CancelUnsettled(snapshot.value.status);
      if changed {
        snapshot := Some(snapshot.value.(revision := snapshot.value.revision + 1, status := statuses));
      }
    }

    method MarkStale()
      requires Inv(State())
      modifies this`ctx, this`snapshot, this`done, this`lost
      ensures State() == LoaderModel.MarkStale(old(State()))
      ensures !old(stopped) && old(snapshot).Some? ==> snapshot.Some? && snapshot.value.stale && generation == old(generation)
      ensures !old(stopped) && old(snapshot).Some? && !old(snapshot).value.stale ==> ctx != Live && done != Open
      ensures Inv(State()) && Follows(old(snapshot), snapshot)
    {
      hide Inv, Follows, SettledStatus, Settled, Enabled;
      MarkStaleStep(State());
      if stopped || snapshot.None? || snapshot.value.stale {
        return;
      }
      Cancel();
      var statuses, changed := CancelUnsettled(snapshot.value.status);
      snapshot := Some(snapshot.value.(revision := snapshot.value.revision + 1, stale := true, status := statuses));
      lost := {};
      CloseDoneLocked();
    }

    method Stop()
      requires Inv(State())
      modifies this`stopped, this`ctx, this`snapshot, this`done, this`lost
      ensures State() == LoaderModel.Stop(old(State()))
      ensures Inv(State()) && Follows(old(snapshot), snapshot)
    {
      hide Inv, Follows, SettledStatus, Settled, Enabled;
      StopStep(State());
      if stopped {
        return;
      }
      stopped, lost := true, {};
      Cancel();
      if snapshot.Some? {
        SettleSnapshot();
      }
      CloseDoneLocked();
    }

    method RunnerFinished()
      requires Inv(State()) && active > 0
      modifies this`active, this`drained
      ensures State() == LoaderModel.RunnerFinished(old(State())) && Inv(State())
    {
      hide Inv;
      InvKeeps(State(), DoRunnerFinished);
      active := active - 1;
      drained := active == 0;
    }

    /** Every status is of a known category, has a count, and is ready exactly when the cache is. */
    method CheckStatus(s: Snapshot) returns (ok: bool)
      ensures ok <==> (forall k | k in s.status :: s.status[k].count >= 0) && s.status.Keys <= KINDS && s.ready <= s.status.Keys
                      && forall k | k in s.status :: s.status[k].state == Ready <==> k in s.ready
    {
      var todo := s.status.Keys;
      while todo != {}
        invariant todo <= s.status.Keys
        invariant forall k | k in s.status.Keys - todo :: s.status[k].count >= 0 && k in KINDS && (s.status[k].state == Ready ==> k in s.ready)
      {
        var kind :| kind in todo;
        todo := todo - {kind};
        if kind !in KINDS || s.status[kind].count < 0 || (s.status[kind].state == Ready && kind !in s.ready) {
          return false;
        }
      }
      var left := s.ready;
      while left != {}
        invariant left <= s.ready && forall k | k in s.ready - left :: k in s.status && s.status[k].state == Ready
      {
        var kind :| kind in left;
        left := left - {kind};
        if kind !in s.status || s.status[kind].state != Ready {
          return false;
        }
      }
      return true;
    }

    /** installSettled: only a fresh loader accepts a staged snapshot, and only a settled one whose status
        and cache agree, under a context that has not ended. */
    method InstallSettled(s: Snapshot, ended: bool) returns (ok: bool)
      requires Inv(State())
      modifies this`generation, this`started, this`snapshot, this`ctx, this`done
      ensures ok <==> !ended && Installable(s) && !old(stopped) && !old(started) && old(snapshot).None?
      ensures State() == LoaderModel.InstallSettled(old(State()), s, ended)
      ensures Inv(State()) && Follows(old(snapshot), snapshot)
    {
      hide Inv, Follows, Enabled, SettledSnapshot;
      InstallStep(State(), s, ended);
      if ended || s.generation == 0 || !s.started || s.startFailed || !SettledSnapshot(s) {
        return false;
      }
      var agrees := CheckStatus(s);
      if !agrees || stopped || started || snapshot.Some? {
        return false;
      }
      generation, started, snapshot := s.generation, true, Some(s);
      ctx, done := Live, Closed;
      return true;
    }
  }
}
