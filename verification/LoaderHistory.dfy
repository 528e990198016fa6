/** The history of snapshots that a loader publishes, over every run. */
module LoaderHistory {
  import opened Wrappers
  import opened CatalogTypes
  import opened LoaderModel

  // ----- what every state is like

  predicate SnapshotOk(l: Loader, s: Snapshot) {
    && s.generation == l.generation && s.started == l.started && s.startFailed == l.startFailed
    && ReadyMatches(s)
    && (!s.started ==> forall k | k in s.status :: s.status[k].state == Unsupported)
  }

  /** A category's status is ready exactly when the cache calls it ready. */
  predicate ReadyMatches(s: Snapshot) {
    s.ready <= s.status.Keys && forall k | k in s.status :: s.status[k].state == Ready <==> k in s.ready
  }

  /** The schedule of the current generation knows the states that are published, and the ends that were
      lost. */
  predicate RunMatches(l: Loader, s: Snapshot) {
    && l.generation in l.runs && l.runs[l.generation].Keys <= s.status.Keys && l.lost <= l.runs[l.generation].Keys
    && (forall k | k in l.runs[l.generation] :: KnownState(l, s.status[k].state, l.runs[l.generation][k], k))
    && (forall k | k in s.status && Unsettled(s.status[k].state) :: k in l.runs[l.generation])
  }

  predicate KnownState(l: Loader, shown: State, known: State, k: Kind) {
    if k in l.lost then Unsettled(shown) && Terminal(known) else shown == known
  }

  function UnsettledKinds(s: Snapshot): set<Kind> {
    set k | k in s.status && Unsettled(s.status[k].state)
  }

  /** Settled, or on the way to it, or done with exactly the lost categories unsettled. */
  predicate Settling(l: Loader, s: Snapshot) {
    || (Settled(s) && l.lost == {})
    || (l.ctx != EndedByLoader && l.done == Open && RunMatches(l, s))
    || (l.ctx == EndedByParent && l.done == Closed && l.generation !in l.runs && l.lost == UnsettledKinds(s))
  }

  ghost predicate Inv(l: Loader) {
    && (l.snapshot.None? ==> !l.started && !l.startFailed && l.generation == 0 && l.done == NoDone)
    && (l.snapshot.Some? ==> SnapshotOk(l, l.snapshot.value))
    && (l.snapshot.Some? ==> Settling(l, l.snapshot.value))
    && (l.snapshot.None? ==> l.lost == {})
    && (l.lost != {} ==> l.ctx == EndedByParent)
    && l.active >= 0 && (l.drained <==> l.active == 0)
    && (forall g | g in l.runs :: g <= l.generation)
    && (forall g | g in l.retired :: g < l.generation && l.retired[g].generation == g && Settled(l.retired[g]) && ReadyMatches(l.retired[g]))
    && (!l.started ==> l.generation !in l.runs && l.ctx == NoCtx)
    && (l.started ==> l.ctx != NoCtx)
  }

  // ----- how a step moves the snapshot

  /** The later of two snapshots, or the same: generation first, then revision. */
  predicate NotEarlier(a: Snapshot, b: Snapshot) {
    a == b || a.generation < b.generation || (a.generation == b.generation && a.revision < b.revision)
  }

  /** Nothing published is taken back within a generation: the stale mark stays, a start stays, and the
      terminal state of a category in a started generation stays. */
  predicate Extends(a: Snapshot, b: Snapshot) {
    a.generation == b.generation ==>
      && (a.stale ==> b.stale) && (a.started ==> b.started)
      && (a.started ==> a.status.Keys == b.status.Keys && forall k | k in a.status && Terminal(a.status[k].state) :: b.status[k].state == a.status[k].state)
  }

  predicate Follows(a: Option<Snapshot>, b: Option<Snapshot>) {
    a.Some? ==> b.Some? && NotEarlier(a.value, b.value) && Extends(a.value, b.value)
  }

  lemma FollowsOn(a: Option<Snapshot>, b: Option<Snapshot>, c: Option<Snapshot>)
    requires Follows(a, b) && Follows(b, c)
    ensures Follows(a, c)
  {
  }

  lemma SettlingStatus(s: Snapshot)
    ensures Settled(s.(status := SettledStatus(s.status)))
    ensures ReadyMatches(s) ==> ReadyMatches(s.(status := SettledStatus(s.status)))
    ensures forall k | k in s.status && Terminal(s.status[k].state) :: SettledStatus(s.status)[k] == s.status[k]
    ensures Settled(s) ==> SettledStatus(s.status) == s.status
  {
  }

  lemma FollowsKeeps(l: Loader, step: Step)
    requires Inv(l) && Enabled(l, step)
    ensures Follows(l.snapshot, Next(l, step).snapshot)
  {
    hide Inv, Follows;
    match step {
      case DoStart(g, kinds) => StartFollows(l, g, kinds);
      case DoEndJob(g, k, st) => EndFollows(l, g, k, st);
      case DoSettleCancelled(_) => CancelFollows(l, step);
      case DoMarkStale => CancelFollows(l, step);
      case DoStop => CancelFollows(l, step);
      case _ => OthersFollow(l, step);
    }
  }

  lemma EndFollows(l: Loader, g: nat, k: Kind, st: State)
    requires g in l.runs
    ensures Follows(l.snapshot, EndJob(l, g, k, st).snapshot)
  {
    hide Follows, Ended, StatusSnapshot;
    StatusFollows(l, g, k, st);
  }

  lemma StatusFollows(l: Loader, g: nat, k: Kind, st: State)
    ensures Follows(l.snapshot, StatusSnapshot(l, g, k, st))
  {
    hide Follows, Ended;
    Unmoved(l.snapshot);
    if l.snapshot.Some? && k in l.snapshot.value.status && !Terminal(l.snapshot.value.status[k].state) {
      EndedFollows(l.snapshot.value, k, st);
    }
  }

  lemma EndedFollows(s: Snapshot, k: Kind, st: State)
    requires k in s.status && !Terminal(s.status[k].state)
    ensures Follows(Some(s), Some(Ended(s, k, st)))
  {
    hide Follows;
    OneFollows(s, k, s.status[k].(state := st), if st == Ready then s.ready + {k} else s.ready);
  }

  lemma CancelFollows(l: Loader, step: Step)
    requires step.DoSettleCancelled? || step.DoMarkStale? || step.DoStop?
    requires Enabled(l, step)
    ensures Follows(l.snapshot, Next(l, step).snapshot)
  {
    hide SettledStatus, Settled, Follows;
    Unmoved(l.snapshot);
    if l.snapshot.Some? {
      var s := l.snapshot.value;
      SettlingFollows(s, Republished(s, SettledStatus(s.status)));
      SettlingFollows(s, Republished(s, SettledStatus(s.status)).(stale := true));
    }
  }

  lemma Unmoved(s: Option<Snapshot>)
    ensures Follows(s, s)
  {
  }

  lemma SettlingFollows(s: Snapshot, t: Snapshot)
    requires t == s.(revision := s.revision + 1, status := SettledStatus(s.status), stale := t.stale) && (s.stale ==> t.stale)
    ensures Follows(Some(s), Some(t))
  {
    hide SettledStatus;
    SettlingStatus(s);
    SettlingKeys(s);
  }

  /** One category's status changes, from a state that is not terminal or to the same state. */
  lemma OneFollows(s: Snapshot, k: Kind, v: Status, ready: set<Kind>)
    requires k in s.status && (Terminal(s.status[k].state) ==> v.state == s.status[k].state)
    ensures Follows(Some(s), Some(Republished(s, s.status[k := v]).(ready := ready)))
  {
  }

  lemma OthersFollow(l: Loader, step: Step)
    requires Inv(l) && Enabled(l, step)
    requires !step.DoStart? && !step.DoEndJob? && !step.DoSettleCancelled? && !step.DoMarkStale? && !step.DoStop?
    ensures Follows(l.snapshot, Next(l, step).snapshot)
  {
    hide Settling, Installable, EmptyStatus, SettledStatus, Settled, ReadyMatches, Follows;
    Unmoved(l.snapshot);
    if l.snapshot.Some? {
      var s := l.snapshot.value;
      match step {
        case DoAdmit(g, k) => if Admissible(l, g, k) { OneFollows(s, k, s.status[k].(state := Loading), s.ready); }
        case DoMarkJobStarted(_, k) => if k in s.status { OneFollows(s, k, s.status[k].(begun := true), s.ready); }
        case DoRecordMetrics(_, k, count) => if k in s.status { OneFollows(s, k, s.status[k].(count := count), s.ready); }
        case DoReset(g) => LaterFollows(s, Snapshot(g, 1, false, false, false, {}, EmptyStatus()));
        case DoMarkStartFailed(_) => FailedFollows(s);
        case _ =>
      }
    } else {
      NothingBefore(Next(l, step).snapshot);
    }
  }

  lemma LaterFollows(s: Snapshot, t: Snapshot)
    ensures s.generation < t.generation ==> Follows(Some(s), Some(t))
  {
  }

  lemma FailedFollows(s: Snapshot)
    ensures !s.started ==> Follows(Some(s), Some(s.(revision := s.revision + 1, started := false, startFailed := true)))
  {
  }

  lemma NothingBefore(t: Option<Snapshot>)
    ensures Follows(None, t)
  {
  }

  lemma SettlingKeys(s: Snapshot)
    ensures SettledStatus(s.status).Keys == s.status.Keys
  {
  }

  lemma StartFollows(l: Loader, generation: nat, kinds: set<Kind>)
    requires Inv(l)
    ensures Follows(l.snapshot, Start(l, generation, kinds).snapshot)
  {
    hide Planned, Settling;
  }

  lemma PlannedRuns(kinds: set<Kind>, s: Snapshot)
    requires kinds <= KINDS && s.status == Planned(kinds) && s.ready == {}
    ensures kinds <= s.status.Keys && ReadyMatches(s)
    ensures forall k | k in s.status :: if k in kinds then s.status[k].state == Pending else s.status[k].state == Unsupported
  {
  }

  lemma InvKeeps(l: Loader, step: Step)
    requires Inv(l) && Enabled(l, step)
    ensures Inv(Next(l, step))
  {
    hide Inv;
    match step {
      case DoStart(g, kinds) => StartKeeps(l, g, kinds);
      case DoAdmit(g, k) => AdmitKeeps(l, g, k);
      case DoEndJob(g, k, st) => EndKeeps(l, g, k, st);
      case DoFinish(g) => FinishKeeps(l, g);
      case DoSettleCancelled(g) => SettleKeeps(l, g);
      case DoReset(g) => ResetKeeps(l, g);
      case DoMarkStale => StaleKeeps(l);
      case DoStop => StopKeeps(l);
      case DoMarkJobStarted(g, k) => MarkKeeps(l, g, k);
      case DoRecordMetrics(g, k, count) => MetricsKeep(l, g, k, count);
      case _ => OthersKeep(l, step);
    }
  }

  lemma NoneReady(s: Snapshot)
    requires ReadyMatches(s) && forall k | k in s.status :: s.status[k].state == Unsupported
    ensures s.ready == {}
  {
    forall k ensures k !in s.ready { assert k in s.ready ==> k in s.status; }
  }

  lemma StartKeeps(l: Loader, g: nat, kinds: set<Kind>)
    requires Inv(l) && kinds <= KINDS
    ensures Inv(Start(l, g, kinds))
  {
    hide Planned;
    var t := Start(l, g, kinds);
    if t != l {
      NoneReady(l.snapshot.value);
      PlannedRuns(kinds, t.snapshot.value);
      assert RunMatches(t, t.snapshot.value);
    }
  }

  lemma AdmitKeeps(l: Loader, g: nat, k: Kind)
    requires Inv(l) && Enabled(l, DoAdmit(g, k))
    ensures Inv(AdmitJob(l, g, k))
  {
    hide RunMatches, ReadyMatches, UnsettledKinds;
    var t := AdmitJob(l, g, k);
    if Admissible(l, g, k) {
      var s := l.snapshot.value;
      assert Unsettled(s.status[k].state) && RunMatches(l, s);
      EndReady(s, t.snapshot.value, k, Loading);
      EndRun(l, t, k, Loading);
    }
  }

  lemma EndKeeps(l: Loader, g: nat, k: Kind, st: State)
    requires Inv(l) && Enabled(l, DoEndJob(g, k, st))
    ensures Inv(EndJob(l, g, k, st))
  {
    if l.snapshot.Some? && g == l.generation && l.ctx == Live && k in l.snapshot.value.status && Unsettled(l.snapshot.value.status[k].state) {
      EndPublished(l, g, k, st);
    } else {
      EndUnpublished(l, g, k, st);
    }
  }

  lemma EndPublished(l: Loader, g: nat, k: Kind, st: State)
    requires Inv(l) && Enabled(l, DoEndJob(g, k, st))
    requires l.snapshot.Some? && g == l.generation && l.ctx == Live && k in l.snapshot.value.status && Unsettled(l.snapshot.value.status[k].state)
    ensures Inv(EndJob(l, g, k, st))
  {
    hide RunMatches, ReadyMatches;
    var s, t := l.snapshot.value, EndJob(l, g, k, st);
    assert !Settled(s);
    EndReady(s, t.snapshot.value, k, st);
    EndRun(l, t, k, st);
  }

  lemma EndReady(s: Snapshot, r: Snapshot, k: Kind, st: State)
    requires ReadyMatches(s) && k in s.status && Unsettled(s.status[k].state)
    requires r.status == s.status[k := s.status[k].(state := st)] && r.ready == if st == Ready then s.ready + {k} else s.ready
    ensures ReadyMatches(r)
  {
  }

  lemma EndRun(l: Loader, t: Loader, k: Kind, st: State)
    requires l.snapshot.Some? && RunMatches(l, l.snapshot.value) && k in l.snapshot.value.status && k in l.runs[l.generation]
    requires l.lost == {} == t.lost
    requires t.generation == l.generation && t.runs == l.runs[l.generation := l.runs[l.generation][k := st]]
    requires t.snapshot.Some? && t.snapshot.value.status == l.snapshot.value.status[k := l.snapshot.value.status[k].(state := st)]
    ensures RunMatches(t, t.snapshot.value)
  {
  }

  lemma EndUnpublished(l: Loader, g: nat, k: Kind, st: State)
    requires Inv(l) && Enabled(l, DoEndJob(g, k, st))
    requires !(l.snapshot.Some? && g == l.generation && l.ctx == Live && k in l.snapshot.value.status && Unsettled(l.snapshot.value.status[k].state))
    ensures Inv(EndJob(l, g, k, st))
  {
    hide ReadyMatches, RunMatches, UnsettledKinds, Unpublished;
    var t := EndJob(l, g, k, st);
    if l.snapshot.Some? {
      EndLost(l, g, k, st);
    }
  }

  /** What an end that is not published does to a generation that is not settled. */
  lemma EndLost(l: Loader, g: nat, k: Kind, st: State)
    requires Inv(l) && Enabled(l, DoEndJob(g, k, st)) && l.snapshot.Some?
    requires !(g == l.generation && l.ctx == Live && k in l.snapshot.value.status && Unsettled(l.snapshot.value.status[k].state))
    ensures var t, s := EndJob(l, g, k, st), l.snapshot.value;
            && t.snapshot == l.snapshot && (l.lost <= t.lost) && (t.lost != l.lost ==> l.ctx == EndedByParent)
            && (l.done == Closed || (Settled(s) && l.lost == {}) ==> t.lost == l.lost)
            && (l.done == Open && !(Settled(s) && l.lost == {}) ==> RunMatches(t, s))
  {
    hide ReadyMatches, UnsettledKinds;
    var s, t := l.snapshot.value, EndJob(l, g, k, st);
    if g == l.generation {
      if l.done == Closed || (Settled(s) && l.lost == {}) {
        assert Settled(s);
      } else {
        EndNoted(l, t, k, st);
      }
    }
  }

  lemma EndNoted(l: Loader, t: Loader, k: Kind, st: State)
    requires l.snapshot.Some? && RunMatches(l, l.snapshot.value) && k in l.runs[l.generation] && Unsettled(l.runs[l.generation][k]) && Terminal(st)
    requires t.generation == l.generation && t.runs == l.runs[l.generation := l.runs[l.generation][k := st]] && t.lost == l.lost + {k}
    ensures RunMatches(t, l.snapshot.value)
  {
  }

  lemma FinishKeeps(l: Loader, g: nat)
    requires Inv(l) && Enabled(l, DoFinish(g))
    ensures Inv(Finish(l, g))
  {
    hide ReadyMatches;
    if l.snapshot.Some? && g == l.generation && RunMatches(l, l.snapshot.value) {
      OnlyLostLeft(l, l.snapshot.value);
    }
  }

  /** When all jobs have ended, exactly the lost categories look unsettled. */
  lemma OnlyLostLeft(l: Loader, s: Snapshot)
    requires RunMatches(l, s) && forall k | k in l.runs[l.generation] :: Terminal(l.runs[l.generation][k])
    ensures l.lost == UnsettledKinds(s) && (l.lost == {} <==> Settled(s))
  {
    forall k ensures k in l.lost <==> k in UnsettledKinds(s) {
      if k in l.runs[l.generation] { assert KnownState(l, s.status[k].state, l.runs[l.generation][k], k); }
    }
    UnsettledIsSettled(s);
  }

  lemma UnsettledIsSettled(s: Snapshot)
    ensures UnsettledKinds(s) == {} <==> Settled(s)
  {
    if UnsettledKinds(s) == {} {
      forall k | k in s.status ensures !Unsettled(s.status[k].state) { assert k !in UnsettledKinds(s); }
    }
  }

  lemma SettleKeeps(l: Loader, g: nat)
    requires Inv(l) && Enabled(l, DoSettleCancelled(g))
    ensures Inv(SettleCancelled(l, g))
  {
    hide SettledStatus, ReadyMatches, Settled, Unsettled, Terminal, RunMatches, UnsettledKinds;
    if l.snapshot.Some? {
      SettlingStatus(l.snapshot.value);
      SettlingIrrelevant(l.snapshot.value);
      UnstartedIsSettled(l.snapshot.value);
      if l.generation != g { RunStays(l, SettleCancelled(l, g), l.snapshot.value, l.snapshot.value); }
    }
  }

  /** Only the run of the current generation, what was lost of it and the published states matter. */
  lemma RunStays(l: Loader, t: Loader, s: Snapshot, r: Snapshot)
    requires t.generation == l.generation && t.lost == l.lost && s.ready == r.ready && s.status.Keys == r.status.Keys && forall k | k in s.status :: s.status[k].state == r.status[k].state
    ensures (l.generation in l.runs ==> l.generation in t.runs && l.runs[l.generation] == t.runs[l.generation]) ==> (RunMatches(l, s) ==> RunMatches(t, r))
    ensures UnsettledKinds(s) == UnsettledKinds(r) && (Settled(s) <==> Settled(r)) && (ReadyMatches(s) <==> ReadyMatches(r))
  {
    hide Unsettled, Terminal;
  }

  lemma UnstartedIsSettled(s: Snapshot)
    ensures (forall k | k in s.status :: s.status[k].state == Unsupported) ==> Settled(s)
  {
  }

  /** Only the status and the ready categories matter. */
  lemma SettlingIrrelevant(s: Snapshot)
    ensures var t := s.(revision := s.revision + 1, status := SettledStatus(s.status));
            Settled(t) && (ReadyMatches(s) ==> ReadyMatches(t))
  {
    SettlingStatus(s);
  }

  lemma ResetKeeps(l: Loader, g: nat)
    requires Inv(l)
    ensures Inv(Reset(l, g))
  {
    if l.snapshot.Some? {
      SettlingStatus(l.snapshot.value);
      SettlingKeys(l.snapshot.value);
    }
  }

  lemma StaleKeeps(l: Loader)
    requires Inv(l)
    ensures Inv(MarkStale(l))
  {
    if l.snapshot.Some? {
      SettlingStatus(l.snapshot.value);
      SettlingKeys(l.snapshot.value);
    }
  }

  lemma StopKeeps(l: Loader)
    requires Inv(l)
    ensures Inv(Stop(l))
  {
    if l.snapshot.Some? {
      SettlingStatus(l.snapshot.value);
      SettlingKeys(l.snapshot.value);
    }
  }

  lemma MarkKeeps(l: Loader, g: nat, k: Kind)
    requires Inv(l)
    ensures Inv(MarkJobStarted(l, g, k))
  {
    hide RunMatches, UnsettledKinds, Settled, ReadyMatches, Unsettled;
    var t := MarkJobStarted(l, g, k);
    if t != l {
      RunStays(l, t, l.snapshot.value, t.snapshot.value);
    }
  }

  lemma MetricsKeep(l: Loader, g: nat, k: Kind, count: int)
    requires Inv(l)
    ensures Inv(RecordMetrics(l, g, k, count))
  {
    hide RunMatches, UnsettledKinds, Settled, ReadyMatches, Unsettled;
    var t := RecordMetrics(l, g, k, count);
    if t != l {
      RunStays(l, t, l.snapshot.value, t.snapshot.value);
    }
  }

  lemma OthersKeep(l: Loader, step: Step)
    requires Inv(l) && Enabled(l, step)
    requires step.DoMarkStartFailed? || step.DoRunnerFinished? || step.DoInstall? || step.ParentEnds?
    ensures Inv(Next(l, step))
  {
  }

  // ----- over every run

  predicate CanRun(l: Loader, steps: seq<Step>)
    decreases |steps|
  {
    steps == [] || (Enabled(l, steps[0]) && CanRun(Next(l, steps[0]), steps[1..]))
  }

  function After(l: Loader, steps: seq<Step>): Loader
    requires CanRun(l, steps)
    decreases |steps|
  {
    if steps == [] then l else After(Next(l, steps[0]), steps[1..])
  }

  lemma {:induction false} OverRuns(l: Loader, steps: seq<Step>)
    requires Inv(l) && CanRun(l, steps)
    ensures Inv(After(l, steps)) && Follows(l.snapshot, After(l, steps).snapshot)
    decreases |steps|
  {
    hide Inv, Follows, Enabled, Next;
    if steps == [] {
      Unmoved(l.snapshot);
    } else {
      var next := Next(l, steps[0]);
      InvKeeps(l, steps[0]);
      FollowsKeeps(l, steps[0]);
      OverRuns(next, steps[1..]);
      FollowsOn(l.snapshot, next.snapshot, After(l, steps).snapshot);
    }
  }

  lemma Reachable(steps: seq<Step>)
    requires CanRun(New(), steps)
    ensures Inv(After(New(), steps))
  {
    OverRuns(New(), steps);
  }

  /** Only a started generation has a Done to close, and a snapshot always shows some category. */
  predicate Shaped(l: Loader) {
    && (l.done != NoDone ==> l.started)
    && (l.snapshot.Some? ==> l.snapshot.value.status != map[])
  }

  lemma NeverEmpty(kinds: set<Kind>, s: Snapshot)
    ensures EmptyStatus() != map[] && Planned(kinds) != map[]
    ensures s.status != map[] ==> SettledStatus(s.status) != map[]
  {
    assert Schemas in EmptyStatus() && Schemas in Planned(kinds);
    assert SettledStatus(s.status).Keys == s.status.Keys;
  }

  lemma ShapedKeeps(l: Loader, step: Step)
    requires Inv(l) && Shaped(l) && Enabled(l, step)
    ensures Shaped(Next(l, step))
  {
    hide Inv, Enabled, Next;
    StartedHasSnapshot(l);
    OnlyStartedCloses(l, step);
    StatusStays(l, step);
  }

  /** Nothing that Shaped speaks of is lost. */
  predicate SameShape(l: Loader, t: Loader) {
    && t.ctx == l.ctx && t.done == l.done && t.started == l.started && t.snapshot.Some? == l.snapshot.Some?
    && (l.snapshot.Some? && l.snapshot.value.status != map[] ==> t.snapshot.value.status != map[])
  }

  lemma PublishKeeps(l: Loader, k: Kind, st: Status)
    requires l.snapshot.Some?
    ensures SameShape(l, Publish(l, l.snapshot.value.status[k := st]))
  {
    assert k in l.snapshot.value.status[k := st];
  }

  lemma AdmitKeepsShape(l: Loader, g: nat, k: Kind)
    requires g in l.runs
    ensures SameShape(l, AdmitJob(l, g, k))
  {
    if Admissible(l, g, k) {
      PublishKeeps(l, k, l.snapshot.value.status[k].(state := Loading));
    }
  }

  lemma StartedKeepsShape(l: Loader, g: nat, k: Kind)
    ensures SameShape(l, MarkJobStarted(l, g, k))
  {
    if l.snapshot.Some? && k in l.snapshot.value.status {
      PublishKeeps(l, k, l.snapshot.value.status[k].(begun := true));
    }
  }

  lemma MetricsKeepShape(l: Loader, g: nat, k: Kind, count: int)
    ensures SameShape(l, RecordMetrics(l, g, k, count))
  {
    if l.snapshot.Some? && k in l.snapshot.value.status {
      PublishKeeps(l, k, l.snapshot.value.status[k].(count := count));
    }
  }

  lemma EndKeepsShape(l: Loader, g: nat, k: Kind, st: State)
    requires g in l.runs
    ensures SameShape(l, EndJob(l, g, k, st))
  {
    hide StatusSnapshot, Unpublished;
    EndedNotEmpty(l, g, k, st);
  }

  lemma EndedNotEmpty(l: Loader, g: nat, k: Kind, st: State)
    ensures var s := StatusSnapshot(l, g, k, st);
            && s.Some? == l.snapshot.Some?
            && (l.snapshot.Some? && l.snapshot.value.status != map[] ==> s.value.status != map[])
  {
    hide Unsettled, Terminal;
    if l.snapshot.Some? && k in l.snapshot.value.status {
      assert k in Ended(l.snapshot.value, k, st).status;
    }
  }

  lemma JobStepKeeps(l: Loader, step: Step)
    requires Enabled(l, step)
    ensures step.DoAdmit? || step.DoMarkJobStarted? || step.DoRecordMetrics? || step.DoEndJob? ==> SameShape(l, Next(l, step))
  {
    hide SameShape, AdmitJob, MarkJobStarted, RecordMetrics, EndJob;
    match step {
      case DoAdmit(g, k) => AdmitKeepsShape(l, g, k);
      case DoMarkJobStarted(g, k) => StartedKeepsShape(l, g, k);
      case DoRecordMetrics(g, k, count) => MetricsKeepShape(l, g, k, count);
      case DoEndJob(g, k, st) => EndKeepsShape(l, g, k, st);
      case _ =>
    }
  }

  lemma OnlyStartedCloses(l: Loader, step: Step)
    requires Enabled(l, step) && (l.done != NoDone ==> l.started)
    ensures Next(l, step).done != NoDone ==> Next(l, step).started
  {
    hide Enabled, EmptyStatus, Planned, SettledStatus, Settled, Installable, AdmitJob, MarkJobStarted, RecordMetrics, EndJob;
    JobStepKeeps(l, step);
  }

  lemma StatusStays(l: Loader, step: Step)
    requires Enabled(l, step) && (l.snapshot.Some? ==> l.snapshot.value.status != map[])
    ensures Next(l, step).snapshot.Some? ==> Next(l, step).snapshot.value.status != map[]
  {
    hide Enabled, EmptyStatus, Planned, SettledStatus, Settled, AdmitJob, MarkJobStarted, RecordMetrics, EndJob;
    JobStepKeeps(l, step);
    if l.snapshot.Some? {
      NeverEmpty(if step.DoStart? then step.kinds else {}, l.snapshot.value);
    }
    SomeStatus();
  }

  lemma SomeStatus()
    ensures EmptyStatus() != map[]
  {
    assert Schemas in EmptyStatus();
  }

  lemma StartedHasSnapshot(l: Loader)
    requires Inv(l)
    ensures l.started ==> l.snapshot.Some? && l.snapshot.value.started
  {
  }

  lemma {:induction false} ShapedOverRuns(l: Loader, steps: seq<Step>)
    requires Inv(l) && Shaped(l) && CanRun(l, steps)
    ensures Shaped(After(l, steps))
    decreases |steps|
  {
    hide Inv, Shaped, Enabled, Next;
    if steps != [] {
      InvKeeps(l, steps[0]);
      ShapedKeeps(l, steps[0]);
      ShapedOverRuns(Next(l, steps[0]), steps[1..]);
    }
  }

  /** Snapshot history.  Between any two moments of any run the snapshot is the same or strictly later
      by generation and then revision; within a generation the stale mark, the start and every
      terminal category of a started generation stay. */
  lemma SnapshotHistory(steps: seq<Step>, more: seq<Step>)
    requires CanRun(New(), steps) && CanRun(After(New(), steps), more) && After(New(), steps).snapshot.Some?
    ensures var a, b := After(New(), steps).snapshot, After(After(New(), steps), more).snapshot;
            && b.Some? && NotEarlier(a.value, b.value) && Extends(a.value, b.value)
            && (a.value.stale && !b.value.stale ==> a.value.generation < b.value.generation)
  {
    Reachable(steps);
    OverRuns(After(New(), steps), more);
  }

  /** A status is ready exactly when the cache is ready for it, and the drained channel is closed exactly
      when no runner is left. */
  lemma SnapshotIsConsistent(steps: seq<Step>)
    requires CanRun(New(), steps)
    ensures var l := After(New(), steps);
            && (l.snapshot.Some? ==> ReadyMatches(l.snapshot.value) && l.snapshot.value.generation == l.generation)
            && (l.drained <==> l.active == 0)
  {
    Reachable(steps);
  }

  predicate ParentStays(steps: seq<Step>) {
    forall i | 0 <= i < |steps| :: !steps[i].ParentEnds?
  }

  lemma {:induction false} NothingIsLost(l: Loader, steps: seq<Step>)
    requires CanRun(l, steps) && ParentStays(steps) && l.ctx != EndedByParent
    ensures After(l, steps).ctx != EndedByParent
    decreases |steps|
  {
    if steps != [] {
      OnlyParentEnds(l, steps[0]);
      NothingIsLost(Next(l, steps[0]), steps[1..]);
    }
  }

  lemma OnlyParentEnds(l: Loader, step: Step)
    requires Enabled(l, step) && !step.ParentEnds? && l.ctx != EndedByParent
    ensures Next(l, step).ctx != EndedByParent
  {
    hide Enabled, EmptyStatus, Planned, SettledStatus, Settled, Installable, AdmitJob, MarkJobStarted, RecordMetrics, EndJob;
    JobStepKeeps(l, step);
  }

  /** In every run: when Done is closed, the categories that look unsettled are exactly the lost ones, so the
      generation is settled exactly when no end was lost; and the generations before are settled. */
  lemma DoneIsSettledExactly(steps: seq<Step>, g: nat)
    requires CanRun(New(), steps)
    ensures var l := After(New(), steps);
            && (l.done == Closed && l.snapshot.Some? ==> l.lost == UnsettledKinds(l.snapshot.value) && (SettledSnapshot(l.snapshot.value) <==> l.lost == {}))
            && (l.lost != {} ==> l.ctx == EndedByParent)
            && (g in l.retired ==> Settled(l.retired[g]))
  {
    Reachable(steps);
    ShapedOverRuns(New(), steps);
    var l := After(New(), steps);
    StartedHasSnapshot(l);
    if l.snapshot.Some? {
      UnsettledIsSettled(l.snapshot.value);
    }
  }

  /** No end is lost if the only ends of contexts are those that Reset, Stop and MarkStale bring about. */
  lemma DoneIsSettled(steps: seq<Step>)
    requires CanRun(New(), steps) && ParentStays(steps)
    ensures var l := After(New(), steps); l.lost == {} && (l.done == Closed && l.snapshot.Some? ==> SettledSnapshot(l.snapshot.value))
  {
    hide CanRun, After;
    NothingIsLost(New(), steps);
    DoneIsSettledExactly(steps, 0);
  }

  /** And that does happen: the parent context ends between a job's result and its publication. */
  lemma DoneCanBeUnsettled() returns (steps: seq<Step>)
    ensures CanRun(New(), steps)
    ensures var l := After(New(), steps); l.done == Closed && l.snapshot.Some? && !SettledSnapshot(l.snapshot.value)
  {
    var s1 := Next(New(), DoReset(1));
    var s2 := Next(s1, DoStart(1, {Relations}));
    var s3 := Next(s2, DoAdmit(1, Relations));
    assert s3.snapshot.value.status[Relations].state == Loading;
    assert s2.runs[1] == map[Relations := Pending];
    assert s3.runs[1] == map[Relations := Loading];
    LateParent(s3);
    var tail := [ParentEnds, DoEndJob(1, Relations, Ready), DoFinish(1)];
    steps := [DoReset(1)] + ([DoStart(1, {Relations})] + ([DoAdmit(1, Relations)] + tail));
    Prepend(s2, DoAdmit(1, Relations), tail);
    Prepend(s1, DoStart(1, {Relations}), [DoAdmit(1, Relations)] + tail);
    Prepend(New(), DoReset(1), [DoStart(1, {Relations})] + ([DoAdmit(1, Relations)] + tail));
  }

  lemma LateParent(l: Loader)
    requires l.generation == 1 && l.ctx == Live && l.done == Open && l.snapshot.Some? && !Settled(l.snapshot.value)
    requires 1 in l.runs && l.runs[1] == map[Relations := Loading]
    ensures var steps := [ParentEnds, DoEndJob(1, Relations, Ready), DoFinish(1)];
            CanRun(l, steps) && After(l, steps).done == Closed && After(l, steps).snapshot == l.snapshot
  {
    var a, b := Next(l, ParentEnds), Next(Next(l, ParentEnds), DoEndJob(1, Relations, Ready));
    LateSteps(l);
    hide Settled, Enabled, Next;
    Prepend(b, DoFinish(1), []);
    Prepend(a, DoEndJob(1, Relations, Ready), [DoFinish(1)]);
    Prepend(l, ParentEnds, [DoEndJob(1, Relations, Ready), DoFinish(1)]);
    assert [DoFinish(1)] + [] == [DoFinish(1)];
    assert [DoEndJob(1, Relations, Ready)] + [DoFinish(1)] == [DoEndJob(1, Relations, Ready), DoFinish(1)];
    assert [ParentEnds] + [DoEndJob(1, Relations, Ready), DoFinish(1)] == [ParentEnds, DoEndJob(1, Relations, Ready), DoFinish(1)];
  }

  lemma LateSteps(l: Loader)
    requires l.generation == 1 && l.ctx == Live && l.done == Open && l.snapshot.Some? && 1 in l.runs && l.runs[1] == map[Relations := Loading]
    ensures Enabled(Next(l, ParentEnds), DoEndJob(1, Relations, Ready))
    ensures Enabled(Next(Next(l, ParentEnds), DoEndJob(1, Relations, Ready)), DoFinish(1))
    ensures var c := Next(Next(Next(l, ParentEnds), DoEndJob(1, Relations, Ready)), DoFinish(1));
            c.done == Closed && c.snapshot == l.snapshot
  {
    var a := Next(l, ParentEnds);
    assert a.runs[1][Relations] == Loading;
    assert Next(a, DoEndJob(1, Relations, Ready)).runs[1] == map[Relations := Ready];
  }

  lemma Prepend(l: Loader, step: Step, rest: seq<Step>)
    requires Enabled(l, step) && CanRun(Next(l, step), rest)
    ensures CanRun(l, [step] + rest) && After(l, [step] + rest) == After(Next(l, step), rest)
  {
    hide Enabled, Next;
    assert ([step] + rest)[1..] == rest;
  }
}
