/** What readers of a loader's snapshots see: the effect of every lifecycle call, and the states that a live
    generation shows. */
module LoaderEffects {
  import opened Wrappers
  import opened CatalogTypes
  import opened LoaderModel
  import opened LoaderHistory

  /** Whatever was pending or loading is now cancelled, and everything else as it was. */
  predicate CancelledOnly(s: map<Kind, Status>, t: map<Kind, Status>) {
    t.Keys == s.Keys && forall k | k in s ::
      t[k] == if s[k].state == Pending || s[k].state == Loading then s[k].(state := Cancelled) else s[k]
  }

  /** Reset installs an empty, unstarted and fresh generation, and settles the one before; a stopped loader
      and a generation that is not newer are left alone. */
  lemma ResetEffect(l: Loader, g: nat)
    ensures var t := Next(l, DoReset(g));
            if l.stopped || g <= l.generation then t == l else
              && t.generation == g && !t.started && !t.startFailed && t.done == NoDone && t.ctx == NoCtx && t.snapshot.Some?
              && var s := t.snapshot.value;
                 && !SettledSnapshot(s) && s.generation == g && s.revision == 1 && !s.started && !s.startFailed && !s.stale && s.ready == {}
                 && s.status.Keys == KINDS && forall k | k in KINDS :: s.status[k].state == Unsupported
    ensures !l.stopped && g > l.generation && l.snapshot.Some? ==>
              var t := Next(l, DoReset(g));
              && l.generation in t.retired && t.retired[l.generation].stale == l.snapshot.value.stale && t.retired[l.generation].ready == l.snapshot.value.ready
              && CancelledOnly(l.snapshot.value.status, t.retired[l.generation].status)
  {
  }

  /** Start shows exactly the plan as pending, under a live context; it refuses a stopped loader, another
      generation, and one that was started or failed to. */
  lemma StartEffect(l: Loader, g: nat, kinds: set<Kind>)
    requires kinds <= KINDS
    ensures var t := Next(l, DoStart(g, kinds));
            if l.stopped || g != l.generation || l.snapshot.None? || l.started || l.startFailed then t == l else
              && t.started && t.ctx == Live && t.done == Open && t.active == l.active + 1 && !t.drained && t.snapshot.Some?
              && var s := t.snapshot.value;
                 && s.started && s.stale == l.snapshot.value.stale && s.ready == l.snapshot.value.ready
                 && s.status.Keys == KINDS && forall k | k in KINDS :: s.status[k].state == if k in kinds then Pending else Unsupported
  {
  }

  /** MarkStale makes the snapshot stale, settles the generation and ends its context; the generation stays. */
  lemma MarkStaleEffect(l: Loader)
    ensures var t := Next(l, DoMarkStale);
            && (!l.stopped && l.snapshot.Some? ==> t.snapshot.Some? && t.snapshot.value.stale && t.generation == l.generation && t.snapshot.value.generation == l.snapshot.value.generation)
            && (l.stopped || l.snapshot.None? || l.snapshot.value.stale ==> t == l)
            && (!l.stopped && l.snapshot.Some? && !l.snapshot.value.stale ==>
                  t.ctx != Live && t.done != Open && CancelledOnly(l.snapshot.value.status, t.snapshot.value.status) && t.snapshot.value.ready == l.snapshot.value.ready)
  {
  }

  /** Stop settles the generation, ends its context and lets nothing be started, admitted or reset any more. */
  lemma StopEffect(l: Loader)
    ensures var t := Next(l, DoStop);
            && t.stopped && (l.stopped ==> t == l)
            && (!l.stopped ==> t.ctx != Live && t.done != Open)
            && (!l.stopped && l.snapshot.Some? ==>
                  t.snapshot.Some? && CancelledOnly(l.snapshot.value.status, t.snapshot.value.status)
                  && t.snapshot.value.stale == l.snapshot.value.stale && t.snapshot.value.ready == l.snapshot.value.ready)
  {
    if !l.stopped && l.snapshot.Some? && Settled(l.snapshot.value) {
      assert CancelledOnly(l.snapshot.value.status, l.snapshot.value.status);
    }
  }

  lemma {:induction false} StoppedRefuses(l: Loader, steps: seq<Step>, g: nat, k: Kind, kinds: set<Kind>)
    requires l.stopped && CanRun(l, steps)
    ensures var t := After(l, steps);
            t.stopped && !Admissible(t, g, k) && Reset(t, g) == t && Start(t, g, kinds) == t
    decreases |steps|
  {
    if steps != [] {
      StoppedRefuses(Next(l, steps[0]), steps[1..], g, k, kinds);
    }
  }

  /** A runner's figures are kept for a loading or cancelled category of the current generation, and for no
      other; a job is marked as begun once.  Neither changes a state or what is ready. */
  lemma ReportEffect(l: Loader, g: nat, k: Kind, count: int)
    requires l.snapshot.Some?
    ensures var s, t := l.snapshot.value, Next(l, DoRecordMetrics(g, k, count));
            if g == l.generation && k in s.status && (s.status[k].state == Loading || s.status[k].state == Cancelled)
            then t.snapshot == Some(s.(revision := s.revision + 1, status := s.status[k := s.status[k].(count := count)]))
            else t == l
    ensures var s, t := l.snapshot.value, Next(l, DoMarkJobStarted(g, k));
            if !l.stopped && g == l.generation && l.ctx == Live && k in s.status && s.status[k].state == Loading && !s.status[k].begun
            then t.snapshot == Some(s.(revision := s.revision + 1, status := s.status[k := s.status[k].(begun := true)]))
            else t == l
  {
  }

  /** A start that fails is shown, as a generation that has ended; it is refused where a start is, and no start
      of the generation comes after it. */
  lemma StartFailedEffect(l: Loader, g: nat, kinds: set<Kind>)
    requires Inv(l)
    ensures var t := Next(l, DoMarkStartFailed(g));
            if l.stopped || g != l.generation || l.snapshot.None? || l.started || l.startFailed then t == l else
              && t.startFailed && !t.started && t.snapshot.Some?
              && var s := t.snapshot.value;
                 && s == l.snapshot.value.(revision := l.snapshot.value.revision + 1, startFailed := true)
                 && (SettledSnapshot(s) <==> s.status != map[])
                 && Start(t, g, kinds) == t && MarkStartFailed(t, g) == t
  {
  }

  /** A job is admitted if the loader runs and its generation is current, started and live and shows it as
      pending; then it shows as loading and counts as one more runner.  Otherwise nothing changes. */
  lemma AdmitEffect(l: Loader, g: nat, k: Kind)
    requires Enabled(l, DoAdmit(g, k))
    ensures var t := Next(l, DoAdmit(g, k));
            if !l.stopped && l.started && g == l.generation && l.ctx == Live && l.snapshot.Some? && k in l.snapshot.value.status && l.snapshot.value.status[k].state == Pending
            then
              var s := l.snapshot.value;
              && t.snapshot == Some(s.(revision := s.revision + 1, status := s.status[k := s.status[k].(state := Loading)]))
              && t.active == l.active + 1 && !t.drained && g in t.runs && t.runs[g] == l.runs[g][k := Loading]
            else t == l
  {
  }

  /** An end that comes under another generation, or a context that has ended, or for a category that has an end
      already, changes no snapshot. */
  lemma LateEndEffect(l: Loader, g: nat, k: Kind, st: State)
    requires Enabled(l, DoEndJob(g, k, st)) && l.snapshot.Some?
    requires g != l.generation || l.ctx != Live || k !in l.snapshot.value.status || (l.snapshot.value.status[k].state != Pending && l.snapshot.value.status[k].state != Loading)
    ensures var t := Next(l, DoEndJob(g, k, st));
            t.snapshot == l.snapshot && t.generation == l.generation && t.done == l.done && t.active == l.active
  {
  }

  /** A schedule that gives up settles its generation and closes Done, unless the generation is over. */
  lemma SettleEffect(l: Loader, g: nat)
    requires l.snapshot.Some? && Enabled(l, DoSettleCancelled(g))
    ensures var t := Next(l, DoSettleCancelled(g));
            && t.runs == l.runs - {g} && t.generation == l.generation && t.ctx == l.ctx && t.active == l.active
            && (g != l.generation ==> t.snapshot == l.snapshot && t.done == l.done)
            && (g == l.generation ==> t.done != Open && t.snapshot.Some? && CancelledOnly(l.snapshot.value.status, t.snapshot.value.status)
                                      && t.snapshot.value.ready == l.snapshot.value.ready && t.snapshot.value.stale == l.snapshot.value.stale)
  {
    if Settled(l.snapshot.value) {
      assert CancelledOnly(l.snapshot.value.status, l.snapshot.value.status);
    }
  }

  /** A schedule that finishes closes Done, unless the generation is over; a runner that returns is counted off. */
  lemma ReturnEffect(l: Loader, g: nat)
    ensures Enabled(l, DoFinish(g)) ==>
              var t := Next(l, DoFinish(g));
              && t == l.(runs := l.runs - {g}, done := t.done) && (if g == l.generation then t.done != Open else t.done == l.done)
    ensures Enabled(l, DoRunnerFinished) ==>
              var t := Next(l, DoRunnerFinished);
              t == l.(active := l.active - 1, drained := t.drained) && (t.drained <==> l.active == 1)
  {
  }

  /** A snapshot is installed in a loader that has none and was not stopped, under a context that goes on, if it
      is of a numbered, started generation, every known category has ended with a count, and exactly those ready
      in the cache are shown as ready.  The generation then is over: Done is closed and nothing is admitted. */
  lemma InstallEffect(l: Loader, s: Snapshot, ended: bool, k: Kind)
    ensures var t := Next(l, DoInstall(s, ended));
            if && !ended && !l.stopped && !l.started && l.snapshot.None?
               && s.generation != 0 && s.started && !s.startFailed && s.status != map[] && s.status.Keys <= KINDS && s.ready <= s.status.Keys
               && forall j | j in s.status :: s.status[j].state != Pending && s.status[j].state != Loading && s.status[j].count >= 0
                                              && (s.status[j].state == Ready <==> j in s.ready)
            then
              && t.snapshot == Some(s) && t.generation == s.generation && t.started && t.ctx == Live && t.done == Closed
              && !Admissible(t, s.generation, k) && Start(t, s.generation, {k}) == t
            else t == l
  {
  }

  // ----- when Done is closed

  /** A started generation's Done is open while its schedule has not returned and the loader has not ended its
      context, and closed from then on. */
  predicate DoneFits(l: Loader) {
    && (l.snapshot.None? ==> l.runs == map[])
    && (!l.started ==> l.done == NoDone)
    && (l.started ==> if l.generation in l.runs && l.ctx != EndedByLoader then l.done == Open else l.done == Closed)
  }

  lemma DoneKeeps(l: Loader, step: Step)
    requires Inv(l) && DoneFits(l) && Enabled(l, step)
    ensures DoneFits(Next(l, step))
  {
    hide RunMatches, ReadyMatches, Settled, UnsettledKinds, SettledSnapshot, Unpublished;
  }

  lemma {:induction false} DoneOverRuns(l: Loader, steps: seq<Step>)
    requires Inv(l) && DoneFits(l) && CanRun(l, steps)
    ensures DoneFits(After(l, steps))
    decreases |steps|
  {
    hide Inv, DoneFits, Enabled, Next;
    if steps != [] {
      InvKeeps(l, steps[0]);
      DoneKeeps(l, steps[0]);
      DoneOverRuns(Next(l, steps[0]), steps[1..]);
    }
  }

  /** In every reachable state Done of a started generation is closed exactly when its schedule has returned, or
      the loader has ended it, or it was installed. */
  lemma DoneIsExact(steps: seq<Step>)
    requires CanRun(New(), steps)
    ensures var l := After(New(), steps);
            && (l.done == NoDone <==> !l.started)
            && (l.started ==> (l.done == Closed <==> l.generation !in l.runs || l.ctx == EndedByLoader))
  {
    DoneOverRuns(New(), steps);
  }

  // ----- a stale generation

  /** No job of generation `g` can be admitted any more. */
  predicate Dead(l: Loader, g: nat) {
    || l.generation > g || l.stopped
    || (l.generation == g && l.startFailed && !l.started)
    || (l.generation == g && l.started && (l.ctx != Live || NoPending(l)))
  }

  predicate NoPending(l: Loader) {
    l.snapshot.Some? ==> forall k | k in l.snapshot.value.status :: l.snapshot.value.status[k].state != Pending
  }

  lemma DeadStays(l: Loader, step: Step, g: nat)
    requires Inv(l) && Enabled(l, step) && l.snapshot.Some? && Dead(l, g)
    ensures Dead(Next(l, step), g)
  {
  }

  lemma {:induction false} DeadOverRuns(l: Loader, steps: seq<Step>, g: nat)
    requires Inv(l) && CanRun(l, steps) && l.snapshot.Some? && Dead(l, g)
    ensures Dead(After(l, steps), g) && forall k :: !Admissible(After(l, steps), g, k)
    decreases |steps|
  {
    hide Dead, Inv;
    if steps == [] {
      DeadAdmitsNothing(l, g);
    } else {
      InvKeeps(l, steps[0]);
      DeadStays(l, steps[0], g);
      FollowsKeeps(l, steps[0]);
      DeadOverRuns(Next(l, steps[0]), steps[1..], g);
    }
  }

  lemma DeadAdmitsNothing(l: Loader, g: nat)
    requires Dead(l, g)
    ensures forall k :: !Admissible(l, g, k)
  {
  }

  /** After these steps a job of this generation is admitted. */
  ghost predicate Admits(l: Loader, steps: seq<Step>, g: nat) {
    CanRun(l, steps) && exists k :: Admitted(After(l, steps), g, k)
  }

  predicate Admitted(l: Loader, g: nat, k: Kind) {
    Enabled(l, DoAdmit(g, k)) && Admissible(l, g, k)
  }

  /** A generation that was marked stale and can still admit jobs: it had not been started, or it was stale
      before and some job is pending. */
  predicate StillAdmits(l: Loader)
    requires l.snapshot.Some?
  {
    || (!l.started && !l.startFailed)
    || (l.started && l.snapshot.value.stale && l.ctx == Live && !NoPending(l))
  }

  /** Once marked, every later snapshot of the generation is stale.  A job of it is admitted in some later
      run exactly when marking it ended nothing: it was not started yet, or it was stale already, still live,
      and had a job pending. */
  lemma StaleGeneration(before: seq<Step>)
    requires CanRun(New(), before) && !After(New(), before).stopped && After(New(), before).snapshot.Some?
    ensures var l := After(New(), before); var t := Next(l, DoMarkStale);
            forall more: seq<Step> | CanRun(t, more) :: StaleLater(l, After(t, more))
    ensures var l := After(New(), before); var t := Next(l, DoMarkStale);
            (exists more :: Admits(t, more, l.generation)) <==> StillAdmits(l)
  {
    hide Inv, Dead, StillAdmits, Admits;
    var l := After(New(), before);
    var t := Next(l, DoMarkStale);
    Reachable(before);
    InvKeeps(l, DoMarkStale);
    SnapshotGeneration(l);
    MarkStaleEffect(l);
    forall more: seq<Step> | CanRun(t, more) ensures StaleLater(l, After(t, more)) {
      OverRuns(t, more);
    }
    if StillAdmits(l) {
      var more := AdmitsLater(l);
    } else {
      MarkedIsDead(l);
      forall more: seq<Step> ensures !Admits(t, more, l.generation) {
        if CanRun(t, more) { NeverAdmits(t, more, l.generation); }
        NotAdmitted(t, more, l.generation);
      }
    }
  }

  predicate StaleLater(l: Loader, t: Loader)
    requires l.snapshot.Some?
  {
    t.snapshot.Some? && (t.snapshot.value.generation == l.snapshot.value.generation ==> t.snapshot.value.stale)
  }

  lemma SnapshotGeneration(l: Loader)
    requires Inv(l) && l.snapshot.Some?
    ensures l.snapshot.value.generation == l.generation
  {
  }

  lemma MarkedIsDead(l: Loader)
    requires Inv(l) && !l.stopped && l.snapshot.Some? && !StillAdmits(l)
    ensures Dead(Next(l, DoMarkStale), l.generation)
  {
  }

  lemma NeverAdmits(t: Loader, more: seq<Step>, g: nat)
    requires Inv(t) && CanRun(t, more) && t.snapshot.Some? && Dead(t, g)
    ensures forall k :: !Admissible(After(t, more), g, k)
  {
    DeadOverRuns(t, more, g);
  }

  lemma NotAdmitted(t: Loader, more: seq<Step>, g: nat)
    requires CanRun(t, more) ==> forall k :: !Admissible(After(t, more), g, k)
    ensures !Admits(t, more, g)
  {
  }

  lemma AdmitsLater(l: Loader) returns (more: seq<Step>)
    requires Inv(l) && !l.stopped && l.snapshot.Some? && StillAdmits(l)
    ensures Admits(Next(l, DoMarkStale), more, l.generation)
  {
    var t := Next(l, DoMarkStale);
    if !l.started {
      more := [DoStart(l.generation, {Relations})];
      StartEffect(t, l.generation, {Relations});
      var u := Next(t, DoStart(l.generation, {Relations}));
      assert more[1..] == [] && After(t, more) == u;
      assert Admitted(u, l.generation, Relations);
    } else {
      more := [];
      var k :| k in l.snapshot.value.status && l.snapshot.value.status[k].state == Pending;
      assert t == l && After(t, more) == l;
      PendingIsKnown(l, k);
      assert Admitted(l, l.generation, k);
    }
  }

  /** Under a live context the schedule knows every pending job as pending. */
  lemma PendingIsKnown(l: Loader, k: Kind)
    requires Inv(l) && l.snapshot.Some? && l.ctx == Live
    requires k in l.snapshot.value.status && l.snapshot.value.status[k].state == Pending
    ensures Enabled(l, DoAdmit(l.generation, k))
  {
    assert Unsettled(l.snapshot.value.status[k].state);
  }

  // ----- the states that a live generation shows

  /** Nothing here ends the generation's context. */
  predicate KeepsLive(step: Step) {
    !step.DoReset? && !step.DoStop? && !step.DoMarkStale? && !step.ParentEnds?
  }

  /** What the schedule of generation `g` last did to a job. */
  function LastDone(steps: seq<Step>, g: nat, k: Kind): State {
    if steps == [] then Pending else
      match steps[|steps| - 1]
      case DoAdmit(h, j) => if h == g && j == k then Loading else LastDone(steps[..|steps| - 1], g, k)
      case DoEndJob(h, j, st) => if h == g && j == k then st else LastDone(steps[..|steps| - 1], g, k)
      case _ => LastDone(steps[..|steps| - 1], g, k)
  }

  /** A live generation, of all the categories that are known, shows what its schedule did. */
  ghost predicate Shows(l: Loader, g: nat, kinds: set<Kind>, known: set<Kind>, steps: seq<Step>) {
    && l.generation == g && l.started && !l.stopped && l.ctx == Live && l.snapshot.Some?
    && kinds <= known && l.snapshot.value.status.Keys == known
    && (forall k | k in known :: ShownAs(l.snapshot.value, k, if k in kinds then LastDone(steps, g, k) else Unsupported))
    && (g in l.runs ==> l.runs[g].Keys == kinds && forall k | k in kinds :: l.runs[g][k] == LastDone(steps, g, k))
  }

  /** This is the state of the category, and the cache calls it ready exactly when it is. */
  predicate ShownAs(s: Snapshot, k: Kind, st: State) {
    k in s.status && s.status[k].state == st && (k in s.ready <==> st == Ready)
  }

  lemma LastStep(steps: seq<Step>, step: Step, g: nat, k: Kind)
    ensures LastDone(steps + [step], g, k) ==
      if step.DoAdmit? && step.generation == g && step.kind == k then Loading
      else if step.DoEndJob? && step.generation == g && step.kind == k then step.state
      else LastDone(steps, g, k)
  {
    assert (steps + [step])[..|steps|] == steps;
  }

  /** Only the state of job `k` differs, in the schedule's notes too. */
  predicate OnlyJob(l: Loader, t: Loader, g: nat, k: Kind, st: State) {
    && t.generation == l.generation && t.started == l.started && t.stopped == l.stopped && t.ctx == l.ctx
    && l.snapshot.Some? && t.snapshot.Some? && k in l.snapshot.value.status
    && t.snapshot.value.status.Keys == l.snapshot.value.status.Keys
    && (forall j | j in l.snapshot.value.status :: t.snapshot.value.status[j].state == if j == k then st else l.snapshot.value.status[j].state)
    && t.snapshot.value.ready == l.snapshot.value.ready + (if st == Ready then {k} else {})
    && (g in t.runs ==> g in l.runs && k in l.runs[g] && t.runs[g] == l.runs[g][k := st])
  }

  /** An admitted job shows as loading, and a job that ends shows how. */
  lemma JobEffect(l: Loader, g: nat, step: Step)
    requires l.generation == g && l.started && !l.stopped && l.ctx == Live && l.snapshot.Some?
    requires (step.DoAdmit? || step.DoEndJob?) && step.generation == g && Enabled(l, step)
    requires step.kind in l.snapshot.value.status && l.snapshot.value.status[step.kind].state == l.runs[g][step.kind]
    ensures OnlyJob(l, Next(l, step), g, step.kind, if step.DoAdmit? then Loading else step.state)
  {
  }

  lemma JobShownAs(l: Loader, t: Loader, g: nat, kinds: set<Kind>, steps: seq<Step>, step: Step, j: Kind)
    requires (step.DoAdmit? || step.DoEndJob?) && step.generation == g && step.kind in kinds && LastDone(steps, g, step.kind) != Ready
    requires OnlyJob(l, t, g, step.kind, if step.DoAdmit? then Loading else step.state)
    requires ShownAs(l.snapshot.value, j, if j in kinds then LastDone(steps, g, j) else Unsupported)
    ensures ShownAs(t.snapshot.value, j, if j in kinds then LastDone(steps + [step], g, j) else Unsupported)
  {
    hide LastDone;
    LastStep(steps, step, g, j);
  }

  lemma JobNoted(l: Loader, t: Loader, g: nat, kinds: set<Kind>, steps: seq<Step>, step: Step)
    requires (step.DoAdmit? || step.DoEndJob?) && step.generation == g && step.kind in kinds
    requires OnlyJob(l, t, g, step.kind, if step.DoAdmit? then Loading else step.state)
    requires g in l.runs ==> l.runs[g].Keys == kinds && forall k | k in kinds :: l.runs[g][k] == LastDone(steps, g, k)
    ensures g in t.runs ==> t.runs[g].Keys == kinds && forall k | k in kinds :: t.runs[g][k] == LastDone(steps + [step], g, k)
  {
    hide LastDone;
    forall j | g in t.runs && j in kinds ensures t.runs[g][j] == LastDone(steps + [step], g, j) {
      LastStep(steps, step, g, j);
    }
  }

  lemma JobShows(l: Loader, t: Loader, g: nat, kinds: set<Kind>, known: set<Kind>, steps: seq<Step>, step: Step)
    requires Shows(l, g, kinds, known, steps) && (step.DoAdmit? || step.DoEndJob?) && step.generation == g && step.kind in kinds
    requires LastDone(steps, g, step.kind) != Ready
    requires OnlyJob(l, t, g, step.kind, if step.DoAdmit? then Loading else step.state)
    ensures Shows(t, g, kinds, known, steps + [step])
  {
    hide LastDone, ShownAs;
    forall j | j in known ensures ShownAs(t.snapshot.value, j, if j in kinds then LastDone(steps + [step], g, j) else Unsupported) {
      JobShownAs(l, t, g, kinds, steps, step, j);
    }
    JobNoted(l, t, g, kinds, steps, step);
  }

  /** The same states and ready categories, and the same live generation. */
  predicate Alike(l: Loader, t: Loader, g: nat) {
    && t.generation == l.generation && t.started == l.started && t.stopped == l.stopped && t.ctx == l.ctx
    && l.snapshot.Some? && t.snapshot.Some?
    && t.snapshot.value.status.Keys == l.snapshot.value.status.Keys && t.snapshot.value.ready == l.snapshot.value.ready
    && (forall k | k in l.snapshot.value.status :: t.snapshot.value.status[k].state == l.snapshot.value.status[k].state)
    && (g in t.runs ==> g in l.runs && t.runs[g] == l.runs[g])
  }

  lemma OthersAlike(l: Loader, g: nat, step: Step)
    requires l.generation == g && l.started && !l.stopped && l.ctx == Live && l.snapshot.Some?
    requires KeepsLive(step) && Enabled(l, step) && !((step.DoAdmit? || step.DoEndJob?) && step.generation == g)
    ensures Alike(l, Next(l, step), g)
  {
  }

  lemma AlikeShows(l: Loader, t: Loader, g: nat, kinds: set<Kind>, known: set<Kind>, steps: seq<Step>, step: Step)
    requires Shows(l, g, kinds, known, steps) && Alike(l, t, g) && !((step.DoAdmit? || step.DoEndJob?) && step.generation == g)
    ensures Shows(t, g, kinds, known, steps + [step])
  {
    hide LastDone;
    forall k { LastStep(steps, step, g, k); }
  }

  /** A step of a schedule, and what is shown afterwards. */
  lemma ShowsStep(l: Loader, g: nat, kinds: set<Kind>, known: set<Kind>, steps: seq<Step>, step: Step)
    requires Shows(l, g, kinds, known, steps) && KeepsLive(step) && Enabled(l, step)
    ensures Shows(Next(l, step), g, kinds, known, steps + [step])
  {
    if (step.DoAdmit? || step.DoEndJob?) && step.generation == g {
      JobEffect(l, g, step);
      JobShows(l, Next(l, step), g, kinds, known, steps, step);
    } else {
      OthersAlike(l, g, step);
      AlikeShows(l, Next(l, step), g, kinds, known, steps, step);
    }
  }

  /** As long as its context lives, a generation shows each planned job pending until it is admitted,
      loading until it ends, and then the way it ended; and exactly the jobs that ended ready are ready in
      the cache. */
  lemma {:induction false} LiveStatus(l: Loader, g: nat, kinds: set<Kind>, steps: seq<Step>)
    requires Inv(l) && kinds <= KINDS && !l.stopped && g == l.generation && l.snapshot.Some? && !l.started && !l.startFailed
    requires CanRun(Next(l, DoStart(g, kinds)), steps) && forall s | s in steps :: KeepsLive(s)
    ensures Shows(After(Next(l, DoStart(g, kinds)), steps), g, kinds, KINDS, steps)
    decreases |steps|
  {
    hide Shows, Start, Inv;
    var t := Next(l, DoStart(g, kinds));
    if steps == [] {
      StartShows(l, g, kinds);
    } else {
      var front, last := steps[..|steps| - 1], steps[|steps| - 1];
      assert steps == front + [last];
      SplitRun(t, front, last);
      LiveStatus(l, g, kinds, front);
      ShowsStep(After(t, front), g, kinds, KINDS, front, last);
    }
  }

  lemma StartShows(l: Loader, g: nat, kinds: set<Kind>)
    requires Inv(l) && kinds <= KINDS && !l.stopped && g == l.generation && l.snapshot.Some? && !l.started && !l.startFailed
    ensures Shows(Next(l, DoStart(g, kinds)), g, kinds, KINDS, [])
  {
    NoneReady(l.snapshot.value);
    StartEffect(l, g, kinds);
  }

  lemma {:induction false} SplitRun(l: Loader, front: seq<Step>, last: Step)
    requires CanRun(l, front + [last])
    ensures CanRun(l, front) && Enabled(After(l, front), last) && After(l, front + [last]) == Next(After(l, front), last)
    decreases |front|
  {
    hide Enabled, Next;
    if front == [] {
      assert (front + [last])[1..] == [];
    } else {
      assert (front + [last])[1..] == front[1..] + [last] && (front + [last])[0] == front[0];
      SplitRun(Next(l, front[0]), front[1..], last);
    }
  }
}
