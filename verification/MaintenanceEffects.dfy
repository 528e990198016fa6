/** What an attempt may do next, when it can publish, and what it leaves alone. */
module MaintenanceEffects {
  import opened Wrappers
  import opened Maintenance
  import opened MaintenanceTheorems

  /** The attempt at hand has not changed the track: only the attempt, and the step count, differ. */
  predicate OnlyAttempt(s: Track, t: Track) {
    t == s.(attempt := t.attempt, step := s.step + 1)
  }

  /** An attempt begins on an open store that has none, a check only with a scan; it takes the baseline and
      the uncertainty epoch of that moment.  Its snapshot is taken once, by anyone but an automatic attempt on
      a stale store; the baseline is valid for it if it is of this generation and epoch and nothing is stale. */
  lemma BeginEffect(s: Track, r: Request)
    requires s.hist != []
    ensures Enabled(s, Begin(r)) <==> !s.closed && s.attempt.None? && (r.mode == Full || r.fingerprint)
    ensures Enabled(s, Begin(r)) ==>
              var t := Next(s, Begin(r));
              && OnlyAttempt(s, t) && t.attempt.Some?
              && var a := t.attempt.value;
                 a.request == r && a.phase.Admitted? && a.began == s.step && a.epoch == s.invalidations && a.base == s.baseline && a.candidate.None? && a.firstRead.None?
    ensures Enabled(s, Snap) <==> s.attempt.Some? && s.attempt.value.phase.Admitted? &&
                                  (!s.stale || (s.attempt.value.request.mode == Full && s.attempt.value.request.explicit))
    ensures Enabled(s, Snap) ==>
              var a, t := s.attempt.value, Next(s, Snap);
              && OnlyAttempt(s, t) && t.attempt.Some?
              && var b := t.attempt.value;
                 && b == a.(phase := Snapped, generation := s.generation, previous := s.cache, valid := b.valid)
                 && (b.valid <==> a.base.Some? && a.base.value.generation == s.generation && a.base.value.invalidations == a.epoch && !s.stale)
  {
  }

  /** A scan keeps the marks of that moment; only a full attempt goes on without one. */
  lemma ScanEffect(s: Track, format: string)
    requires s.hist != [] && s.attempt.Some? && s.attempt.value.phase.Snapped?
    ensures var r := s.attempt.value.request;
            && (Enabled(s, ScanOk(format)) <==> r.fingerprint) && (Enabled(s, NoScan) <==> !r.fingerprint)
            && (Enabled(s, ScanLimited) <==> r.fingerprint && r.mode == Full)
    ensures Enabled(s, ScanOk(format)) ==>
              var t := Next(s, ScanOk(format));
              && OnlyAttempt(s, t) && t.attempt.Some? && t.attempt.value.phase.Scanned? && t.attempt.value.scanned == Now(s)
              && t.attempt.value.candidate == Some(Fingerprint(format, Marks(s.hist[|s.hist| - 1])))
    ensures Enabled(s, NoScan) ==>
              var t := Next(s, NoScan); OnlyAttempt(s, t) && t.attempt == Some(s.attempt.value.(phase := Scanned))
  {
  }

  /** The marks of two fingerprints agree on every object. */
  ghost predicate SameMarks(f: Fingerprint, g: Fingerprint) {
    forall x :: (x in f.marks <==> x in g.marks) && (x in f.marks && x in g.marks ==> f.marks[x] == g.marks[x])
  }

  /** A check whose baseline is valid and of the scan's format and marks. */
  ghost predicate NothingNew(a: Attempt) {
    && a.request.mode == Check && a.valid && a.base.Some? && a.candidate.Some?
    && a.base.value.fingerprint.format == a.candidate.value.format && SameMarks(a.base.value.fingerprint, a.candidate.value)
  }

  /** After the scan, a check with nothing new answers "unchanged", and anything else reads. */
  lemma ScannedDecides(s: Track)
    requires s.hist != [] && s.attempt.Some? && s.attempt.value.phase.Scanned?
    ensures Enabled(s, StartRead) <==> !NothingNew(s.attempt.value)
    ensures Enabled(s, Unchanged) <==> NothingNew(s.attempt.value) && Fence(s, s.attempt.value)
    ensures !Enabled(s, Publish)
  {
    var a := s.attempt.value;
    if a.base.Some? && a.candidate.Some? && SameMarks(a.base.value.fingerprint, a.candidate.value) {
      assert a.base.value.fingerprint.marks == a.candidate.value.marks;
    }
  }

  /** Nothing but Publish changes the cache, the generation, the loader or the baseline, and an attempt that
      fails or finds nothing new is over. */
  lemma OthersLeaveThePublished(s: Track, step: Step)
    requires Enabled(s, step) && step != Publish
    ensures var t := Next(s, step);
            && t.cache == s.cache && t.generation == s.generation && t.loader == s.loader && t.baseline == s.baseline
            && (step == Fail || step == Unchanged ==> OnlyAttempt(s, t) && t.attempt.None?)
  {
    hide Evolves, ChangesContract, FullContract, Marks, MergedCache, Leftovers, SameFingerprint, ValidBaseline, NeedsFull;
  }

  // ----- over runs

  /** The attempt's epoch is the store's exactly while no Invidate has come since it began; a check has a
      scan behind it once it is past scanning. */
  predicate Watched(s: Track) {
    s.attempt.Some? ==>
      var a := s.attempt.value;
      && a.loader == s.loader && a.began < s.step
      && (a.epoch == s.invalidations <==> s.invalidated < a.began)
      && (!a.phase.Admitted? ==> a.generation == s.generation)
      && (a.request.mode == Check ==> a.request.fingerprint && (a.phase.Scanned? || a.phase.Reading? || a.phase.Built? ==> a.candidate.Some?))
  }

  lemma WatchedKeeps(s: Track, step: Step)
    requires Fenced(s) && Watched(s) && Enabled(s, step)
    ensures Watched(Next(s, step))
  {
    hide History, Evolves, ChangesContract, FullContract, Marks, MergedCache, Leftovers, SameFingerprint, ValidBaseline, NeedsFull, BaselineOk;
  }

  lemma {:induction false} WatchedOverRuns(s: Track, steps: seq<Step>)
    requires Fenced(s) && Watched(s) && CanRun(s, steps)
    ensures Fenced(After(s, steps)) && Watched(After(s, steps))
    decreases |steps|
  {
    hide Fenced, Watched, Enabled, Next;
    if steps != [] {
      FencedKeeps(s, steps[0]);
      WatchedKeeps(s, steps[0]);
      WatchedOverRuns(Next(s, steps[0]), steps[1..]);
    }
  }

  lemma Reachable(s0: Track, steps: seq<Step>)
    requires Fresh(s0) && CanRun(s0, steps)
    ensures Fenced(After(s0, steps)) && Watched(After(s0, steps))
  {
    hide Fenced, CanRun, After;
    FreshIsFenced(s0);
    WatchedOverRuns(s0, steps);
  }

  /** A built attempt can be published exactly when no Invalidate has come since it began and the store is open;
      and so can a check with nothing new be answered. */
  lemma PublishesUnlessDisturbed(s0: Track, steps: seq<Step>)
    requires Fresh(s0) && CanRun(s0, steps) && After(s0, steps).attempt.Some?
    ensures var s := After(s0, steps); var a := s.attempt.value;
            && (Enabled(s, Publish) <==> a.phase.Built? && s.invalidated < a.began && !s.closed)
            && (Enabled(s, Unchanged) <==> a.phase.Scanned? && NothingNew(a) && s.invalidated < a.began && !s.closed)
            && (a.request.mode == Check && (a.phase.Scanned? || a.phase.Reading? || a.phase.Built?) ==> a.candidate.Some?)
  {
    hide CanRun, After;
    Reachable(s0, steps);
    FencedHistory(After(s0, steps));
    if After(s0, steps).attempt.value.phase.Scanned? { ScannedDecides(After(s0, steps)); }
  }

  lemma FencedHistory(s: Track)
    requires Fenced(s)
    ensures s.hist != []
  {
  }

  // ----- a closed store

  lemma ClosedStep(s: Track, step: Step)
    requires s.closed && Enabled(s, step)
    ensures var t := Next(s, step);
            && t.closed && t.cache == s.cache && t.generation == s.generation && t.baseline == s.baseline
            && step != Publish && step != Unchanged && step != Invalidate && !step.Begin?
  {
    hide Evolves, ChangesContract, FullContract, Marks, MergedCache, Leftovers, SameFingerprint, ValidBaseline, NeedsFull;
  }

  predicate NothingAnswered(steps: seq<Step>) {
    forall i | 0 <= i < |steps| :: steps[i] != Publish && steps[i] != Unchanged && steps[i] != Invalidate && !steps[i].Begin?
  }

  lemma {:induction false} ClosedOverRuns(s: Track, steps: seq<Step>)
    requires s.closed && CanRun(s, steps)
    ensures var t := After(s, steps);
            t.closed && t.cache == s.cache && t.generation == s.generation && t.baseline == s.baseline && NothingAnswered(steps)
    decreases |steps|
  {
    hide Enabled, Next;
    if steps != [] {
      ClosedStep(s, steps[0]);
      ClosedOverRuns(Next(s, steps[0]), steps[1..]);
    }
  }

  /** Once the store is closed nothing is published, answered, invalidated or begun any more. */
  lemma CloseIsFinal(s: Track, steps: seq<Step>)
    requires Enabled(s, Close) && CanRun(Next(s, Close), steps)
    ensures var t := After(Next(s, Close), steps);
            t.closed && t.cache == s.cache && t.generation == s.generation && t.baseline == s.baseline && NothingAnswered(steps)
  {
    hide CanRun, After;
    ClosedOverRuns(Next(s, Close), steps);
  }

  // ----- a full read, once begun

  predicate IsFull(s: Track, began: nat) {
    s.attempt.Some? && s.attempt.value.began == began ==>
      match s.attempt.value.phase
      case Reading(full, _) => full
      case Built(_, full, _) => full
      case _ => false
  }

  lemma FullStep(s: Track, step: Step, began: nat)
    requires Enabled(s, step) && IsFull(s, began) && began < s.step
    ensures IsFull(Next(s, step), began)
  {
    hide Evolves, ChangesContract, FullContract, Marks, MergedCache, Leftovers, SameFingerprint, ValidBaseline;
  }

  lemma {:induction false} FullOverRuns(s: Track, steps: seq<Step>, began: nat)
    requires CanRun(s, steps) && IsFull(s, began) && began < s.step
    ensures IsFull(After(s, steps), began)
    decreases |steps|
  {
    hide Enabled, IsFull;
    if steps != [] {
      FullStep(s, steps[0], began);
      FullOverRuns(Next(s, steps[0]), steps[1..], began);
    }
  }

  /** When the provider asks for it, an incremental attempt turns to a full read, of the moments from then on, and
      stays with it to its end. */
  lemma AskedForFull(s0: Track, steps: seq<Step>, more: seq<Step>)
    requires Fresh(s0) && CanRun(s0, steps) && Enabled(After(s0, steps), NeedFull)
    requires CanRun(Next(After(s0, steps), NeedFull), more)
    ensures var s := After(s0, steps); var t := Next(s, NeedFull);
            && OnlyAttempt(s, t) && t.attempt == Some(s.attempt.value.(phase := Reading(true, Now(s))))
            && IsFull(After(t, more), s.attempt.value.began)
  {
    hide CanRun, After, Fenced;
    Reachable(s0, steps);
    FullOverRuns(Next(After(s0, steps), NeedFull), more, After(s0, steps).attempt.value.began);
  }

  // ----- a refresh is always possible

  const REFRESH := Request(Full, false, true)

  lemma ReadAllNow(hist: seq<Db>)
    requires hist != []
    ensures FullContract(hist, |hist| - 1, Values(hist[|hist| - 1]))
  {
    var now := |hist| - 1;
    forall x: Name ensures HeldBetween(hist, x, Held(Values(hist[now]), x), now, now) { assert At(hist[now], x) == Held(Values(hist[now]), x); }
  }

  lemma ReadsNow(s: Track) returns (t: Track)
    requires s.hist != [] && s.attempt.None? && !s.closed
    ensures CanRun(s, [Begin(REFRESH), Snap, NoScan, StartRead]) && t == After(s, [Begin(REFRESH), Snap, NoScan, StartRead])
    ensures t == s.(attempt := t.attempt, step := s.step + 4) && t.attempt.Some? && t.attempt.value.phase == Reading(true, Now(s)) && Fence(t, t.attempt.value)
    ensures t.attempt.value.candidate.None?
  {
    hide Evolves, ChangesContract, FullContract, Marks, SameFingerprint, ValidBaseline;
    var s1 := Next(s, Begin(REFRESH));
    var s2 := Next(s1, Snap);
    var s3 := Next(s2, NoScan);
    t := Next(s3, StartRead);
    hide Enabled, Next;
    OneMore(s3, t, StartRead, []);
    OneMore(s2, s3, NoScan, [StartRead] + []);
    OneMore(s1, s2, Snap, [NoScan] + ([StartRead] + []));
    OneMore(s, s1, Begin(REFRESH), [Snap] + ([NoScan] + ([StartRead] + [])));
    assert [Begin(REFRESH)] + ([Snap] + ([NoScan] + ([StartRead] + []))) == [Begin(REFRESH), Snap, NoScan, StartRead];
  }

  /** An open store, stale or not, can always be brought up to date: an explicit full attempt that nothing disturbs
      publishes the database as it is, under the next generation, not stale. */
  lemma CanAlwaysRefresh(s: Track) returns (steps: seq<Step>)
    requires s.hist != [] && s.attempt.None? && !s.closed
    ensures CanRun(s, steps) && After(s, steps).attempt.None? && After(s, steps).hist == s.hist
    ensures var t := After(s, steps);
            t.cache == Values(s.hist[|s.hist| - 1]) && t.generation == s.generation + 1 && t.detailGeneration == t.generation && !t.stale && !t.detailStale
  {
    var begin := [Begin(REFRESH), Snap, NoScan, StartRead];
    var all := Values(s.hist[|s.hist| - 1]);
    var t := ReadsNow(s);
    ReadAllNow(s.hist);
    var t1 := Next(t, Everything(all));
    var t2 := Next(t1, Publish);
    OneMore(t1, t2, Publish, []);
    OneMore(t, t1, Everything(all), [Publish] + []);
    RunsJoin(s, begin, [Everything(all)] + ([Publish] + []));
    steps := begin + ([Everything(all)] + ([Publish] + []));
  }
}
