/** What every run of Maintain, Invalidate and changes to the database keeps. */
module MaintenanceTheorems {
  import opened Wrappers
  import opened Maintenance

  // ----- fences and epochs

  ghost predicate Pristine(s: Track) {
    && s.hist != [] && History(s.hist) && s.invalidated < s.step
    && s.detailGeneration == s.generation && s.detailStale == s.stale
  }

  predicate BaselineOk(s: Track, b: Baseline) {
    && b.generation == s.generation && b.invalidations <= s.invalidations
    && (b.invalidations == s.invalidations ==> !s.stale)
    && b.scanned <= b.published < |s.hist|
    && b.fingerprint.marks == Marks(s.hist[b.scanned])
  }

  predicate AttemptOk(s: Track, a: Attempt) {
    && a.began < s.step && a.epoch <= s.invalidations && a.loader == s.loader && a.base == s.baseline
    && (a.epoch == s.invalidations ==> s.invalidated < a.began)
    && (a.firstRead.Some? ==> a.began < a.firstRead.value < s.step)
    && (a.valid ==> a.base.Some?)
    && (!a.phase.Admitted? ==> SnapOk(s, a))
    && (a.candidate.Some? ==> CandidateOk(s, a))
    && (a.phase.Reading? ==> a.phase.since < |s.hist| && (a.candidate.Some? ==> a.scanned <= a.phase.since))
    && (a.phase.Reading? && !a.phase.full ==> a.valid && a.candidate.Some?)
    && (a.phase.Reading? || a.phase.Built? ==> a.firstRead.Some?)
    && (a.phase.Built? && a.phase.full ==> a.phase.leftovers == {})
  }

  predicate SnapOk(s: Track, a: Attempt) {
    && a.generation == s.generation && a.previous == s.cache
    && (a.epoch == s.invalidations && s.stale ==> a.request.mode == Full && a.request.explicit)
  }

  predicate CandidateOk(s: Track, a: Attempt)
    requires a.candidate.Some?
  {
    && a.scanned < |s.hist| && a.candidate.value.marks == Marks(s.hist[a.scanned])
    && (a.base.Some? ==> a.base.value.published <= a.scanned)
  }

  ghost predicate Fenced(s: Track) {
    && Pristine(s)
    && (s.baseline.Some? ==> BaselineOk(s, s.baseline.value))
    && (s.attempt.Some? ==> AttemptOk(s, s.attempt.value))
  }

  lemma PristineKeeps(s: Track, step: Step)
    requires Fenced(s) && Enabled(s, step)
    ensures Pristine(Next(s, step))
  {
    hide History, Evolves, ChangesContract, FullContract, Marks, MergedCache, Leftovers, SameFingerprint, AttemptOk, BaselineOk;
    if step.Ddl? {
      HistoryGrows(s.hist, step.db);
    }
  }

  lemma BaselineKeeps(s: Track, step: Step)
    requires Fenced(s) && Enabled(s, step)
    ensures Next(s, step).baseline.Some? ==> BaselineOk(Next(s, step), Next(s, step).baseline.value)
  {
    hide History, Evolves, ChangesContract, FullContract, Marks, MergedCache, Leftovers, SameFingerprint, ValidBaseline, NeedsFull;
  }

  lemma AttemptKeeps(s: Track, step: Step)
    requires Fenced(s) && Enabled(s, step)
    ensures Next(s, step).attempt.Some? ==> AttemptOk(Next(s, step), Next(s, step).attempt.value)
  {
    hide History, Evolves, ChangesContract, FullContract, Marks, MergedCache, Leftovers, SameFingerprint;
  }

  lemma FencedKeeps(s: Track, step: Step)
    requires Fenced(s) && Enabled(s, step)
    ensures Fenced(Next(s, step))
  {
    PristineKeeps(s, step);
    BaselineKeeps(s, step);
    AttemptKeeps(s, step);
    hide Enabled, Next, Pristine, BaselineOk, AttemptOk;
  }

  // ----- caches against the history

  /** Every object but the leftovers is held as the database had it at some moment of the interval; a
      leftover is a cached object that the scan at its start does not list. */
  ghost predicate Sound(hist: seq<Db>, cache: map<Name, int>, f: Fingerprint, leftovers: set<Name>, from: nat, until: nat) {
    && (forall x | x in leftovers :: x in cache && x !in f.marks)
    && forall x: Name {:trigger SoundAt(hist, cache, leftovers, from, until, x)} :: SoundAt(hist, cache, leftovers, from, until, x)
  }

  ghost predicate SoundAt(hist: seq<Db>, cache: map<Name, int>, leftovers: set<Name>, from: nat, until: nat, x: Name) {
    x in leftovers || HeldBetween(hist, x, Held(cache, x), from, until)
  }

  ghost predicate CachesSound(s: Track) {
    && (s.baseline.Some? ==> Sound(s.hist, s.cache, s.baseline.value.fingerprint, s.baseline.value.leftovers, s.baseline.value.scanned, s.baseline.value.published))
    && (s.attempt.Some? && s.attempt.value.phase.Built? && s.attempt.value.candidate.Some? && s.hist != [] ==>
          Sound(s.hist, s.attempt.value.phase.cache, s.attempt.value.candidate.value, s.attempt.value.phase.leftovers, s.attempt.value.scanned, Now(s)))
  }

  lemma SoundLater(hist: seq<Db>, db: Db, cache: map<Name, int>, f: Fingerprint, leftovers: set<Name>, from: nat, until: nat, later: nat)
    requires Sound(hist, cache, f, leftovers, from, until) && until <= later
    ensures Sound(hist + [db], cache, f, leftovers, from, later)
  {
    forall x: Name ensures SoundAt(hist + [db], cache, leftovers, from, later, x) {
      assert SoundAt(hist, cache, leftovers, from, until, x);
      if HeldBetween(hist, x, Held(cache, x), from, until) {
        HeldLater(hist, db, x, Held(cache, x), from, until);
      }
    }
  }

  lemma FullIsSound(hist: seq<Db>, since: nat, all: map<Name, int>, f: Fingerprint, scanned: nat)
    requires hist != [] && FullContract(hist, since, all) && scanned <= since
    ensures Sound(hist, all, f, {}, scanned, |hist| - 1)
  {
    var now: nat := |hist| - 1;
    forall x: Name ensures SoundAt(hist, all, {}, scanned, now, x) {
      assert HeldBetween(hist, x, Held(all, x), since, now);
    }
  }

  /** An object with the same mark in two scans is held the same all the time between them. */
  lemma Unmoved(hist: seq<Db>, x: Name, v: Option<int>, from: nat, until: nat, scanned: nat)
    requires History(hist) && from <= until <= scanned < |hist| && HeldBetween(hist, x, v, from, until)
    requires x in hist[from] && x in hist[scanned] && hist[from][x].version == hist[scanned][x].version
    ensures At(hist[scanned], x) == v
  {
    var t :| from <= t <= until && t < |hist| && At(hist[t], x) == v;
    SameVersionSameRow(hist, x, from, scanned, t);
  }

  lemma UncoveredIsSound(s: Track, a: Attempt, x: Name)
    requires s.attempt == Some(a) && Fenced(s) && CachesSound(s) && a.candidate.Some? && a.base.Some? && !a.phase.Admitted?
    requires !Differs(a.base.value.fingerprint, a.candidate.value, x)
    ensures At(s.hist[a.scanned], x) == Held(s.cache, x) || (x !in a.candidate.value.marks && x in s.cache)
  {
    hide History;
    var b := a.base.value;
    assert SoundAt(s.hist, s.cache, b.leftovers, b.scanned, b.published, x);
    if x in a.candidate.value.marks {
      assert x in s.hist[b.scanned] && x in s.hist[a.scanned];
      Unmoved(s.hist, x, Held(s.cache, x), b.scanned, b.published, a.scanned);
    }
  }

  lemma ChangesAreSound(s: Track, a: Attempt, covered: set<Name>, patch: map<Name, int>)
    requires s.attempt == Some(a) && Fenced(s) && CachesSound(s) && a.phase.Reading? && !a.phase.full
    requires ChangesContract(s.hist, a.phase.since, a, covered, patch)
    ensures Sound(s.hist, MergedCache(a.previous, covered, patch), a.candidate.value, Leftovers(a.previous, covered, a.candidate.value), a.scanned, Now(s))
  {
    hide History, Pristine, Marks;
    var cache := MergedCache(a.previous, covered, patch);
    var leftovers := Leftovers(a.previous, covered, a.candidate.value);
    forall x: Name ensures SoundAt(s.hist, cache, leftovers, a.scanned, Now(s), x) {
      if x in covered {
        assert HeldBetween(s.hist, x, Held(patch, x), a.phase.since, |s.hist| - 1);
      } else {
        UncoveredIsSound(s, a, x);
        assert Held(cache, x) == Held(s.cache, x);
      }
    }
  }

  lemma CachesStaySound(s: Track, step: Step)
    requires Fenced(s) && CachesSound(s) && Enabled(s, step)
    ensures CachesSound(Next(s, step))
  {
    hide Sound, History, Evolves, ChangesContract, FullContract, Marks, MergedCache, BaselineOk, Leftovers;
    match step {
      case Ddl(db) =>
        if s.baseline.Some? {
          var b := s.baseline.value;
          SoundLater(s.hist, db, s.cache, b.fingerprint, b.leftovers, b.scanned, b.published, b.published);
        }
        if s.attempt.Some? && s.attempt.value.phase.Built? && s.attempt.value.candidate.Some? {
          var a := s.attempt.value;
          SoundLater(s.hist, db, a.phase.cache, a.candidate.value, a.phase.leftovers, a.scanned, Now(s), Now(s) + 1);
        }
      case Changes(covered, patch) => ChangesAreSound(s, s.attempt.value, covered, patch);
      case Everything(all) =>
        var a := s.attempt.value;
        if a.candidate.Some? {
          FullIsSound(s.hist, a.phase.since, all, a.candidate.value, a.scanned);
        }
      case _ =>
    }
  }

  // ----- over every run

  lemma {:induction false} OverRuns(s: Track, steps: seq<Step>)
    requires Fenced(s) && CachesSound(s) && CanRun(s, steps)
    ensures Fenced(After(s, steps)) && CachesSound(After(s, steps))
    decreases |steps|
  {
    hide Fenced, CachesSound, Enabled, Next;
    if steps != [] {
      FencedKeeps(s, steps[0]);
      CachesStaySound(s, steps[0]);
      OverRuns(Next(s, steps[0]), steps[1..]);
    }
  }

  /** No lost invalidation.  An attempt that publishes saw no Invalidate since it began, and so began
      all its reads after the last one, and its store is not closed; only an explicit full attempt may publish over a stale
      snapshot; and loader, details and baseline then agree on the new generation, not stale. */
  lemma NoLostInvalidation(s0: Track, steps: seq<Step>)
    requires Fresh(s0) && CanRun(s0, steps) && Enabled(After(s0, steps), Publish)
    ensures var s, t := After(s0, steps), Next(After(s0, steps), Publish);
            var a := s.attempt.value;
            && s.invalidated < a.began && a.firstRead.Some? && a.began < a.firstRead.value < s.step && !s.closed
            && (s.stale ==> a.request.mode == Full && a.request.explicit)
            && t.generation == s.generation + 1 && t.detailGeneration == t.generation && !t.stale && !t.detailStale
            && (t.baseline.Some? ==> t.baseline.value.generation == t.generation && t.baseline.value.invalidations == t.invalidations)
  {
    OverRuns(s0, steps);
  }

  /** Nothing else clears the stale flag or moves the generation, and the details always follow. */
  lemma StaleIsCleared(s0: Track, steps: seq<Step>, step: Step)
    requires Fresh(s0) && CanRun(s0, steps) && Enabled(After(s0, steps), step)
    ensures var s, t := After(s0, steps), Next(After(s0, steps), step);
            && t.detailGeneration == t.generation && t.detailStale == t.stale
            && s.generation <= t.generation
            && (step != Publish ==> t.generation == s.generation && (s.stale ==> t.stale) && t.cache == s.cache)
            && (step == Invalidate ==> t.stale)
  {
    hide Fenced, CachesSound, Enabled, Next, CanRun, After;
    FreshIsFenced(s0);
    OverRuns(s0, steps);
    OnlyPublishing(After(s0, steps), step);
  }

  lemma FreshIsFenced(s: Track)
    requires Fresh(s)
    ensures Fenced(s) && CachesSound(s)
  {
  }

  lemma OnlyPublishing(s: Track, step: Step)
    requires Fenced(s) && Enabled(s, step)
    ensures var t := Next(s, step);
            && t.detailGeneration == t.generation && t.detailStale == t.stale
            && s.generation <= t.generation
            && (step != Publish ==> t.generation == s.generation && (s.stale ==> t.stale) && t.cache == s.cache)
            && (step == Invalidate ==> t.stale)
  {
    hide History, Evolves, ChangesContract, FullContract, Marks, MergedCache;
  }

  /** An object that was gone at the scan and came back, with this value, before the publication. */
  ghost predicate CameBack(hist: seq<Db>, x: Name, v: int, from: nat, until: nat) {
    exists t | from < t <= until && t < |hist| :: At(hist[t], x) == Some(v)
  }

  /** Baseline soundness.  While a baseline is kept, the published cache has each object as the database
      had it at some moment from the baseline's scan to the publication, except the leftovers of an
      incremental merge; and it has every object so exactly when each leftover came back in time. */
  lemma BaselineSoundness(s0: Track, steps: seq<Step>)
    requires Fresh(s0) && CanRun(s0, steps) && After(s0, steps).baseline.Some?
    ensures var s := After(s0, steps); var b := s.baseline.value;
            && b.generation == s.generation && b.scanned <= b.published < |s.hist|
            && b.fingerprint.marks == Marks(s.hist[b.scanned])
            && (forall x: Name | x !in b.leftovers :: HeldBetween(s.hist, x, Held(s.cache, x), b.scanned, b.published))
            && (forall x | x in b.leftovers :: x in s.cache && x !in s.hist[b.scanned])
            && ((forall x: Name :: HeldBetween(s.hist, x, Held(s.cache, x), b.scanned, b.published)) <==>
                (forall x | x in b.leftovers :: CameBack(s.hist, x, s.cache[x], b.scanned, b.published)))
  {
    OverRuns(s0, steps);
    var s := After(s0, steps);
    var b := s.baseline.value;
    hide CanRun, After, Fresh, History, Sound;
    assert Sound(s.hist, s.cache, b.fingerprint, b.leftovers, b.scanned, b.published);
    SoundnessIsExact(s.hist, s.cache, b.fingerprint, b.leftovers, b.scanned, b.published);
  }

  lemma SoundnessIsExact(hist: seq<Db>, cache: map<Name, int>, f: Fingerprint, leftovers: set<Name>, from: nat, until: nat)
    requires Sound(hist, cache, f, leftovers, from, until) && from <= until < |hist| && f.marks == Marks(hist[from])
    ensures forall x: Name | x !in leftovers :: HeldBetween(hist, x, Held(cache, x), from, until)
    ensures forall x | x in leftovers :: x in cache && x !in hist[from]
    ensures (forall x: Name :: HeldBetween(hist, x, Held(cache, x), from, until)) <==>
            (forall x | x in leftovers :: CameBack(hist, x, cache[x], from, until))
  {
    forall x: Name | x !in leftovers ensures HeldBetween(hist, x, Held(cache, x), from, until) {
      assert SoundAt(hist, cache, leftovers, from, until, x);
    }
    forall x | x in leftovers ensures HeldBetween(hist, x, Held(cache, x), from, until) <==> CameBack(hist, x, cache[x], from, until) {
      GoneAtScan(hist, x, cache[x], from, until);
    }
  }

  lemma GoneAtScan(hist: seq<Db>, x: Name, v: int, from: nat, until: nat)
    requires from <= until < |hist| && x !in hist[from]
    ensures HeldBetween(hist, x, Some(v), from, until) <==> CameBack(hist, x, v, from, until)
  {
    if HeldBetween(hist, x, Some(v), from, until) {
      var t :| from <= t <= until && t < |hist| && At(hist[t], x) == Some(v);
      assert t != from;
    }
  }

  /** A full publication leaves nothing over: it has every object as of some moment since its scan. */
  lemma FullPublicationIsSound(s0: Track, steps: seq<Step>, x: Name)
    requires Fresh(s0) && CanRun(s0, steps) && Enabled(After(s0, steps), Publish)
    requires After(s0, steps).attempt.value.phase.full && After(s0, steps).attempt.value.candidate.Some?
    ensures var t := Next(After(s0, steps), Publish);
            t.baseline.Some? && HeldBetween(t.hist, x, Held(t.cache, x), t.baseline.value.scanned, t.baseline.value.published)
  {
    OverRuns(s0, steps);
    var s := After(s0, steps);
    var a := s.attempt.value;
    hide CanRun, After, Fresh, History;
    assert Sound(s.hist, a.phase.cache, a.candidate.value, a.phase.leftovers, a.scanned, Now(s));
    assert SoundAt(s.hist, a.phase.cache, a.phase.leftovers, a.scanned, Now(s), x);
  }

  // ----- which attempts read everything

  /** The baseline that the attempt took belongs to the snapshot and the epoch that it took. */
  predicate BaseFits(a: Attempt) {
    a.base.Some? && a.base.value.generation == a.generation && a.base.value.invalidations == a.epoch
  }

  /** The attempt must read everything: it was asked to, its baseline does not fit, it has no fingerprint, or
      one of another format. */
  predicate MustReadAll(a: Attempt) {
    || a.request.mode == Full || !BaseFits(a) || a.candidate.None?
    || a.base.value.fingerprint.format != a.candidate.value.format
  }

  predicate ReadsAll(a: Attempt) {
    && (!a.phase.Admitted? ==> (a.valid ==> BaseFits(a)) && (a.request.mode == Check && BaseFits(a) ==> a.valid))
    && (MustReadAll(a) ==> (a.phase.Reading? ==> a.phase.full) && (a.phase.Built? ==> a.phase.full))
  }

  predicate ReadsFit(s: Track) {
    s.attempt.Some? ==> ReadsAll(s.attempt.value)
  }

  lemma ReadsFitKeeps(s: Track, step: Step)
    requires ReadsFit(s) && Enabled(s, step)
    ensures ReadsFit(Next(s, step))
  {
    hide History, Evolves, ChangesContract, FullContract, Marks, MergedCache, Leftovers, SameFingerprint;
  }

  lemma {:induction false} ReadsFitOverRuns(s: Track, steps: seq<Step>)
    requires ReadsFit(s) && CanRun(s, steps)
    ensures ReadsFit(After(s, steps))
    decreases |steps|
  {
    hide ReadsFit, Enabled, Next;
    if steps != [] {
      ReadsFitKeeps(s, steps[0]);
      ReadsFitOverRuns(Next(s, steps[0]), steps[1..]);
    }
  }

  /** An attempt that must read everything is never at, or past, an incremental read.  Any other begins with
      one. */
  lemma ReadsEverything(s0: Track, steps: seq<Step>)
    requires Fresh(s0) && CanRun(s0, steps) && After(s0, steps).attempt.Some?
    ensures var a := After(s0, steps).attempt.value;
            MustReadAll(a) ==> (a.phase.Reading? ==> a.phase.full) && (a.phase.Built? ==> a.phase.full)
    ensures Enabled(After(s0, steps), StartRead) ==>
              var t := Next(After(s0, steps), StartRead);
              t.attempt.Some? && t.attempt.value.phase.Reading? && (t.attempt.value.phase.full <==> MustReadAll(t.attempt.value))
  {
    hide CanRun, After;
    ReadsFitOverRuns(s0, steps);
  }

  /** What a full request publishes after a scan: every object as of some moment since the scan, and a baseline
      for the next attempt.  Without a scan it leaves no baseline, so that the next attempt reads everything. */
  lemma FullRequestIsSound(s0: Track, steps: seq<Step>, x: Name)
    requires Fresh(s0) && CanRun(s0, steps) && Enabled(After(s0, steps), Publish)
    requires After(s0, steps).attempt.value.request.mode == Full
    ensures var a, t := After(s0, steps).attempt.value, Next(After(s0, steps), Publish);
            && (a.candidate.Some? ==> t.baseline.Some? && t.baseline.value.fingerprint == a.candidate.value && t.baseline.value.leftovers == {}
                                      && HeldBetween(t.hist, x, Held(t.cache, x), t.baseline.value.scanned, t.baseline.value.published))
            && (a.candidate.None? ==> t.baseline.None?)
  {
    OverRuns(s0, steps);
    ReadsEverything(s0, steps);
    var s := After(s0, steps);
    if s.attempt.value.candidate.Some? {
      FullPublicationIsSound(s0, steps, x);
    }
  }

  /** An incremental merge leaves nothing over exactly when the changes cover every cached object that the
      new scan does not list: a condition on what the merge is given. */
  lemma CoveringLeavesNothing(s0: Track, steps: seq<Step>, covered: set<Name>, patch: map<Name, int>)
    requires Fresh(s0) && CanRun(s0, steps) && Enabled(After(s0, steps), Changes(covered, patch))
    ensures var s, t := After(s0, steps), Next(After(s0, steps), Changes(covered, patch));
            && t.attempt.Some? && t.attempt.value.phase.Built? && s.attempt.value.candidate.Some?
            && (t.attempt.value.phase.leftovers == {} <==> forall x | x in s.cache :: x in s.attempt.value.candidate.value.marks || x in covered)
  {
    OverRuns(s0, steps);
    var s := After(s0, steps);
    var a := s.attempt.value;
    hide CanRun, After, Fresh, History, CachesSound, ChangesContract, MergedCache;
    assert a.previous == s.cache;
    var left := Leftovers(a.previous, covered, a.candidate.value);
    if left == {} {
      forall x | x in s.cache ensures x in a.candidate.value.marks || x in covered { assert x !in left; }
    }
  }

  predicate OnlyDdl(steps: seq<Step>) {
    forall i | 0 <= i < |steps| :: steps[i].Ddl?
  }

  lemma {:induction false} DdlLeavesTheTrack(s: Track, ddl: seq<Step>)
    requires CanRun(s, ddl) && OnlyDdl(ddl)
    ensures After(s, ddl).attempt == s.attempt && After(s, ddl).cache == s.cache
    decreases |ddl|
  {
    if ddl != [] {
      DdlLeavesTheTrack(Next(s, ddl[0]), ddl[1..]);
    }
  }

  /** When an incremental publication is sound.  Changes are merged, the database goes on changing, and the
      merge is published: then every object is as the database had it at some moment from the scan to the
      publication, if and only if each cached object that the scan does not list and the changes do not
      cover came back with its value in that time. */
  lemma IncrementalPublication(s0: Track, steps: seq<Step>, covered: set<Name>, patch: map<Name, int>, ddl: seq<Step>)
    requires Fresh(s0) && CanRun(s0, steps) && Enabled(After(s0, steps), Changes(covered, patch)) && OnlyDdl(ddl)
    requires var merged := Next(After(s0, steps), Changes(covered, patch)); CanRun(merged, ddl) && Enabled(After(merged, ddl), Publish)
    ensures var s := After(s0, steps);
            var t := Next(After(Next(s, Changes(covered, patch)), ddl), Publish);
            && s.attempt.Some? && s.attempt.value.candidate.Some? && t.baseline.Some?
            && var f, b := s.attempt.value.candidate.value, t.baseline.value;
            && b.fingerprint == f && b.scanned <= b.published < |t.hist|
            && ((forall x: Name :: HeldBetween(t.hist, x, Held(t.cache, x), b.scanned, b.published)) <==>
                forall x | x in s.cache && x !in f.marks && x !in covered :: CameBack(t.hist, x, s.cache[x], b.scanned, b.published))
  {
    OverRuns(s0, steps);
    var s := After(s0, steps);
    var step := Changes(covered, patch);
    hide CanRun, After, Fresh;
    FencedKeeps(s, step);
    CachesStaySound(s, step);
    OverRuns(Next(s, step), ddl);
    DdlLeavesTheTrack(Next(s, step), ddl);
    PublishedMerge(s, After(Next(s, step), ddl), covered, patch);
  }

  lemma PublishedMerge(s: Track, u: Track, covered: set<Name>, patch: map<Name, int>)
    requires Fenced(s) && Enabled(s, Changes(covered, patch)) && Fenced(u) && CachesSound(u) && Enabled(u, Publish)
    requires u.attempt == Next(s, Changes(covered, patch)).attempt
    ensures s.attempt.Some? && s.attempt.value.candidate.Some? && Next(u, Publish).baseline.Some?
    ensures var t, f := Next(u, Publish), s.attempt.value.candidate.value; var b := t.baseline.value;
            && b.fingerprint == f && b.scanned <= b.published < |t.hist|
            && ((forall x: Name :: HeldBetween(t.hist, x, Held(t.cache, x), b.scanned, b.published)) <==>
                forall x | x in s.cache && x !in f.marks && x !in covered :: CameBack(t.hist, x, s.cache[x], b.scanned, b.published))
  {
    hide History, Marks, CameBack, HeldBetween, Sound, Differs;
    FencedKeeps(u, Publish);
    CachesStaySound(u, Publish);
    var t, a := Next(u, Publish), s.attempt.value;
    var b := t.baseline.value;
    SoundnessIsExact(t.hist, t.cache, b.fingerprint, b.leftovers, b.scanned, b.published);
    assert a.previous == s.cache && b.leftovers == Leftovers(s.cache, covered, a.candidate.value);
    forall x | x in b.leftovers ensures t.cache[x] == s.cache[x] {
      KeptLeftover(s.cache, covered, patch, x);
    }
  }

  /** A full read that is merged into nothing: what was read is what is published, and every object of it is
      as of some moment since the read began. */
  lemma FullPublication(s0: Track, steps: seq<Step>, all: map<Name, int>, ddl: seq<Step>)
    requires Fresh(s0) && CanRun(s0, steps) && Enabled(After(s0, steps), Everything(all)) && OnlyDdl(ddl)
    requires var read := Next(After(s0, steps), Everything(all)); CanRun(read, ddl) && Enabled(After(read, ddl), Publish)
    ensures var s := After(s0, steps);
            var t := Next(After(Next(s, Everything(all)), ddl), Publish);
            && t.cache == all && (t.baseline.Some? <==> s.attempt.value.candidate.Some?)
            && forall x: Name :: HeldBetween(s.hist, x, Held(t.cache, x), s.attempt.value.phase.since, Now(s))
  {
    var s := After(s0, steps);
    hide CanRun, After, Fresh;
    DdlLeavesTheTrack(Next(s, Everything(all)), ddl);
  }

  lemma KeptLeftover(base: map<Name, int>, covered: set<Name>, patch: map<Name, int>, x: Name)
    requires patch.Keys <= covered && x in base && x !in covered
    ensures x in MergedCache(base, covered, patch) && MergedCache(base, covered, patch)[x] == base[x]
  {
  }

  function Values(db: Db): map<Name, int> {
    map x | x in db :: db[x].value
  }

  /** An "unchanged" answer means that the published cache equals the database as scanned exactly when
      the fingerprint lists every cached object.  It is given only when no Invalidate has come since the
      attempt began, and changes nothing. */
  lemma UnchangedIsExact(s0: Track, steps: seq<Step>)
    requires Fresh(s0) && CanRun(s0, steps) && Enabled(After(s0, steps), Unchanged)
    ensures var s := After(s0, steps); var a := s.attempt.value;
            a.scanned < |s.hist| && a.candidate.Some? &&
            (s.cache == Values(s.hist[a.scanned]) <==> s.cache.Keys <= a.candidate.value.marks.Keys)
    ensures var s := After(s0, steps); s.invalidated < s.attempt.value.began && !s.stale && !s.closed
    ensures var s := After(s0, steps); Next(s, Unchanged) == s.(attempt := None, step := s.step + 1)
  {
    OverRuns(s0, steps);
    UnchangedMeans(After(s0, steps));
  }

  lemma UnchangedMeans(s: Track)
    requires Fenced(s) && CachesSound(s) && Enabled(s, Unchanged)
    ensures var a := s.attempt.value;
            a.scanned < |s.hist| && a.candidate.Some? &&
            (s.cache == Values(s.hist[a.scanned]) <==> s.cache.Keys <= a.candidate.value.marks.Keys)
  {
    var a := s.attempt.value;
    var db := s.hist[a.scanned];
    if s.cache.Keys <= a.candidate.value.marks.Keys {
      forall x: Name ensures Held(s.cache, x) == At(db, x) {
        UncoveredIsSound(s, a, x);
      }
      SameEverywhere(s.cache, db);
    }
  }

  lemma SameEverywhere(cache: map<Name, int>, db: Db)
    requires forall x: Name :: Held(cache, x) == At(db, x)
    ensures cache == Values(db)
  {
    forall x: Name ensures x in cache <==> x in db { assert Held(cache, x) == At(db, x); }
    forall x | x in cache ensures cache[x] == db[x].value { assert Held(cache, x) == At(db, x); }
  }

  // ----- the exception is real

  const CHECK := Request(Check, true, false)
  const FULL := Request(Full, true, false)

  const MADE: Db := map["x" := Row(1, 7)]
  const NONE: Db := map[]

  /** A store whose database is empty, and whose cache is up to date. */
  const EMPTY_STORE := Track([NONE], 0, 1, false, map[], None, 0, false, 1, false, None, 1, 0)

  const SCANNING := Attempt(FULL, Scanned, 1, 0, None, 0, 1, map[], false, Some(Fingerprint("f", map[])), 0, Some(3))

  /** The cache holds an object that its baseline's scan does not list and the database no longer has. */
  const LEFTOVER := Track([NONE, MADE, NONE], 1, 2, false, map["x" := 7],
                          Some(Baseline(Fingerprint("f", map[]), 0, 1, 2, 0, {})), 0, false, 2, false, None, 9, 0)

  /** A full attempt begins and scans the empty database. */
  lemma ScanFirst()
    ensures CanRun(EMPTY_STORE, [Begin(FULL), Snap, ScanOk("f")])
    ensures After(EMPTY_STORE, [Begin(FULL), Snap, ScanOk("f")]) == EMPTY_STORE.(attempt := Some(SCANNING), step := 4)
  {
    var s1 := Next(EMPTY_STORE, Begin(FULL));
    var s2 := Next(s1, Snap);
    assert Marks(NONE) == map[];
    ThreeSteps(EMPTY_STORE, s1, s2, Begin(FULL), Snap, ScanOk("f"));
  }

  /** While the attempt reads, the object is created, and it is read. */
  const READ := EMPTY_STORE.(hist := [NONE, MADE], step := 7,
                             attempt := Some(SCANNING.(phase := Built(map["x" := 7], true, {}))))

  lemma ReadAfter()
    ensures var s := EMPTY_STORE.(attempt := Some(SCANNING), step := 4);
            && CanRun(s, [StartRead, Ddl(MADE), Everything(map["x" := 7])])
            && After(s, [StartRead, Ddl(MADE), Everything(map["x" := 7])]) == READ
  {
    var all: map<Name, int> := map["x" := 7];
    var s4 := EMPTY_STORE.(attempt := Some(SCANNING), step := 4);
    var s5 := Next(s4, StartRead);
    assert Evolves([NONE], MADE);
    var s6 := Next(s5, Ddl(MADE));
    assert s6.hist == [NONE, MADE];
    assert FullContract(s6.hist, 0, all) by {
      var now: nat := 1;
      forall x: Name ensures HeldBetween(s6.hist, x, Held(all, x), 0, now) { assert At(s6.hist[1], x) == Held(all, x); }
    }
    ThreeSteps(s4, s5, s6, StartRead, Ddl(MADE), Everything(all));
  }

  lemma ThreeSteps(s: Track, t: Track, u: Track, a: Step, b: Step, c: Step)
    requires Enabled(s, a) && t == Next(s, a) && Enabled(t, b) && u == Next(t, b) && Enabled(u, c)
    ensures CanRun(s, [a, b, c]) && After(s, [a, b, c]) == Next(u, c)
  {
    hide Enabled, Next;
    OneMore(u, Next(u, c), c, []);
    OneMore(t, u, b, [c]);
    OneMore(s, t, a, [b, c]);
    assert [c] + [] == [c] && [b] + [c] == [b, c] && [a] + [b, c] == [a, b, c];
  }

  /** It is published, and then the object is dropped. */
  lemma PublishThenDrop()
    ensures CanRun(READ, [Publish, Ddl(NONE)]) && After(READ, [Publish, Ddl(NONE)]) == LEFTOVER
  {
    var s8 := Next(READ, Publish);
    assert Evolves([NONE, MADE], NONE);
    assert [NONE, MADE] + [NONE] == [NONE, MADE, NONE];
    OneMore(s8, Next(s8, Ddl(NONE)), Ddl(NONE), []);
    OneMore(READ, s8, Publish, [Ddl(NONE)]);
    assert [Ddl(NONE)] + [] == [Ddl(NONE)] && [Publish] + [Ddl(NONE)] == [Publish, Ddl(NONE)];
  }

  /** A later check scans the database without the object. */
  lemma CheckLater()
    ensures CanRun(LEFTOVER, [Begin(CHECK), Snap, ScanOk("f")])
    ensures var s := After(LEFTOVER, [Begin(CHECK), Snap, ScanOk("f")]);
            Enabled(s, Unchanged) && s.attempt.value.scanned == 2 && s.hist == LEFTOVER.hist && s.cache == LEFTOVER.cache
  {
    var s1 := Next(LEFTOVER, Begin(CHECK));
    var s2 := Next(s1, Snap);
    assert Marks(NONE) == map[];
    ThreeSteps(LEFTOVER, s1, s2, Begin(CHECK), Snap, ScanOk("f"));
  }

  /** So a check can answer "unchanged" about a cache that is not the database as scanned: an object
      was created after the scan of a full attempt, read by it, and dropped before the next scan. */
  lemma UnchangedCanBeWrong() returns (steps: seq<Step>)
    ensures Fresh(EMPTY_STORE) && CanRun(EMPTY_STORE, steps) && Enabled(After(EMPTY_STORE, steps), Unchanged)
    ensures var s := After(EMPTY_STORE, steps); s.attempt.value.scanned < |s.hist| && s.cache != Values(s.hist[s.attempt.value.scanned])
  {
    var first := Leave();
    CheckLater();
    hide Enabled, Next, CanRun, After;
    var check := [Begin(CHECK), Snap, ScanOk("f")];
    RunsJoin(EMPTY_STORE, first, check);
    steps := first + check;
    assert "x" in LEFTOVER.cache && "x" !in Values(LEFTOVER.hist[2]);
  }

  /** From the leftover store: another object is made, and an incremental attempt reads it alone. */
  const OTHER: Db := map["y" := Row(2, 8)]

  const LATER := LEFTOVER.(hist := [NONE, MADE, NONE, OTHER], step := 10)

  const CHECKING := Attempt(CHECK, Scanned, 10, 0, LEFTOVER.baseline, 1, 2, map["x" := 7], true, Some(Fingerprint("f", map["y" := 2])), 3, Some(12))

  lemma ScanAgain()
    ensures CanRun(LEFTOVER, [Ddl(OTHER), Begin(CHECK), Snap, ScanOk("f")])
    ensures After(LEFTOVER, [Ddl(OTHER), Begin(CHECK), Snap, ScanOk("f")]) == LATER.(attempt := Some(CHECKING), step := 13)
  {
    assert Evolves([NONE, MADE, NONE], OTHER);
    assert [NONE, MADE, NONE] + [OTHER] == [NONE, MADE, NONE, OTHER];
    assert LATER == Next(LEFTOVER, Ddl(OTHER));
    var s1 := Next(LATER, Begin(CHECK));
    var s2 := Next(s1, Snap);
    assert Marks(OTHER) == map["y" := 2];
    ThreeSteps(LATER, s1, s2, Begin(CHECK), Snap, ScanOk("f"));
    OneMore(LEFTOVER, LATER, Ddl(OTHER), [Begin(CHECK), Snap, ScanOk("f")]);
    assert [Ddl(OTHER)] + [Begin(CHECK), Snap, ScanOk("f")] == [Ddl(OTHER), Begin(CHECK), Snap, ScanOk("f")];
  }

  const READING := LATER.(step := 14, attempt := Some(CHECKING.(phase := Reading(false, 3))))

  const BOTH: map<Name, int> := map["x" := 7, "y" := 8]

  const BUILT := LATER.(step := 15, attempt := Some(CHECKING.(phase := Built(BOTH, false, {"x"}))))

  const MERGED := LATER.(loader := 2, generation := 3, detailGeneration := 3, step := 16, cache := BOTH,
                         baseline := Some(Baseline(Fingerprint("f", map["y" := 2]), 3, 3, 3, 0, {"x"})))

  const NEWS: map<Name, int> := map["y" := 8]

  lemma ReadAgain()
    ensures var s := LATER.(attempt := Some(CHECKING), step := 13); Enabled(s, StartRead) && Next(s, StartRead) == READING
  {
    assert "y" in CHECKING.candidate.value.marks && "y" !in CHECKING.base.value.fingerprint.marks;
  }

  lemma MergeNews()
    ensures Enabled(READING, Changes({"y"}, NEWS)) && Next(READING, Changes({"y"}, NEWS)) == BUILT
  {
    var a, now: nat := READING.attempt.value, 3;
    forall x | x in {"y"} ensures HeldBetween(READING.hist, x, Held(NEWS, x), 3, now) { assert At(READING.hist[3], x) == Held(NEWS, x); }
    assert ChangesContract(READING.hist, 3, a, {"y"}, NEWS);
    assert MergedCache(a.previous, {"y"}, NEWS) == BOTH;
    assert Leftovers(a.previous, {"y"}, a.candidate.value) == {"x"};
  }

  lemma PublishNews()
    ensures Enabled(BUILT, Publish) && Next(BUILT, Publish) == MERGED
  {
  }

  lemma MergeOther()
    ensures var s := LATER.(attempt := Some(CHECKING), step := 13);
            CanRun(s, [StartRead, Changes({"y"}, NEWS), Publish]) && After(s, [StartRead, Changes({"y"}, NEWS), Publish]) == MERGED
  {
    ReadAgain();
    MergeNews();
    PublishNews();
    hide Enabled, Next, CanRun, After;
    ThreeSteps(LATER.(attempt := Some(CHECKING), step := 13), READING, BUILT, StartRead, Changes({"y"}, NEWS), Publish);
  }

  lemma Leave() returns (steps: seq<Step>)
    ensures CanRun(EMPTY_STORE, steps) && After(EMPTY_STORE, steps) == LEFTOVER
  {
    ScanFirst();
    ReadAfter();
    PublishThenDrop();
    hide Enabled, Next, CanRun, After;
    var scan, read := [Begin(FULL), Snap, ScanOk("f")], [StartRead, Ddl(MADE), Everything(map["x" := 7])];
    RunsJoin(EMPTY_STORE, scan, read);
    RunsJoin(EMPTY_STORE, scan + read, [Publish, Ddl(NONE)]);
    steps := scan + read + [Publish, Ddl(NONE)];
  }

  /** And an incremental publication can keep an object that the database had at no moment since its
      scan: one that was made and dropped between two scans, and that the changes do not cover. */
  lemma BaselineCanBeUnsound() returns (steps: seq<Step>)
    ensures Fresh(EMPTY_STORE) && CanRun(EMPTY_STORE, steps)
    ensures var s := After(EMPTY_STORE, steps);
            s.baseline.Some? && "x" in s.cache && !HeldBetween(s.hist, "x", Held(s.cache, "x"), s.baseline.value.scanned, s.baseline.value.published)
  {
    var first := Leave();
    ScanAgain();
    MergeOther();
    hide Enabled, Next, CanRun, After;
    var again, merge := [Ddl(OTHER), Begin(CHECK), Snap, ScanOk("f")], [StartRead, Changes({"y"}, NEWS), Publish];
    RunsJoin(EMPTY_STORE, first, again);
    RunsJoin(EMPTY_STORE, first + again, merge);
    steps := first + again + merge;
    assert "x" !in OTHER;
  }

  lemma OneMore(s: Track, t: Track, a: Step, rest: seq<Step>)
    requires Enabled(s, a) && t == Next(s, a) && CanRun(t, rest)
    ensures CanRun(s, [a] + rest) && After(s, [a] + rest) == After(t, rest)
  {
    hide Enabled, Next;
    assert ([a] + rest)[1..] == rest;
  }

  lemma {:induction false} RunsJoin(s: Track, a: seq<Step>, b: seq<Step>)
    requires CanRun(s, a) && CanRun(After(s, a), b)
    ensures CanRun(s, a + b) && After(s, a + b) == After(After(s, a), b)
    decreases |a|
  {
    hide Enabled, Next;
    if a == [] {
      assert a + b == b;
    } else {
      RunsJoin(Next(s, a[0]), a[1..], b);
      assert (a + b)[1..] == a[1..] + b;
    }
  }
}
