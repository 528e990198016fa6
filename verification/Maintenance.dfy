/** Lease.Maintain against a database that changes under it: scans, reads, invalidations and
    publications as atomic steps. */
module Maintenance {
  import opened Wrappers

  type Name = string

  /** One database object: every change gives it a version it never had before. */
  datatype Row = Row(version: nat, value: int)

  type Db = map<Name, Row>

  /** What a scan retains: the version of every object there is. */
  datatype Fingerprint = Fingerprint(format: string, marks: map<Name, nat>)

  function Marks(db: Db): map<Name, nat> {
    map x | x in db :: db[x].version
  }

  // ----- the history of the database; time is an index into it

  /** The next state of the database: a row that is not the last one has a new version. */
  ghost predicate Evolves(hist: seq<Db>, db: Db)
    requires hist != []
  {
    forall x | x in db :: RowEvolves(hist, x, db[x])
  }

  ghost predicate RowEvolves(hist: seq<Db>, x: Name, row: Row)
    requires hist != []
  {
    || (x in hist[|hist| - 1] && hist[|hist| - 1][x] == row)
    || (forall t | 0 <= t < |hist| && x in hist[t] :: hist[t][x].version < row.version)
  }

  ghost predicate History(hist: seq<Db>) {
    hist != [] && forall t | 0 < t < |hist| :: Evolves(hist[..t], hist[t])
  }

  /** What the database holds for an object, if anything. */
  function At(db: Db, x: Name): Option<int> {
    if x in db then Some(db[x].value) else None
  }

  function Held(cache: map<Name, int>, x: Name): Option<int> {
    if x in cache then Some(cache[x]) else None
  }

  /** The database held `v` for `x` at some moment from `from` to `to`. */
  ghost predicate HeldBetween(hist: seq<Db>, x: Name, v: Option<int>, from: nat, until: nat) {
    exists t | from <= t <= until && t < |hist| :: At(hist[t], x) == v
  }

  // ----- the track

  /** A baseline: the fingerprint, when it was scanned and when its generation was published, and the
      generation and uncertainty epoch it belongs to.  `leftovers` is only noted, never consulted. */
  datatype Baseline = Baseline(fingerprint: Fingerprint, scanned: nat, published: nat, generation: nat, invalidations: nat,
                               leftovers: set<Name>)

  datatype Mode = Check | Full

  datatype Request = Request(mode: Mode, fingerprint: bool, explicit: bool)

  datatype Phase = Admitted | Snapped | Scanned | Reading(full: bool, since: nat) | 
    Built(cache: map<Name, int>, full: bool, leftovers: set<Name>)

  /** One attempt: what it captured, and the moments (step counts) at which it began and first read. */
  datatype Attempt = Attempt(
    request: Request, phase: Phase, began: nat, epoch: nat, base: Option<Baseline>,
    loader: nat, generation: nat, previous: map<Name, int>, valid: bool, candidate: Option<Fingerprint>, scanned: nat, firstRead: Option<nat>)

  /** `loader` identifies the published loader; `step` counts steps, and `invalidated` is the step of
      the last Invalidate. */
  datatype Track = Track(
    hist: seq<Db>, loader: nat, generation: nat, stale: bool, cache: map<Name, int>,
    baseline: Option<Baseline>, invalidations: nat, closed: bool,
    detailGeneration: nat, detailStale: bool,
    attempt: Option<Attempt>, step: nat, invalidated: nat)

  datatype Step =
    | Ddl(db: Db) | Invalidate | Close
    | Begin(request: Request) | Snap | ScanOk(format: string) | ScanLimited | NoScan
    | Unchanged | StartRead | NeedFull
    | Changes(covered: set<Name>, patch: map<Name, int>) | Everything(all: map<Name, int>)
    | Publish | Fail

  function Now(s: Track): nat
    requires s.hist != []
  {
    |s.hist| - 1
  }

  /** baseline validity, as captured with the snapshot */
  predicate ValidBaseline(s: Track, a: Attempt) {
    a.base.Some? && a.base.value.generation == s.generation && a.base.value.invalidations == a.epoch && !s.stale
  }

  /** maintenanceFence */
  predicate Fence(s: Track, a: Attempt) {
    s.loader == a.loader && s.generation == a.generation && s.invalidations == a.epoch && !s.closed
  }

  predicate SameFingerprint(a: Attempt) {
    && a.candidate.Some? && a.valid && a.base.Some?
    && a.base.value.fingerprint.format == a.candidate.value.format
    && a.base.value.fingerprint.marks == a.candidate.value.marks
  }

  predicate NeedsFull(a: Attempt) {
    a.request.mode == Full || !a.valid || a.candidate.None? || a.base.None? ||
    a.base.value.fingerprint.format != a.candidate.value.format
  }

  /** The objects whose marks differ. */
  predicate Differs(f: Fingerprint, g: Fingerprint, x: Name) {
    (x in f.marks) != (x in g.marks) || (x in f.marks && x in g.marks && f.marks[x] != g.marks[x])
  }

  /** ReadChanges covers every object that differs, and reads each covered object at some moment. */
  ghost predicate ChangesContract(hist: seq<Db>, since: nat, a: Attempt, covered: set<Name>, patch: map<Name, int>)
    requires hist != []
  {
    && a.base.Some? && a.candidate.Some? && patch.Keys <= covered
    && (forall x | Differs(a.base.value.fingerprint, a.candidate.value, x) :: x in covered)
    && (forall x | x in covered :: HeldBetween(hist, x, Held(patch, x), since, |hist| - 1))
  }

  /** ReadFull reads every object at some moment. */
  ghost predicate FullContract(hist: seq<Db>, since: nat, all: map<Name, int>)
    requires hist != []
  {
    forall x: Name :: HeldBetween(hist, x, Held(all, x), since, |hist| - 1)
  }

  /** Base minus covered plus patch. */
  function MergedCache(base: map<Name, int>, covered: set<Name>, patch: map<Name, int>): map<Name, int> {
    (map x | x in base && x !in covered :: base[x]) + patch
  }

  /** The objects that an incremental merge keeps although neither the new scan nor the changes know them. */
  function Leftovers(previous: map<Name, int>, covered: set<Name>, f: Fingerprint): set<Name> {
    set x | x in previous && x !in covered && x !in f.marks
  }

  ghost predicate Enabled(s: Track, step: Step) {
    s.hist != [] &&
    match step
    case Ddl(db) => Evolves(s.hist, db)
    case Invalidate => !s.closed
    case Close => true
    case Begin(r) => s.attempt.None? && !s.closed && (r.mode == Check ==> r.fingerprint)
    case Snap => s.attempt.Some? && s.attempt.value.phase.Admitted? &&
                 (s.stale ==> s.attempt.value.request.mode == Full && s.attempt.value.request.explicit)
    case ScanOk(_) => s.attempt.Some? && s.attempt.value.phase.Snapped? && s.attempt.value.request.fingerprint
    case ScanLimited => s.attempt.Some? && s.attempt.value.phase.Snapped? && s.attempt.value.request.fingerprint && s.attempt.value.request.mode == Full
    case NoScan => s.attempt.Some? && s.attempt.value.phase.Snapped? && !s.attempt.value.request.fingerprint
    case Unchanged => s.attempt.Some? && s.attempt.value.phase.Scanned? && s.attempt.value.request.mode == Check
                      && SameFingerprint(s.attempt.value) && Fence(s, s.attempt.value)
    case StartRead => s.attempt.Some? && s.attempt.value.phase.Scanned? && !(s.attempt.value.request.mode == Check && SameFingerprint(s.attempt.value))
    case NeedFull => s.attempt.Some? && s.attempt.value.phase.Reading? && !s.attempt.value.phase.full
    case Changes(covered, patch) => s.attempt.Some? && s.attempt.value.phase.Reading? && !s.attempt.value.phase.full
                                    && ChangesContract(s.hist, s.attempt.value.phase.since, s.attempt.value, covered, patch)
    case Everything(all) => s.attempt.Some? && s.attempt.value.phase.Reading? && s.attempt.value.phase.full
                            && FullContract(s.hist, s.attempt.value.phase.since, all)
    case Publish => s.attempt.Some? && s.attempt.value.phase.Built? && Fence(s, s.attempt.value)
    case Fail => s.attempt.Some?
  }

  function Published(s: Track, a: Attempt): Track
    requires s.hist != [] && a.phase.Built?
  {
    var generation := a.generation + 1;
    s.(loader := s.loader + 1, generation := generation, stale := false, cache := a.phase.cache,
       detailGeneration := generation, detailStale := false, attempt := None,
       baseline := if a.candidate.Some? then Some(Baseline(a.candidate.value, a.scanned, Now(s), generation, a.epoch, a.phase.leftovers)) else None)
  }

  ghost function Next(s: Track, step: Step): Track
    requires Enabled(s, step)
  {
    var t := Effect(s, step);
    t.(step := s.step + 1)
  }

  ghost function Effect(s: Track, step: Step): Track
    requires Enabled(s, step)
  {
    match step
    case Ddl(db) => s.(hist := s.hist + [db])
    case Invalidate => s.(invalidations := s.invalidations + 1, stale := true, detailStale := true, invalidated := s.step)
    case Close => s.(closed := true)
    case Begin(r) => s.(attempt := Some(Attempt(r, Admitted, s.step, s.invalidations, s.baseline, s.loader, 0, map[], false, None, 0, None)))
    case Snap =>
      var a := s.attempt.value;
      s.(attempt := Some(a.(phase := Snapped, generation := s.generation, previous := s.cache, valid := ValidBaseline(s, a))))
    case ScanOk(format) =>
      var a := s.attempt.value;
      s.(attempt := Some(a.(phase := Scanned, candidate := Some(Fingerprint(format, Marks(s.hist[Now(s)]))), scanned := Now(s), firstRead := Some(s.step))))
    case ScanLimited => s.(attempt := Some(s.attempt.value.(phase := Scanned, firstRead := Some(s.step))))
    case NoScan => s.(attempt := Some(s.attempt.value.(phase := Scanned)))
    case Unchanged => s.(attempt := None)
    case StartRead =>
      var a := s.attempt.value;
      s.(attempt := Some(a.(phase := Reading(NeedsFull(a), Now(s)), firstRead := if a.firstRead.Some? then a.firstRead else Some(s.step))))
    case NeedFull => s.(attempt := Some(s.attempt.value.(phase := Reading(true, Now(s)))))
    case Changes(covered, patch) =>
      var a := s.attempt.value;
      s.(attempt := Some(a.(phase := Built(MergedCache(a.previous, covered, patch), false, Leftovers(a.previous, covered, a.candidate.value)))))
    case Everything(all) => s.(attempt := Some(s.attempt.value.(phase := Built(all, true, {}))))
    case Publish => Published(s, s.attempt.value)
    case Fail => s.(attempt := None)
  }

  // ----- runs

  /** A loaded store that no maintenance has touched yet. */
  ghost predicate Fresh(s: Track) {
    s.hist != [] && History(s.hist) && s.baseline.None? && s.attempt.None? && s.detailGeneration == s.generation && !s.stale && !s.detailStale && s.invalidated < s.step
  }

  ghost predicate CanRun(s: Track, steps: seq<Step>)
    decreases |steps|
  {
    steps == [] || (Enabled(s, steps[0]) && CanRun(Next(s, steps[0]), steps[1..]))
  }

  ghost function After(s: Track, steps: seq<Step>): Track
    requires CanRun(s, steps)
    decreases |steps|
  {
    if steps == [] then s else After(Next(s, steps[0]), steps[1..])
  }

  // ----- the history

  /** A row that shows the same version at two moments was there, the same, all the time between. */
  lemma {:induction false} SameVersionSameRow(hist: seq<Db>, x: Name, from: nat, until: nat, t: nat)
    requires History(hist) && from <= t <= until < |hist| && x in hist[from] && x in hist[until]
    requires hist[from][x].version == hist[until][x].version
    ensures x in hist[t] && hist[t][x] == hist[until][x]
    decreases until
  {
    if t != until {
      assert Evolves(hist[..until], hist[until]);
      assert RowEvolves(hist[..until], x, hist[until][x]);
      assert hist[..until][from] == hist[from];
      SameVersionSameRow(hist, x, from, until - 1, t);
    }
  }

  lemma HistoryGrows(hist: seq<Db>, db: Db)
    requires History(hist) && Evolves(hist, db)
    ensures History(hist + [db])
  {
    var next := hist + [db];
    forall t | 0 < t < |next| ensures Evolves(next[..t], next[t]) {
      if t < |hist| { assert next[..t] == hist[..t]; } else { assert next[..t] == hist; }
    }
  }

  lemma HeldLater(hist: seq<Db>, db: Db, x: Name, v: Option<int>, from: nat, until: nat)
    requires HeldBetween(hist, x, v, from, until)
    ensures HeldBetween(hist + [db], x, v, from, until)
  {
    var t :| from <= t <= until && t < |hist| && At(hist[t], x) == v;
    assert (hist + [db])[t] == hist[t];
  }
}
