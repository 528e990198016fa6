/** metadata.Registry as values: every critical section of acquiring, releasing, tearing down and
    closing is one step. */
module RegistryModel {
  import opened Wrappers

  type Key = string
  type Scope = string

  /** Where a track's finalizer goroutine is. */
  datatype Teardown =
    | Idle          // not finalized
    | Starting      // about to cancel the track's context
    | AwaitReady    // waits for the factory
    | Stopping      // waits for maintenance, then stops the loader
    | Draining      // waits for the loader
    | Fencing       // marks the details stale
    | DrainDetails  // waits for detail loads
    | Closing       // closes the provider
    | Returning     // gives the budget reference back
    | Leaving       // takes the track off the live list
    | Finalized

  function Rank(stage: Teardown): nat {
    match stage
    case Idle => 0 case Starting => 1 case AwaitReady => 2 case Stopping => 3 case Draining => 4 case Fencing => 5
    case DrainDetails => 6 case Closing => 7 case Returning => 8 case Leaving => 9 case Finalized => 10
  }

  /** How far the creating goroutine is. */
  datatype Creation = InFactory | Created | Failed | Running | Abandoned

  /** One (Key, Scope) store.  `jobs`, `loads` and `maintaining` are native work in flight. */
  datatype Track = Track(
    entry: nat, scope: Scope, refs: int, creation: Creation, closed: bool, cancelled: bool, stage: Teardown,
    loaderStopped: bool, jobs: nat, detailsStale: bool, loads: nat, maintaining: bool,
    closes: nat, budget: nat, live: bool)

  /** One Key's shared state, for one incarnation. */
  datatype Entry = Entry(key: Key, incarnation: nat, retired: bool, tracks: map<Scope, nat>)

  datatype Handle = Handle(budget: nat, refs: int)

  /** Entries and tracks are named by their place in `made` and `tracks`, in order of creation.
      `waiting` are the Acquire calls in progress and `leases` the unreleased leases, with their track.
      `cancelled`: the root context, of which every track's context is a child, has ended. */
  datatype Reg = Reg(
    entries: map<Key, nat>, made: seq<Entry>, tracks: seq<Track>, incarnations: nat,
    budgets: map<Key, Handle>, nextBudget: nat,
    waiting: map<nat, nat>, leases: map<nat, nat>,
    closed: bool, closing: set<nat>, closeDone: bool, cancelled: bool)

  function Initial(): Reg {
    Reg(map[], [], [], 0, map[], 0, map[], map[], false, {}, false, false)
  }

  datatype Step =
    | Attach(call: nat, key: Key, scope: Scope)
    | FactoryFails(t: nat) | FactoryReturns(t: nat) | StartLoader(t: nat)
    | Grant(call: nat, lease: nat) | Withdraw(call: nat) | Release(lease: nat)
    | JobStarts(t: nat) | JobEnds(t: nat) | LoadStarts(t: nat) | LoadEnds(t: nat) | MaintenanceStarts(t: nat) | MaintenanceEnds(t: nat)
    | Finalize(t: nat) | Close | CloseCompletes | RootCancelled

  // ----- budget references

  /** Budget.ForStore */
  function ForStore(budgets: map<Key, Handle>, next: nat, key: Key): (map<Key, Handle>, nat) {
    if key in budgets then (budgets[key := Handle(budgets[key].budget, budgets[key].refs + 1)], budgets[key].budget)
    else (budgets[key := Handle(next, 1)], next)
  }

  /** Budget.release */
  function GiveBack(budgets: map<Key, Handle>, key: Key): map<Key, Handle> {
    if key !in budgets then budgets
    else if budgets[key].refs - 1 <= 0 then budgets - {key}
    else budgets[key := Handle(budgets[key].budget, budgets[key].refs - 1)]
  }

  // ----- attach

  /** The live entry of a key, made if there is none. */
  function WithEntry(r: Reg, key: Key): (Reg, nat)
    requires forall k | k in r.entries :: r.entries[k] < |r.made|
  {
    if key in r.entries && !r.made[r.entries[key]].retired then (r, r.entries[key]) else
      (r.(incarnations := r.incarnations + 1, made := r.made + [Entry(key, r.incarnations + 1, false, map[])],
          entries := r.entries[key := |r.made|]), |r.made|)
  }

  /** The live track of a scope, made if there is none. */
  function WithTrack(r: Reg, e: nat, scope: Scope): (Reg, nat)
    requires e < |r.made|
  {
    if scope in r.made[e].tracks then (r, r.made[e].tracks[scope]) else
      var (budgets, budget) := ForStore(r.budgets, r.nextBudget, r.made[e].key);
      (r.(made := r.made[e := r.made[e].(tracks := r.made[e].tracks[scope := |r.tracks|])],
          tracks := r.tracks + [Track(e, scope, 0, InFactory, false, r.cancelled, Idle, false, 0, false, 0, false, 0, budget, true)],
          budgets := budgets, nextBudget := if r.made[e].key in r.budgets then r.nextBudget else r.nextBudget + 1),
       |r.tracks|)
  }

  function AddRef(r: Reg, t: nat): Reg
    requires t < |r.tracks|
  {
    r.(tracks := r.tracks[t := r.tracks[t].(refs := r.tracks[t].refs + 1)])
  }

  ghost predicate Sane(r: Reg) {
    && (forall k | k in r.entries :: r.entries[k] < |r.made|)
    && (forall e, s | 0 <= e < |r.made| && s in r.made[e].tracks :: r.made[e].tracks[s] < |r.tracks|)
    && (forall t | 0 <= t < |r.tracks| :: r.tracks[t].entry < |r.made|)
    && (forall c | c in r.waiting :: r.waiting[c] < |r.tracks|)
    && (forall l | l in r.leases :: r.leases[l] < |r.tracks|)
  }

  ghost function Attached(r: Reg, call: nat, key: Key, scope: Scope): Reg
    requires Sane(r)
  {
    var (q, e) := WithEntry(r, key);
    var (p, t) := WithTrack(q, e, scope);
    AddRef(p, t).(waiting := p.waiting[call := t])
  }

  // ----- releaseTrackRef

  /** Logical retirement: the track leaves its entry, and an entry without tracks is retired. */
  function Detached(r: Reg, t: nat): Reg
    requires t < |r.tracks| && r.tracks[t].entry < |r.made|
  {
    var e, scope := r.tracks[t].entry, r.tracks[t].scope;
    var entry := r.made[e];
    var left := if scope in entry.tracks && entry.tracks[scope] == t then entry.tracks - {scope} else entry.tracks;
    if left == map[] && !entry.retired then
      r.(made := r.made[e := entry.(tracks := left, retired := true)],
         entries := if entry.key in r.entries && r.entries[entry.key] == e then r.entries - {entry.key} else r.entries)
    else r.(made := r.made[e := entry.(tracks := left)])
  }

  function Finalizing(x: Track): Track {
    x.(closed := true, stage := if x.stage == Idle then Starting else x.stage)
  }

  function ReleaseRef(r: Reg, t: nat): Reg
    requires t < |r.tracks| && r.tracks[t].entry < |r.made|
  {
    var x := r.tracks[t].(refs := r.tracks[t].refs - 1);
    if x.refs <= 0 then Detached(r.(tracks := r.tracks[t := Finalizing(x)]), t)
    else r.(tracks := r.tracks[t := x])
  }

  // ----- Close

  function LiveTracks(r: Reg): set<nat> {
    set t | 0 <= t < |r.tracks| && r.tracks[t].live
  }

  function Shut(r: Reg): Reg {
    if r.closed then r else
      r.(closed := true, closing := LiveTracks(r), entries := map[],
         tracks := AllFinalizing(r.tracks), made := AllRetired(r.made, r.entries))
  }

  function AllFinalizing(tracks: seq<Track>): seq<Track> {
    seq(|tracks|, t requires 0 <= t < |tracks| => if tracks[t].live then Finalizing(tracks[t]) else tracks[t])
  }

  function AllRetired(made: seq<Entry>, entries: map<Key, nat>): seq<Entry> {
    seq(|made|, e requires 0 <= e < |made| =>
      if made[e].key in entries && entries[made[e].key] == e then made[e].(retired := true, tracks := map[]) else made[e])
  }

  // ----- the finalizer

  predicate Ready(x: Track) {
    x.creation != InFactory && x.creation != Created
  }

  predicate HasProvider(x: Track) {
    x.creation == Created || x.creation == Running || x.creation == Abandoned
  }

  predicate CanFinalize(x: Track) {
    match x.stage
    case Idle => false
    case AwaitReady => Ready(x)
    case Stopping => !x.maintaining
    case Draining => x.jobs == 0
    case DrainDetails => x.loads == 0
    case Finalized => false
    case _ => true
  }

  /** The next thing the finalizer does to its track. */
  function FinalizeTrack(x: Track): Track
    requires CanFinalize(x)
  {
    match x.stage
    case Starting => x.(cancelled := true, stage := AwaitReady)
    case AwaitReady => x.(stage := Stopping)
    case Stopping => x.(loaderStopped := true, stage := Draining)
    case Draining => x.(stage := Fencing)
    case Fencing => x.(detailsStale := true, stage := DrainDetails)
    case DrainDetails => x.(stage := Closing)
    case Closing => x.(closes := if HasProvider(x) then x.closes + 1 else x.closes, stage := Returning)
    case Returning => x.(stage := Leaving)
    case Leaving => x.(live := false, stage := Finalized)
  }

  /** The root context ends, and with it every track's. */
  function CancelRoot(r: Reg): Reg {
    r.(cancelled := true, tracks := seq(|r.tracks|, t requires 0 <= t < |r.tracks| => r.tracks[t].(cancelled := true)))
  }

  // ----- the steps

  function Changed(r: Reg, t: nat, x: Track): Reg
    requires t < |r.tracks|
  {
    r.(tracks := r.tracks[t := x])
  }

  ghost predicate Enabled(r: Reg, step: Step)
    requires Sane(r)
  {
    match step
    case Attach(call, _, _) => call !in r.waiting && !r.closed
    case FactoryFails(t) => t < |r.tracks| && r.tracks[t].creation == InFactory
    case FactoryReturns(t) => t < |r.tracks| && r.tracks[t].creation == InFactory
    case StartLoader(t) => t < |r.tracks| && r.tracks[t].creation == Created
    case Grant(call, lease) => call in r.waiting && lease !in r.leases && r.tracks[r.waiting[call]].creation == Running
                               && !r.tracks[r.waiting[call]].closed && !r.tracks[r.waiting[call]].cancelled
    case Withdraw(call) => call in r.waiting
    case Release(lease) => lease in r.leases
    case JobStarts(t) => t < |r.tracks| && r.tracks[t].creation == Running && !r.tracks[t].loaderStopped
    case JobEnds(t) => t < |r.tracks| && r.tracks[t].jobs > 0
    case LoadStarts(t) => t < |r.tracks| && r.tracks[t].creation == Running && !r.tracks[t].detailsStale
    case LoadEnds(t) => t < |r.tracks| && r.tracks[t].loads > 0
    case MaintenanceStarts(t) => t < |r.tracks| && r.tracks[t].creation == Running && !r.tracks[t].closed && !r.tracks[t].cancelled && !r.tracks[t].maintaining
    case MaintenanceEnds(t) => t < |r.tracks| && r.tracks[t].maintaining
    case Finalize(t) => t < |r.tracks| && CanFinalize(r.tracks[t])
    case Close => true
    case CloseCompletes => r.closed && !r.closeDone && forall t | t in r.closing && t < |r.tracks| :: r.tracks[t].stage == Finalized
    case RootCancelled => true
  }

  ghost function Next(r: Reg, step: Step): Reg
    requires Sane(r) && Enabled(r, step)
  {
    match step
    case Attach(call, key, scope) => Attached(r, call, key, scope)
    case FactoryFails(t) => Changed(r, t, r.tracks[t].(creation := Failed))
    case FactoryReturns(t) => Changed(r, t, r.tracks[t].(creation := Created))
    case StartLoader(t) => Changed(r, t, r.tracks[t].(creation := if r.tracks[t].closed || r.tracks[t].cancelled then Abandoned else Running))
    case Grant(call, lease) => r.(waiting := r.waiting - {call}, leases := r.leases[lease := r.waiting[call]])
    case Withdraw(call) => ReleaseRef(r.(waiting := r.waiting - {call}), r.waiting[call])
    case Release(lease) => ReleaseRef(r.(leases := r.leases - {lease}), r.leases[lease])
    case JobStarts(t) => Changed(r, t, r.tracks[t].(jobs := r.tracks[t].jobs + 1))
    case JobEnds(t) => Changed(r, t, r.tracks[t].(jobs := r.tracks[t].jobs - 1))
    case LoadStarts(t) => Changed(r, t, r.tracks[t].(loads := r.tracks[t].loads + 1))
    case LoadEnds(t) => Changed(r, t, r.tracks[t].(loads := r.tracks[t].loads - 1))
    case MaintenanceStarts(t) => Changed(r, t, r.tracks[t].(maintaining := true))
    case MaintenanceEnds(t) => Changed(r, t, r.tracks[t].(maintaining := false))
    case Finalize(t) =>
      var q := Changed(r, t, FinalizeTrack(r.tracks[t]));
      if r.tracks[t].stage == Returning then q.(budgets := GiveBack(r.budgets, r.made[r.tracks[t].entry].key)) else q
    case Close => Shut(r)
    case CloseCompletes => CancelRoot(r).(closeDone := true)
    case RootCancelled => CancelRoot(r)
  }
}
