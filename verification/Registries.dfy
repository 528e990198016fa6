/** metadata.Registry: the critical sections under its mutex, in place. */
module Registries {
  import opened Wrappers
  import opened RegistryModel
  import opened RegistrySafety

  /** Entries and tracks are named by their place in `made` and `tracks`. */
  class Registry {
    var entries: map<Key, nat>
    var made: seq<Entry>
    var tracks: seq<Track>
    var incarnationSeq: nat
    var budgets: map<Key, Handle>
    var nextBudget: nat
    var waiting: map<nat, nat>
    var leases: map<nat, nat>
    var closed: bool
    var closing: set<nat>
    var closeDone: bool
    var cancelled: bool

    function State(): Reg
      reads this
    {
      Reg(entries, made, tracks, incarnationSeq, budgets, nextBudget, waiting, leases, closed, closing, closeDone, cancelled)
    }

    constructor ()
      ensures State() == Initial() && Safe(State())
    {
      entries, made, tracks, incarnationSeq, budgets, nextBudget := map[], [], [], 0, map[], 0;
      waiting, leases, closed, closing, closeDone, cancelled := map[], map[], false, {}, false, false;
      new;
      forall k: Key ensures BudgetAt(Initial(), k) { assert BudgetHolders(Initial(), k) == {}; }
    }

    /** Permit sets are numbered in the order in which they are made. */
    predicate Numbered()
      reads this`budgets, this`nextBudget
    {
      forall k | k in budgets :: budgets[k].budget < nextBudget
    }

    /** Budget.ForStore: a key in use keeps its permits and counts one more reference; another key gets
        permits that no key has.  Every other key keeps its handle. */
    method ForStore(key: Key) returns (budget: nat)
      modifies this`budgets, this`nextBudget
      ensures key in budgets && budgets[key].budget == budget && budgets.Keys == old(budgets).Keys + {key}
      ensures budgets[key].refs == (if key in old(budgets) then old(budgets)[key].refs else 0) + 1
      ensures key in old(budgets) ==> budget == old(budgets)[key].budget
      ensures forall k | k in old(budgets) && k != key :: budgets[k] == old(budgets)[k]
      ensures old(Numbered()) ==> Numbered() && (key !in old(budgets) ==> forall k | k in old(budgets) :: old(budgets)[k].budget != budget)
      ensures (budgets, budget) == RegistryModel.ForStore(old(budgets), old(nextBudget), key)
      ensures nextBudget == if key in old(budgets) then old(nextBudget) else old(nextBudget) + 1
    {
      if key !in budgets {
        budgets := budgets[key := Handle(nextBudget, 0)];
        nextBudget := nextBudget + 1;
      }
      var handle := budgets[key];
      budgets := budgets[key := handle.(refs := handle.refs + 1)];
      budget := handle.budget;
      assert key !in old(budgets) ==> budgets == old(budgets)[key := Handle(old(nextBudget), 1)];
    }

    /** attach: find or make the entry of a key and the track of a scope, and reference it. */
    method Attach(call: nat, key: Key, scope: Scope) returns (t: Option<nat>)
      requires Safe(State()) && call !in waiting
      modifies this
      ensures Safe(State())
      ensures if old(closed) then t == None && State() == old(State()) else
                Sane(old(State())) && State() == Attached(old(State()), call, key, scope) && t == Some(waiting[call])
    {
      hide RefsExact, TracksOk, Incarnations, Placed, Shared, Budgets, Shutdown, WithEntry, WithTrack;
      if closed {
        return None;
      }
      AttachKeeps(State(), call, key, scope);
      var e := EntryFor(key);
      var id := TrackFor(e, scope);
      tracks := tracks[id := tracks[id].(refs := tracks[id].refs + 1)];
      waiting := waiting[call := id];
      return Some(id);
    }

    method EntryFor(key: Key) returns (e: nat)
      requires Sane(State())
      modifies this`incarnationSeq, this`made, this`entries
      ensures Sane(old(State())) && (State(), e) == WithEntry(old(State()), key)
      ensures e < |made| && forall s | s in made[e].tracks :: made[e].tracks[s] < |tracks|
    {
      if key !in entries || made[entries[key]].retired {
        incarnationSeq := incarnationSeq + 1;
        e := |made|;
        made := made + [Entry(key, incarnationSeq, false, map[])];
        entries := entries[key := e];
      } else {
        e := entries[key];
      }
    }

    method TrackFor(e: nat, scope: Scope) returns (t: nat)
      requires e < |made| && forall s | s in made[e].tracks :: made[e].tracks[s] < |tracks|
      modifies this`made, this`tracks, this`budgets, this`nextBudget
      ensures (State(), t) == WithTrack(old(State()), e, scope) && t < |tracks|
    {
      if scope !in made[e].tracks {
        var budget := ForStore(made[e].key);
        made := made[e := made[e].(tracks := made[e].tracks[scope := |tracks|])];
        tracks := tracks + [Track(e, scope, 0, InFactory, false, cancelled, Idle, false, 0, false, 0, false, 0, budget, true)];
      }
      t := made[e].tracks[scope];
    }

    /** releaseTrackRef, by a lease. */
    method ReleaseLease(lease: nat)
      requires Safe(State()) && lease in leases
      modifies this
      ensures Safe(State()) && Sane(old(State())) && State() == Next(old(State()), Release(lease))
    {
      hide RefsExact, TracksOk, Incarnations, Placed, Shared, Budgets, Shutdown, Detached;
      LeaseKeeps(State(), lease);
      var t := leases[lease];
      leases := leases - {lease};
      ReleaseTrackRef(t);
    }

    method ReleaseTrackRef(t: nat)
      requires t < |tracks| && tracks[t].entry < |made|
      modifies this`tracks, this`made, this`entries
      ensures State() == ReleaseRef(old(State()), t)
    {
      hide Detached;
      tracks := tracks[t := tracks[t].(refs := tracks[t].refs - 1)];
      if tracks[t].refs <= 0 {
        tracks := tracks[t := Finalizing(tracks[t])];
        assert tracks == old(tracks)[t := tracks[t]];
        Detach(t);
      }
    }

    method Detach(t: nat)
      requires t < |tracks| && tracks[t].entry < |made|
      modifies this`made, this`entries
      ensures State() == Detached(old(State()), t)
    {
      var e, scope := tracks[t].entry, tracks[t].scope;
      if scope in made[e].tracks && made[e].tracks[scope] == t {
        made := made[e := made[e].(tracks := made[e].tracks - {scope})];
      }
      if made[e].tracks == map[] && !made[e].retired {
        made := made[e := made[e].(retired := true)];
        if made[e].key in entries && entries[made[e].key] == e {
          entries := entries - {made[e].key};
        }
      }
    }

    /** The critical section of Close: every live track is retired and its finalizer started. */
    method Shut()
      requires Safe(State())
      modifies this
      ensures Safe(State()) && State() == RegistryModel.Shut(old(State()))
    {
      hide Safe;
      ShutKeeps(State());
      if closed {
        return;
      }
      closing := LiveTracks(State());
      closed := true;
      FinalizeLive();
      RetireEntries();
      entries := map[];
      assert State() == RegistryModel.Shut(old(State()));
    }

    method FinalizeLive()
      modifies this`tracks
      ensures tracks == AllFinalizing(old(tracks))
    {
      for t := 0 to |tracks|
        invariant |tracks| == |old(tracks)|
        invariant forall u | 0 <= u < t :: tracks[u] == if old(tracks)[u].live then Finalizing(old(tracks)[u]) else old(tracks)[u]
        invariant forall u | t <= u < |tracks| :: tracks[u] == old(tracks)[u]
      {
        if tracks[t].live {
          tracks := tracks[t := Finalizing(tracks[t])];
        }
      }
    }

    method RetireEntries()
      modifies this`made
      ensures made == AllRetired(old(made), entries)
    {
      for e := 0 to |made|
        invariant |made| == |old(made)|
        invariant forall f | 0 <= f < e :: made[f] == if old(made)[f].key in entries && entries[old(made)[f].key] == f then old(made)[f].(retired := true, tracks := map[]) else old(made)[f]
        invariant forall f | e <= f < |made| :: made[f] == old(made)[f]
      {
        if made[e].key in entries && entries[made[e].key] == e {
          made := made[e := made[e].(retired := true, tracks := map[])];
        }
      }
    }
  }
}
