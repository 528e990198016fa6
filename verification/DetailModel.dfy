/** The detail store as values: what every critical section does, and what every run keeps. */
module DetailModel {
  import opened Wrappers

  datatype Failure = Stale | LoadFailed | DetailLimit

  datatype Detail = Detail(text: string, provenance: string, body: string)

  /** detailWeight */
  function Weight(d: Detail): nat {
    |d.text| + |d.provenance| + |d.body|
  }

  datatype Outcome = Value(detail: Detail) | Error(failure: Failure)

  /** One load: everything the store and its waiters know of it.  `generation` is the one it was
      started under; `settledUnder` is the store generation at the moment it settled as fresh data. */
  datatype Load = Load(coverage: string, volatile: bool, generation: int, outcome: Option<Outcome>, size: nat,
                       settled: bool, settledUnder: Option<int>, returned: bool)

  /** `order` lists the mapped loads, most recently used first.  `loads` is every load ever started,
      and `since` of them were started before the store was last cleared. */
  datatype Store = Store(maxBytes: nat, generation: int, stale: bool, order: seq<nat>, loads: seq<Load>, since: nat)

  // ----- reading a store

  function SizeOf(s: Store, id: nat): nat {
    if id < |s.loads| && s.loads[id].settled then s.loads[id].size else 0
  }

  /** The bytes of the settled entries of a list. */
  function Total(s: Store, ids: seq<nat>): nat {
    if ids == [] then 0 else Total(s, ids[..|ids| - 1]) + SizeOf(s, ids[|ids| - 1])
  }

  /** The position of the mapped load of a coverage, or |order|. */
  function Find(s: Store, coverage: string): (i: nat)
    requires InRange(s)
    ensures i <= |s.order|
    ensures i < |s.order| ==> s.loads[s.order[i]].coverage == coverage
    ensures forall j | 0 <= j < i :: s.loads[s.order[j]].coverage != coverage
  {
    FindFrom(s, coverage, 0)
  }

  function FindFrom(s: Store, coverage: string, from: nat): (i: nat)
    requires InRange(s) && from <= |s.order|
    requires forall j | 0 <= j < from :: s.loads[s.order[j]].coverage != coverage
    ensures i <= |s.order|
    ensures i < |s.order| ==> s.loads[s.order[i]].coverage == coverage
    ensures forall j | 0 <= j < i :: s.loads[s.order[j]].coverage != coverage
    decreases |s.order| - from
  {
    if from == |s.order| || s.loads[s.order[from]].coverage == coverage then from else FindFrom(s, coverage, from + 1)
  }

  predicate InRange(s: Store) {
    forall i | 0 <= i < |s.order| :: s.order[i] < |s.loads|
  }

  // ----- the critical sections

  function Removed(order: seq<nat>, i: nat): seq<nat>
    requires i < |order|
  {
    order[..i] + order[i + 1..]
  }

  /** What acquire answers before it waits: refused, or the load to wait for. */
  datatype Answer = Refused | Join(id: nat)

  function Acquire(s: Store, generation: int, coverage: string, volatile: bool): (Store, Answer)
    requires InRange(s)
  {
    if s.stale || generation != s.generation then (s, Refused) else
      var i := Find(s, coverage);
      if i < |s.order| then
        (Touched(s, i), Join(s.order[i]))
      else
        (Added(s, Load(coverage, volatile, generation, None, 0, false, None, false)), Join(|s.loads|))
  }

  function Touched(s: Store, i: nat): Store
    requires i < |s.order|
  {
    s.(order := [s.order[i]] + Removed(s.order, i))
  }

  function Added(s: Store, l: Load): Store {
    s.(order := [|s.loads|] + s.order, loads := s.loads + [l])
  }

  predicate SettledAt(s: Store, i: nat)
    requires i < |s.order|
  {
    s.order[i] < |s.loads| && s.loads[s.order[i]].settled
  }

  /** Walk from the tail: settled entries go until the rest fits. */
  function Evicted(s: Store, n: nat): seq<nat>
    requires n <= |s.order|
    decreases n
  {
    if Total(s, s.order) <= s.maxBytes || n == 0 then s.order
    else if SettledAt(s, n - 1) then Evicted(s.(order := Removed(s.order, n - 1)), n - 1)
    else Evicted(s, n - 1)
  }

  /** A load with its final answer; a value is of the generation that is current now. */
  function Answered(s: Store, id: nat, outcome: Outcome): Load
    requires id < |s.loads|
  {
    s.loads[id].(outcome := Some(outcome), settledUnder := if outcome.Value? then Some(s.generation) else None)
  }

  function Dropped(s: Store, id: nat, outcome: Outcome): Store
    requires id < |s.loads| && id in s.order
  {
    s.(order := Removed(s.order, IndexOf(s.order, id)), loads := s.loads[id := Answered(s, id, outcome)])
  }

  function Kept(s: Store, id: nat, d: Detail): Store
    requires id < |s.loads|
  {
    s.(loads := s.loads[id := Answered(s, id, Value(d)).(size := Weight(d), settled := true)])
  }

  /** settle: publish one load's result, then evict. */
  function Settle(s: Store, id: nat, result: Outcome): Store
    requires id < |s.loads|
  {
    if id !in s.order then s.(loads := s.loads[id := Answered(s, id, Error(Stale))])
    else if s.stale || s.loads[id].generation != s.generation then Dropped(s, id, Error(Stale))
    else if result.Error? then Dropped(s, id, result)
    else if Weight(result.detail) > s.maxBytes then Dropped(s, id, Error(DetailLimit))
    else if s.loads[id].volatile then Dropped(s, id, result)
    else
      var kept := Kept(s, id, result.detail);
      kept.(order := Evicted(kept, |kept.order|))
  }

  function IndexOf(order: seq<nat>, id: nat): (i: nat)
    requires id in order
    ensures i < |order| && order[i] == id
  {
    if order[0] == id then 0 else 1 + IndexOf(order[1..], id)
  }

  function BeginGeneration(s: Store, generation: int): Store {
    s.(generation := generation, stale := false, order := [], since := |s.loads|)
  }

  function MarkStale(s: Store): Store {
    s.(stale := true, order := [], since := |s.loads|)
  }

  function Return(s: Store, id: nat): Store
    requires id < |s.loads|
  {
    s.(loads := s.loads[id := s.loads[id].(returned := true)])
  }

  // ----- the invariant

  predicate Retained(l: Load) {
    l.outcome.Some? && l.outcome.value.Value? && !l.volatile && l.size == Weight(l.outcome.value.detail)
  }

  /** A mapped load is of the current generation; a finished one is a retained, fitting value. */
  predicate MappedOk(s: Store, id: nat) {
    && id < |s.loads|
    && s.loads[id].generation == s.generation
    && (s.loads[id].outcome.Some? <==> s.loads[id].settled)
    && (s.loads[id].settled ==> Retained(s.loads[id]))
  }

  /** A value was settled while its own generation was the store's, and the store was not stale. */
  predicate LoadOk(l: Load) {
    && (l.outcome.Some? && l.outcome.value.Value? <==> l.settledUnder.Some?)
    && (l.settledUnder.Some? ==> l.settledUnder.value == l.generation)
    && (l.settled ==> l.outcome.Some?) && (!l.settled ==> l.size == 0)
    && (l.returned ==> l.outcome.Some?)
  }

  /** The mapped loads: known, of the current generation, one for each coverage. */
  ghost predicate ListInv(s: Store) {
    && Distinct(s.order) && s.since <= |s.loads|
    && (s.stale ==> s.order == [])
    && (forall id | id in s.order :: MappedOk(s, id) && s.since <= id)
    && (forall a, b | a in s.order && b in s.order && s.loads[a].coverage == s.loads[b].coverage :: a == b)
  }

  /** Every load is well formed, and an unfinished one started since the last clearing is mapped. */
  ghost predicate LoadsInv(s: Store) {
    && (forall id | 0 <= id < |s.loads| :: LoadOk(s.loads[id]))
    && (forall id | s.since <= id < |s.loads| && s.loads[id].outcome.None? :: id in s.order)
  }

  ghost predicate Inv(s: Store) {
    ListInv(s) && LoadsInv(s) && Total(s, s.order) <= s.maxBytes
  }

  lemma InvInRange(s: Store)
    requires ListInv(s)
    ensures InRange(s)
  {
    forall i | 0 <= i < |s.order| ensures s.order[i] < |s.loads| { assert MappedOk(s, s.order[i]); }
  }

  lemma InvRange(s: Store)
    requires Inv(s)
    ensures InRange(s)
  {
    InvInRange(s);
  }

  // ----- facts about totals

  lemma {:induction false} TotalAppend(s: Store, a: seq<nat>, b: seq<nat>)
    ensures Total(s, a + b) == Total(s, a) + Total(s, b)
  {
    if b == [] {
      assert a + b == a;
    } else {
      assert (a + b)[..|a + b| - 1] == a + b[..|b| - 1];
      TotalAppend(s, a, b[..|b| - 1]);
    }
  }

  lemma TotalRemoved(s: Store, order: seq<nat>, i: nat)
    requires i < |order|
    ensures Total(s, order) == Total(s, Removed(order, i)) + SizeOf(s, order[i])
  {
    assert order == order[..i] + [order[i]] + order[i + 1..];
    TotalAppend(s, order[..i] + [order[i]], order[i + 1..]);
    TotalAppend(s, order[..i], [order[i]]);
    TotalAppend(s, order[..i], order[i + 1..]);
    assert Total(s, [order[i]]) == SizeOf(s, order[i]);
  }

  /** Only the sizes of the listed loads matter. */
  lemma TotalAgrees(s: Store, t: Store, ids: seq<nat>)
    requires forall i | 0 <= i < |ids| :: SizeOf(s, ids[i]) == SizeOf(t, ids[i])
    ensures Total(s, ids) == Total(t, ids)
  {
  }

  // ----- eviction removes exactly the settled entries of the shortest fitting tail

  function Unsettled(s: Store, ids: seq<nat>): seq<nat> {
    if ids == [] then [] else
      Unsettled(s, ids[..|ids| - 1]) + if ids[|ids| - 1] < |s.loads| && s.loads[ids[|ids| - 1]].settled then [] else [ids[|ids| - 1]]
  }

  /** How much of the front stays whole: the longest prefix that fits by itself. */
  function Cut(s: Store, order: seq<nat>): (c: nat)
    ensures c <= |order|
  {
    if Total(s, order) <= s.maxBytes || order == [] then |order| else Cut(s, order[..|order| - 1])
  }

  lemma {:induction false} CutFits(s: Store, order: seq<nat>)
    ensures Total(s, order[..Cut(s, order)]) <= s.maxBytes
    ensures Cut(s, order) < |order| ==> Total(s, order[..Cut(s, order) + 1]) > s.maxBytes
  {
    if Total(s, order) <= s.maxBytes {
      assert order[..|order|] == order;
    } else {
      var front, c := order[..|order| - 1], Cut(s, order);
      CutFits(s, front);
      assert front[..c] == order[..c];
      if c < |front| {
        assert front[..c + 1] == order[..c + 1];
      } else {
        assert order[..c + 1] == order;
      }
    }
  }

  lemma EvictedStep(s: Store, n: nat)
    requires 0 < n <= |s.order| && Total(s, s.order) > s.maxBytes
    ensures Evicted(s, n) == if SettledAt(s, n - 1) then Evicted(s.(order := Removed(s.order, n - 1)), n - 1) else Evicted(s, n - 1)
  {
  }

  lemma EvictedDone(s: Store, n: nat)
    requires n <= |s.order| && (Total(s, s.order) <= s.maxBytes || n == 0)
    ensures Evicted(s, n) == s.order
  {
  }

  lemma UnsettledOne(s: Store, id: nat)
    ensures Unsettled(s, [id]) == if id < |s.loads| && s.loads[id].settled then [] else [id]
  {
  }

  lemma {:induction false} EvictedFrom(s: Store, front: seq<nat>, back: seq<nat>)
    requires s.order == front + back && Unsettled(s, back) == back
    ensures Evicted(s, |front|) == front[..Cut(s, front)] + Unsettled(s, front[Cut(s, front)..]) + back
    decreases |front|
  {
    UnsettledWeighNothing(s, back);
    TotalAppend(s, front, back);
    var c := Cut(s, front);
    if Total(s, front) <= s.maxBytes {
      assert front[..c] == front && front[c..] == [];
      assert front + [] + back == front + back;
    } else if s.order[|front| - 1] < |s.loads| && s.loads[s.order[|front| - 1]].settled {
      EvictSettled(s, front, back);
    } else {
      EvictSkips(s, front, back);
    }
  }

  lemma {:induction false} CutShorter(s: Store, front: seq<nat>)
    requires Total(s, front) > s.maxBytes
    ensures front != [] && Cut(s, front) == Cut(s, front[..|front| - 1]) < |front|
    ensures var c, rest := Cut(s, front), front[..|front| - 1];
            rest[..c] == front[..c] && front[c..] == rest[c..] + [front[|front| - 1]]
  {
    var c, rest := Cut(s, front), front[..|front| - 1];
    assert front == rest + [front[|front| - 1]];
  }

  lemma {:induction false} EvictSettled(s: Store, front: seq<nat>, back: seq<nat>)
    requires s.order == front + back && Unsettled(s, back) == back
    requires Total(s, front) > s.maxBytes && Total(s, back) == 0
    requires front != [] && front[|front| - 1] < |s.loads| && s.loads[front[|front| - 1]].settled
    ensures Evicted(s, |front|) == front[..Cut(s, front)] + Unsettled(s, front[Cut(s, front)..]) + back
    decreases |front|, 0
  {
    hide Total, Unsettled, Cut, Evicted;
    TotalAppend(s, front, back);
    CutShorter(s, front);
    EvictedStep(s, |front|);
    UnsettledOne(s, front[|front| - 1]);
    var rest, c := front[..|front| - 1], Cut(s, front);
    assert Removed(s.order, |front| - 1) == rest + back;
    var t := s.(order := rest + back);
    SameStore(s, t, back);
    EvictedFrom(t, rest, back);
    SameCut(s, t, rest);
    SameStore(s, t, rest[c..]);
    UnsettledAppend(s, rest[c..], [front[|front| - 1]]);
    assert Unsettled(s, rest[c..]) + [] == Unsettled(s, rest[c..]);
  }

  lemma {:induction false} EvictSkips(s: Store, front: seq<nat>, back: seq<nat>)
    requires s.order == front + back && Unsettled(s, back) == back
    requires Total(s, front) > s.maxBytes && Total(s, back) == 0
    requires front != [] && !(front[|front| - 1] < |s.loads| && s.loads[front[|front| - 1]].settled)
    ensures Evicted(s, |front|) == front[..Cut(s, front)] + Unsettled(s, front[Cut(s, front)..]) + back
    decreases |front|, 0
  {
    hide Total, Unsettled, Cut, Evicted;
    TotalAppend(s, front, back);
    CutShorter(s, front);
    var rest, last, c := front[..|front| - 1], front[|front| - 1], Cut(s, front);
    EvictedStep(s, |front|);
    assert front + back == rest + ([last] + back);
    SkippedBack(s, last, back);
    EvictedFrom(s, rest, [last] + back);
    UnsettledAppend(s, rest[c..], [last]);
    UnsettledOne(s, last);
    Regroup(rest[..c], Unsettled(s, rest[c..]), last, back);
  }

  lemma Regroup(a: seq<nat>, b: seq<nat>, x: nat, c: seq<nat>)
    ensures a + b + ([x] + c) == a + (b + [x]) + c
  {
  }

  lemma SkippedBack(s: Store, last: nat, back: seq<nat>)
    requires Unsettled(s, back) == back && !(last < |s.loads| && s.loads[last].settled)
    ensures Unsettled(s, [last] + back) == [last] + back
  {
    hide Unsettled;
    UnsettledAppend(s, [last], back);
    UnsettledOne(s, last);
  }

  lemma SameStore(s: Store, t: Store, ids: seq<nat>)
    requires s.loads == t.loads
    ensures Total(s, ids) == Total(t, ids) && Unsettled(s, ids) == Unsettled(t, ids)
  {
  }

  lemma {:induction false} SameCut(s: Store, t: Store, order: seq<nat>)
    requires s.loads == t.loads && s.maxBytes == t.maxBytes
    ensures Cut(s, order) == Cut(t, order)
  {
    SameStore(s, t, order);
    if Total(s, order) > s.maxBytes {
      SameCut(s, t, order[..|order| - 1]);
    }
  }

  lemma {:induction false} UnsettledAppend(s: Store, a: seq<nat>, b: seq<nat>)
    ensures Unsettled(s, a + b) == Unsettled(s, a) + Unsettled(s, b)
  {
    if b == [] {
      assert a + b == a;
    } else {
      assert (a + b)[..|a + b| - 1] == a + b[..|b| - 1];
      UnsettledAppend(s, a, b[..|b| - 1]);
    }
  }

  lemma {:induction false} UnsettledWeighNothing(s: Store, ids: seq<nat>)
    requires Unsettled(s, ids) == ids
    ensures Total(s, ids) == 0
  {
    if ids != [] {
      UnsettledShorter(s, ids[..|ids| - 1]);
      UnsettledWeighNothing(s, ids[..|ids| - 1]);
    }
  }

  lemma UnsettledShorter(s: Store, ids: seq<nat>)
    ensures |Unsettled(s, ids)| <= |ids|
  {
  }

  /** Eviction keeps the longest prefix whose settled entries fit, and from the tail after it drops
      every settled entry and no in-flight one. */
  lemma {:induction false} EvictionIsShortestTail(s: Store)
    ensures var c := Cut(s, s.order);
            && Evicted(s, |s.order|) == s.order[..c] + Unsettled(s, s.order[c..])
            && Total(s, s.order[..c]) <= s.maxBytes
            && (c < |s.order| ==> Total(s, s.order[..c + 1]) > s.maxBytes)
  {
    CutFits(s, s.order);
    assert s.order == s.order + [];
    EvictedFrom(s, s.order, []);
    var c := Cut(s, s.order);
    assert s.order[..c] + Unsettled(s, s.order[c..]) + [] == s.order[..c] + Unsettled(s, s.order[c..]);
  }

  // ----- every critical section keeps the invariant

  datatype Action =
    | DoAcquire(generation: int, coverage: string, volatile: bool)
    | DoSettle(id: nat, result: Outcome)
    | DoReturn(id: nat)
    | DoBegin(generation: int)
    | DoMarkStale

  /** A started load settles once, then its runner returns once. */
  predicate Enabled(s: Store, a: Action) {
    match a
    case DoSettle(id, _) => id < |s.loads| && s.loads[id].outcome.None?
    case DoReturn(id) => id < |s.loads| && s.loads[id].outcome.Some? && !s.loads[id].returned
    case _ => true
  }

  function Step(s: Store, a: Action): Store
    requires InRange(s) && Enabled(s, a)
  {
    match a
    case DoAcquire(g, c, v) => Acquire(s, g, c, v).0
    case DoSettle(id, result) => Settle(s, id, result)
    case DoReturn(id) => Return(s, id)
    case DoBegin(g) => BeginGeneration(s, g)
    case DoMarkStale => MarkStale(s)
  }

  function Initial(maxBytes: nat): Store {
    Store(maxBytes, 1, false, [], [], 0)
  }

  lemma RemovedMembers(order: seq<nat>, i: nat)
    requires i < |order| && Distinct(order)
    ensures Distinct(Removed(order, i))
    ensures forall id :: id in Removed(order, i) <==> id in order && id != order[i]
  {
    var r := Removed(order, i);
    forall j | 0 <= j < |r| ensures r[j] == order[if j < i then j else j + 1] { }
    forall id | id in order && id != order[i] ensures id in r {
      var j :| 0 <= j < |order| && order[j] == id;
      assert r[if j < i then j else j - 1] == id;
    }
  }

  lemma FrontMembers(order: seq<nat>, id: nat)
    requires Distinct(order) && id !in order
    ensures Distinct([id] + order)
    ensures forall x :: x in [id] + order <==> x == id || x in order
  {
    var t := [id] + order;
    forall j, k | 0 <= j < k < |t| ensures t[j] != t[k] {
      assert t[k] == order[k - 1];
      if j > 0 { assert t[j] == order[j - 1]; }
    }
  }

  lemma FindMisses(s: Store, coverage: string)
    requires ListInv(s)
    ensures InRange(s)
    ensures Find(s, coverage) == |s.order| ==> forall id | id in s.order :: s.loads[id].coverage != coverage
  {
    InvInRange(s);
  }

  lemma AcquireKeeps(s: Store, generation: int, coverage: string, volatile: bool)
    requires Inv(s) && InRange(s)
    ensures Inv(Acquire(s, generation, coverage, volatile).0)
  {
    if !s.stale && generation == s.generation {
      FindMisses(s, coverage);
      var i := Find(s, coverage);
      if i < |s.order| {
        Touch(s, i);
      } else {
        AddKeeps(s, Load(coverage, volatile, generation, None, 0, false, None, false));
      }
    }
  }

  lemma AddKeeps(s: Store, l: Load)
    requires Inv(s) && !s.stale && l == Load(l.coverage, l.volatile, s.generation, None, 0, false, None, false)
    requires forall id | id in s.order :: s.loads[id].coverage != l.coverage
    ensures Inv(Added(s, l))
  {
    var id, t := |s.loads|, Added(s, l);
    assert forall x | x in s.order :: MappedOk(s, x);
    InvInRange(s);
    FrontMembers(s.order, id);
    AddedTotal(s, l);
    forall x | x in t.order ensures MappedOk(t, x) && s.since <= x { assert x != id ==> t.loads[x] == s.loads[x]; }
  }

  lemma AddedTotal(s: Store, l: Load)
    requires l.size == 0
    requires InRange(s)
    ensures Total(Added(s, l), Added(s, l).order) == Total(s, s.order)
  {
    var id, t := |s.loads|, Added(s, l);
    TotalAppend(t, [id], s.order);
    TotalAgrees(s, t, s.order);
    assert Total(t, [id]) == 0;
  }

  /** Moving an entry to the front is a permutation. */
  lemma Touch(s: Store, i: nat)
    requires Inv(s) && i < |s.order|
    ensures Inv(Touched(s, i))
  {
    RemovedMembers(s.order, i);
    FrontMembers(Removed(s.order, i), s.order[i]);
    TouchedTotal(s, i);
  }

  lemma TouchedTotal(s: Store, i: nat)
    requires i < |s.order|
    ensures Total(Touched(s, i), Touched(s, i).order) == Total(s, s.order)
  {
    TotalRemoved(s, s.order, i);
    TotalAppend(s, [s.order[i]], Removed(s.order, i));
    TotalAgrees(s, Touched(s, i), Touched(s, i).order);
    assert Total(s, [s.order[i]]) == SizeOf(s, s.order[i]);
  }

  lemma DropKeeps(s: Store, id: nat, outcome: Outcome)
    requires Inv(s) && id in s.order && id < |s.loads| && s.loads[id].outcome.None? && s.loads[id].generation == s.generation
    ensures Inv(Dropped(s, id, outcome))
  {
    hide Total, Removed;
    var i, t := IndexOf(s.order, id), Dropped(s, id, outcome);
    RemovedMembers(s.order, i);
    DroppedTotal(s, id, outcome);
    forall x | x in t.order ensures MappedOk(t, x) && s.since <= x && t.loads[x] == s.loads[x] { assert MappedOk(s, x); }
  }

  lemma DroppedTotal(s: Store, id: nat, outcome: Outcome)
    requires Distinct(s.order) && id in s.order && id < |s.loads| && !s.loads[id].settled
    ensures Total(Dropped(s, id, outcome), Dropped(s, id, outcome).order) == Total(s, s.order)
  {
    hide Total, Removed;
    var i, t := IndexOf(s.order, id), Dropped(s, id, outcome);
    RemovedMembers(s.order, i);
    TotalRemoved(s, s.order, i);
    assert forall j | 0 <= j < |t.order| :: t.order[j] in t.order;
    TotalAgrees(s, t, t.order);
  }

  lemma KeptTotal(s: Store, id: nat, d: Detail)
    requires Distinct(s.order) && id in s.order && id < |s.loads| && !s.loads[id].settled
    ensures Total(Kept(s, id, d), s.order) == Total(s, s.order) + Weight(d)
  {
    hide Total, Removed;
    var i, t := IndexOf(s.order, id), Kept(s, id, d);
    var rest := Removed(s.order, i);
    RemovedMembers(s.order, i);
    TotalRemoved(s, s.order, i);
    TotalRemoved(t, s.order, i);
    assert forall j | 0 <= j < |rest| :: rest[j] in rest;
    TotalAgrees(s, t, rest);
  }

  lemma UnmappedKeeps(s: Store, id: nat, l: Load)
    requires Inv(s) && id < |s.loads| && id !in s.order && LoadOk(l) && l.outcome.Some?
    ensures Inv(s.(loads := s.loads[id := l]))
  {
    var t := s.(loads := s.loads[id := l]);
    assert forall j | 0 <= j < |s.order| :: s.order[j] in s.order;
    TotalAgrees(s, t, s.order);
  }

  lemma RemoveSettled(s: Store, i: nat)
    requires ListInv(s) && LoadsInv(s) && i < |s.order| && s.order[i] < |s.loads| && s.loads[s.order[i]].settled
    ensures ListInv(s.(order := Removed(s.order, i))) && LoadsInv(s.(order := Removed(s.order, i)))
  {
    RemovedMembers(s.order, i);
    assert MappedOk(s, s.order[i]);
  }

  /** Eviction keeps everything and restores the bound. */
  lemma {:induction false} EvictKeeps(s: Store, n: nat)
    requires n <= |s.order| && ListInv(s) && LoadsInv(s)
    requires Total(s, s.order) > s.maxBytes ==> Unsettled(s, s.order[n..]) == s.order[n..]
    ensures Inv(s.(order := Evicted(s, n)))
    decreases n
  {
    if Total(s, s.order) > s.maxBytes {
      if n == 0 {
        assert s.order[0..] == s.order;
        UnsettledWeighNothing(s, s.order);
      } else {
        EvictOne(s, n);
      }
    }
  }

  lemma EvictOne(s: Store, n: nat)
    requires 0 < n <= |s.order| && ListInv(s) && LoadsInv(s)
    requires Total(s, s.order) > s.maxBytes && Unsettled(s, s.order[n..]) == s.order[n..]
    ensures Inv(s.(order := Evicted(s, n)))
    decreases n, 0
  {
    hide Total, Unsettled, Evicted, LoadsInv;
    var last := s.order[n - 1];
    assert MappedOk(s, last);
    EvictedStep(s, n);
    if s.loads[last].settled {
      var t := s.(order := Removed(s.order, n - 1));
      assert t.order[n - 1..] == s.order[n..];
      SameStore(s, t, s.order[n..]);
      RemoveSettled(s, n - 1);
      EvictKeeps(t, n - 1);
    } else {
      assert s.order[n - 1..] == [last] + s.order[n..];
      SkippedBack(s, last, s.order[n..]);
      EvictKeeps(s, n - 1);
    }
  }

  lemma RetainKeeps(s: Store, id: nat, d: Detail)
    requires Inv(s) && id in s.order && id < |s.loads| && !s.loads[id].volatile
    ensures var kept := Kept(s, id, d);
            ListInv(kept) && Inv(kept.(order := Evicted(kept, |kept.order|)))
  {
    var kept := Kept(s, id, d);
    assert MappedOk(s, id);
    forall x | x in kept.order ensures MappedOk(kept, x) && s.since <= x { assert MappedOk(s, x); }
    assert kept.order[|kept.order|..] == [];
    EvictKeeps(kept, |kept.order|);
  }

  lemma SettleKeeps(s: Store, id: nat, result: Outcome)
    requires Inv(s) && id < |s.loads| && s.loads[id].outcome.None?
    ensures Inv(Settle(s, id, result))
  {
    if id !in s.order {
      UnmappedKeeps(s, id, Answered(s, id, Error(Stale)));
    } else {
      assert MappedOk(s, id);
      if result.Error? {
        DropKeeps(s, id, result);
      } else if Weight(result.detail) > s.maxBytes {
        DropKeeps(s, id, Error(DetailLimit));
      } else if s.loads[id].volatile {
        DropKeeps(s, id, result);
      } else {
        RetainKeeps(s, id, result.detail);
      }
    }
  }

  lemma ReturnKeeps(s: Store, id: nat)
    requires Inv(s) && id < |s.loads| && s.loads[id].outcome.Some?
    ensures Inv(Return(s, id))
  {
    var t := Return(s, id);
    forall x | x in s.order ensures MappedOk(t, x) && s.since <= x { assert MappedOk(s, x); }
    TotalAgrees(s, t, s.order);
  }

  lemma ClearedKeeps(s: Store, generation: int)
    requires Inv(s)
    ensures Inv(BeginGeneration(s, generation)) && Inv(MarkStale(s))
  {
  }

  lemma StepKeeps(s: Store, a: Action)
    requires Inv(s) && InRange(s) && Enabled(s, a)
    ensures Inv(Step(s, a)) && InRange(Step(s, a))
  {
    match a {
      case DoAcquire(g, c, v) => AcquireKeeps(s, g, c, v);
      case DoSettle(id, result) => SettleKeeps(s, id, result);
      case DoReturn(id) => ReturnKeeps(s, id);
      case DoBegin(_) =>
      case DoMarkStale =>
    }
    InvInRange(Step(s, a));
  }

  // ----- what holds over every run

  /** `actions` can be performed one after the other, from the initial store. */
  predicate CanRun(maxBytes: nat, actions: seq<Action>)
    decreases |actions|, 0
  {
    actions == [] ||
      (CanRun(maxBytes, actions[..|actions| - 1]) && InRange(Run(maxBytes, actions[..|actions| - 1])) &&
       Enabled(Run(maxBytes, actions[..|actions| - 1]), actions[|actions| - 1]))
  }

  function Run(maxBytes: nat, actions: seq<Action>): Store
    requires CanRun(maxBytes, actions)
    decreases |actions|, 1
  {
    if actions == [] then Initial(maxBytes) else Step(Run(maxBytes, actions[..|actions| - 1]), actions[|actions| - 1])
  }

  /** In every reachable state the list holds each mapped load once, one for each coverage, and the
      settled bytes fit. */
  lemma {:induction false} ReachableInv(maxBytes: nat, actions: seq<Action>)
    requires CanRun(maxBytes, actions)
    ensures Inv(Run(maxBytes, actions)) && InRange(Run(maxBytes, actions))
  {
    if actions != [] {
      ReachableInv(maxBytes, actions[..|actions| - 1]);
      StepKeeps(Run(maxBytes, actions[..|actions| - 1]), actions[|actions| - 1]);
    }
  }

  /** Single flight: in every reachable state at most one load of a coverage, among those started
      since the store was last cleared, is unfinished. */
  lemma SingleFlight(maxBytes: nat, actions: seq<Action>, a: nat, b: nat)
    requires CanRun(maxBytes, actions)
    requires var s := Run(maxBytes, actions);
             && s.since <= a < |s.loads| && s.since <= b < |s.loads|
             && s.loads[a].outcome.None? && s.loads[b].outcome.None?
             && s.loads[a].coverage == s.loads[b].coverage
    ensures a == b
  {
    ReachableInv(maxBytes, actions);
  }

  /** What no step changes about a load that exists. */
  predicate Keeps(before: Load, after: Load) {
    && after.coverage == before.coverage && after.generation == before.generation && after.volatile == before.volatile
    && (before.outcome.Some? ==> after.outcome == before.outcome && after.settledUnder == before.settledUnder)
    && (before.returned ==> after.returned)
  }

  /** Loads are only added, and an outcome once given is final: a ready channel closes once. */
  lemma LoadsAreFinal(s: Store, a: Action, id: nat)
    requires InRange(s) && Enabled(s, a) && id < |s.loads|
    ensures id < |Step(s, a).loads| && Keeps(s.loads[id], Step(s, a).loads[id])
  {
    hide Evicted, Find, Removed;
  }

  lemma {:induction false} LoadsAreFinalOverRuns(maxBytes: nat, actions: seq<Action>, more: seq<Action>, id: nat)
    requires CanRun(maxBytes, actions) && CanRun(maxBytes, actions + more)
    requires id < |Run(maxBytes, actions).loads|
    ensures id < |Run(maxBytes, actions + more).loads|
    ensures Keeps(Run(maxBytes, actions).loads[id], Run(maxBytes, actions + more).loads[id])
  {
    if more == [] {
      assert actions + more == actions;
    } else {
      var front := more[..|more| - 1];
      assert (actions + more)[..|actions + more| - 1] == actions + front;
      LoadsAreFinalOverRuns(maxBytes, actions, front, id);
      LoadsAreFinal(Run(maxBytes, actions + front), more[|more| - 1], id);
    }
  }

  /** Fencing: a caller that joins a load in generation g, however the run goes on, gets a value only
      if the load was started under g and settled while g was the generation of a store that was not
      stale. */
  lemma FencedValue(maxBytes: nat, actions: seq<Action>, generation: int, coverage: string, volatile: bool, more: seq<Action>)
    requires CanRun(maxBytes, actions + [DoAcquire(generation, coverage, volatile)] + more) && CanRun(maxBytes, actions)
    requires InRange(Run(maxBytes, actions)) && Acquire(Run(maxBytes, actions), generation, coverage, volatile).1.Join?
    ensures var id := Acquire(Run(maxBytes, actions), generation, coverage, volatile).1.id;
            var s := Run(maxBytes, actions + [DoAcquire(generation, coverage, volatile)] + more);
            && id < |s.loads| && s.loads[id].generation == generation && s.loads[id].coverage == coverage
            && (s.loads[id].outcome.Some? && s.loads[id].outcome.value.Value? ==> s.loads[id].settledUnder == Some(generation))
  {
    var a := DoAcquire(generation, coverage, volatile);
    ReachableInv(maxBytes, actions);
    ReachableInv(maxBytes, actions + [a] + more);
    var s := Run(maxBytes, actions);
    var (t, answer) := Acquire(s, generation, coverage, volatile);
    PrefixRuns(maxBytes, actions + [a], more);
    assert (actions + [a])[..|actions|] == actions;
    assert Run(maxBytes, actions + [a]) == t;
    JoinedLoad(s, generation, coverage, volatile);
    LoadsAreFinalOverRuns(maxBytes, actions + [a], more, answer.id);
  }

  lemma {:induction false} PrefixRuns(maxBytes: nat, actions: seq<Action>, more: seq<Action>)
    requires CanRun(maxBytes, actions + more)
    ensures CanRun(maxBytes, actions)
  {
    if more == [] {
      assert actions + more == actions;
    } else {
      assert (actions + more)[..|actions + more| - 1] == actions + more[..|more| - 1];
      PrefixRuns(maxBytes, actions, more[..|more| - 1]);
    }
  }

  /** What a request finds: its own new load, an unfinished load of its generation, or a retained
      value that fits.  A failed, oversize or volatile result is never found. */
  lemma JoinedLoad(s: Store, generation: int, coverage: string, volatile: bool)
    requires Inv(s) && InRange(s) && Acquire(s, generation, coverage, volatile).1.Join?
    ensures var (t, answer) := Acquire(s, generation, coverage, volatile);
            && answer.id < |t.loads| && t.loads[answer.id].generation == generation && t.loads[answer.id].coverage == coverage
            && t.order != [] && t.order[0] == answer.id
            && (t.loads[answer.id].outcome.Some? ==> Retained(t.loads[answer.id]) && Weight(t.loads[answer.id].outcome.value.detail) <= s.maxBytes)
  {
    var i := Find(s, coverage);
    if i < |s.order| {
      assert MappedOk(s, s.order[i]);
      TotalRemoved(s, s.order, i);
    }
  }

  /** A value is settled only while its generation is current and the store is not stale. */
  lemma SettlesCurrent(s: Store, id: nat, result: Outcome)
    requires Inv(s) && InRange(s) && id < |s.loads| && s.loads[id].outcome.None?
    ensures var l := Settle(s, id, result).loads[id];
            && l.outcome.Some?
            && (l.outcome.value.Value? <==> id in s.order && result.Value? && Weight(result.detail) <= s.maxBytes)
            && (l.outcome.value.Value? ==> !s.stale && l.generation == s.generation && s.since <= id && l.outcome == Some(result))
            && (id in s.order && result.Error? ==> l.outcome == Some(result))
            && (id in s.order && result.Value? && Weight(result.detail) > s.maxBytes ==> l.outcome == Some(Error(DetailLimit)))
            && (id !in s.order ==> l.outcome == Some(Error(Stale)))
  {
    if id in s.order {
      assert MappedOk(s, id);
    }
  }
}
