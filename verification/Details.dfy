/** metadata.detailStore: an intrusive doubly linked list of in-flight and retained details. */
module Details {
  import opened Wrappers
  import opened DetailModel
  import opened DetailEffects

  class DetailEntry {
    const coverage: string
    const volatile: bool
    /** The generation this entry's runner was started under. */
    const generation: int
    ghost const id: nat
    var ready: bool
    var value: Detail
    var err: Option<Failure>
    var size: nat
    var settled: bool
    var prev: DetailEntry?
    var next: DetailEntry?

    constructor (coverage: string, volatile: bool, generation: int, ghost id: nat)
      ensures this.coverage == coverage && this.volatile == volatile && this.generation == generation && this.id == id
      ensures EntryIs(this, Load(coverage, volatile, generation, None, 0, false, None, false))
    {
      this.coverage, this.volatile, this.generation, this.id := coverage, volatile, generation, id;
      ready, value, err, size, settled := false, Detail("", "", ""), None, 0, false;
      prev, next := null, null;
    }
  }

  /** `list` is the chain from `head` to `tail`. */
  ghost predicate Linked(list: seq<DetailEntry>, head: DetailEntry?, tail: DetailEntry?)
    reads (set x | x in list)`prev, (set x | x in list)`next
  {
    && (if list == [] then head == null && tail == null else head == list[0] && tail == list[|list| - 1])
    && (forall i {:trigger list[i].prev} | 0 <= i < |list| :: list[i].prev == if i == 0 then null else list[i - 1])
    && (forall i {:trigger list[i].next} | 0 <= i < |list| :: list[i].next == if i == |list| - 1 then null else list[i + 1])
  }

  /** The backward links alone keep an entry from being listed twice. */
  lemma {:induction false} LinkedOnce(list: seq<DetailEntry>, head: DetailEntry?, tail: DetailEntry?, i: nat, j: nat)
    requires Linked(list, head, tail) && i < j < |list|
    ensures list[i] != list[j]
  {
    if i == 0 {
      assert list[j].prev == list[j - 1] && list[i].prev == null;
    } else {
      LinkedOnce(list, head, tail, i - 1, j - 1);
      assert list[i].prev == list[i - 1] && list[j].prev == list[j - 1];
    }
  }

  lemma LinkedDistinct(list: seq<DetailEntry>, head: DetailEntry?, tail: DetailEntry?)
    requires Linked(list, head, tail)
    ensures Distinct(list)
  {
    forall i, j | 0 <= i < j < |list| ensures list[i] != list[j] {
      LinkedOnce(list, head, tail, i, j);
    }
  }

  /** What a waiter of a settled entry gets. */
  function OutcomeOf(e: DetailEntry): Option<Outcome>
    reads e`ready, e`value, e`err
  {
    if !e.ready then None else if e.err.Some? then Some(Error(e.err.value)) else Some(Value(e.value))
  }

  ghost predicate EntryIs(e: DetailEntry, l: Load)
    reads e`ready, e`value, e`err, e`size, e`settled
  {
    && e.coverage == l.coverage && e.volatile == l.volatile && e.generation == l.generation
    && OutcomeOf(e) == l.outcome && e.size == l.size && e.settled == l.settled
  }

  function Unreturned(loads: seq<Load>): nat {
    if loads == [] then 0 else Unreturned(loads[..|loads| - 1]) + if loads[|loads| - 1].returned then 0 else 1
  }

  lemma ReturnsOne(loads: seq<Load>, id: nat, l: Load)
    requires id < |loads| && !loads[id].returned && l.returned
    ensures Unreturned(loads) == Unreturned(loads[id := l]) + 1
  {
    var front := loads[..|loads| - 1];
    if id < |front| {
      ReturnsOne(front, id, l);
      assert loads[id := l][..|loads| - 1] == front[id := l];
    } else {
      assert loads[id := l][..|loads| - 1] == front;
    }
  }

  lemma {:induction false} NoneLeft(loads: seq<Load>)
    ensures Unreturned(loads) == 0 <==> forall id | 0 <= id < |loads| :: loads[id].returned
  {
    if loads != [] {
      var front := loads[..|loads| - 1];
      NoneLeft(front);
      assert forall id | 0 <= id < |loads| :: loads[id] == if id < |front| then front[id] else loads[|loads| - 1];
    }
  }

  lemma SameReturns(loads: seq<Load>, id: nat, l: Load)
    requires id < |loads| && loads[id].returned == l.returned
    ensures Unreturned(loads) == Unreturned(loads[id := l])
  {
    var front := loads[..|loads| - 1];
    if id < |front| {
      SameReturns(front, id, l);
      assert loads[id := l][..|loads| - 1] == front[id := l];
    } else {
      assert loads[id := l][..|loads| - 1] == front;
    }
  }

  lemma AnsweredCounts(s: Store, id: nat, err: Failure)
    requires id < |s.loads| && id !in s.order && !s.loads[id].settled
    ensures var l := Answered(s, id, Error(err));
            && l.coverage == s.loads[id].coverage && l.volatile == s.loads[id].volatile && l.generation == s.loads[id].generation
            && l.outcome == Some(Error(err)) && l.size == s.loads[id].size && !l.settled
            && Unreturned(s.loads[id := l]) == Unreturned(s.loads)
            && Total(s.(loads := s.loads[id := l]), s.order) == Total(s, s.order)
  {
    var l := Answered(s, id, Error(err));
    SameReturns(s.loads, id, l);
    TotalAgrees(s, s.(loads := s.loads[id := l]), s.order);
  }

  lemma DroppedCounts(s: Store, id: nat, outcome: Outcome)
    requires id < |s.loads| && id in s.order && !s.loads[id].settled && Distinct(s.order)
    ensures Unreturned(Dropped(s, id, outcome).loads) == Unreturned(s.loads)
    ensures Total(Dropped(s, id, outcome), Dropped(s, id, outcome).order) == Total(s, s.order)
  {
    SameReturns(s.loads, id, Answered(s, id, outcome));
    DroppedTotal(s, id, outcome);
  }

  lemma KeptCounts(s: Store, id: nat, d: Detail)
    requires id < |s.loads| && id in s.order && !s.loads[id].settled && Distinct(s.order)
    ensures var l := Kept(s, id, d).loads[id];
            && l.coverage == s.loads[id].coverage && l.volatile == s.loads[id].volatile && l.generation == s.loads[id].generation
            && l.outcome == Some(Value(d)) && l.size == Weight(d) && l.settled
    ensures Kept(s, id, d) == s.(loads := s.loads[id := Kept(s, id, d).loads[id]])
    ensures Unreturned(Kept(s, id, d).loads) == Unreturned(s.loads)
    ensures Total(Kept(s, id, d), s.order) == Total(s, s.order) + Weight(d)
  {
    SameReturns(s.loads, id, Kept(s, id, d).loads[id]);
    KeptTotal(s, id, d);
  }

  lemma EvictCounts(s: Store, i: nat)
    requires i < |s.order|
    ensures Total(s.(order := Removed(s.order, i)), Removed(s.order, i)) == Total(s, s.order) - SizeOf(s, s.order[i])
  {
    TotalRemoved(s, s.order, i);
    TotalAgrees(s, s.(order := Removed(s.order, i)), Removed(s.order, i));
  }

  lemma ReturnCounts(s: Store, id: nat)
    requires id < |s.loads| && !s.loads[id].returned
    ensures Unreturned(s.loads) == Unreturned(Return(s, id).loads) + 1
    ensures Total(Return(s, id), s.order) == Total(s, s.order)
  {
    var l := s.loads[id].(returned := true);
    ReturnsOne(s.loads, id, l);
    TotalAgrees(s, Return(s, id), s.order);
  }

  lemma AddedCounts(s: Store, l: Load)
    requires !l.returned && l.size == 0 && InRange(s)
    ensures Added(s, l).(order := [], loads := []) == s.(order := [], loads := [])
    ensures Added(s, l).order == [|s.loads|] + s.order && Added(s, l).loads == s.loads + [l]
    ensures Unreturned(Added(s, l).loads) == Unreturned(s.loads) + 1
    ensures Total(Added(s, l), Added(s, l).order) == Total(s, s.order)
  {
    var t := Added(s, l);
    assert t.loads[..|s.loads|] == s.loads;
    AddedTotal(s, l);
  }

  /** `list` is `order` with every load number replaced by its entry. */
  ghost predicate Named(list: seq<DetailEntry>, made: seq<DetailEntry>, order: seq<nat>) {
    |list| == |order| && forall i | 0 <= i < |list| :: order[i] < |made| && list[i] == made[order[i]]
  }

  ghost function Without(list: seq<DetailEntry>, i: nat): seq<DetailEntry>
    requires i < |list|
  {
    list[..i] + list[i + 1..]
  }

  lemma NamedRemoved(list: seq<DetailEntry>, made: seq<DetailEntry>, order: seq<nat>, i: nat)
    requires Named(list, made, order) && i < |list|
    requires Distinct(list)
    ensures Named(Without(list, i), made, Removed(order, i))
  {
    var r := Without(list, i);
    forall j | 0 <= j < |r| ensures r[j] == list[if j < i then j else j + 1] && Removed(order, i)[j] == order[if j < i then j else j + 1] { }
  }

  lemma WithoutPrefix(list: seq<DetailEntry>, i: nat)
    requires i < |list|
    ensures |Without(list, i)| == |list| - 1
    ensures forall j | 0 <= j < i :: Without(list, i)[j] == list[j]
    ensures forall e | e in Without(list, i) :: e in list
  {
  }

  lemma WithoutMembers(list: seq<DetailEntry>, i: nat)
    requires i < |list| && Distinct(list)
    ensures forall e :: e in Without(list, i) <==> e in list && e != list[i]
  {
    var r := Without(list, i);
    forall j | 0 <= j < |r| ensures r[j] == list[if j < i then j else j + 1] { }
    forall e | e in list && e != list[i] ensures e in r {
      var j :| 0 <= j < |list| && list[j] == e;
      assert r[if j < i then j else j - 1] == e;
    }
  }

  lemma NamedInRange(list: seq<DetailEntry>, made: seq<DetailEntry>, s: Store)
    requires Named(list, made, s.order) && |made| == |s.loads|
    ensures InRange(s)
  {
  }

  lemma NamedFront(list: seq<DetailEntry>, made: seq<DetailEntry>, order: seq<nat>, e: DetailEntry, id: nat)
    requires Named(list, made, order) && id < |made| && made[id] == e
    ensures Named([e] + list, made, [id] + order)
    ensures forall x :: x in [e] + list <==> x == e || x in list
  {
  }

  lemma TouchedList(list: seq<DetailEntry>, made: seq<DetailEntry>, order: seq<nat>, entries: map<string, DetailEntry>, head: DetailEntry?, tail: DetailEntry?, i: nat)
    requires Named(list, made, order) && Mapping(list, entries) && i < |list| && Linked(list, head, tail)
    ensures Named([list[i]] + Without(list, i), made, [order[i]] + Removed(order, i))
    ensures Mapping([list[i]] + Without(list, i), entries)
  {
    LinkedDistinct(list, head, tail);
    hide Linked;
    NamedRemoved(list, made, order, i);
    WithoutMembers(list, i);
    NamedFront(Without(list, i), made, Removed(order, i), list[i], order[i]);
    MappingSame(list, [list[i]] + Without(list, i), entries);
  }

  lemma UnmappedList(list: seq<DetailEntry>, entries: map<string, DetailEntry>, head: DetailEntry?, tail: DetailEntry?, i: nat)
    requires Linked(list, head, tail) && Mapping(list, entries) && i < |list|
    ensures Mapping(Without(list, i), entries - {list[i].coverage})
  {
    LinkedDistinct(list, head, tail);
    var rest, left := Without(list, i), entries - {list[i].coverage};
    WithoutMembers(list, i);
    forall j | 0 <= j < |rest| ensures rest[j].coverage in left && left[rest[j].coverage] == rest[j] {
      assert rest[j] in rest;
    }
  }

  lemma NamedWithout(list: seq<DetailEntry>, made: seq<DetailEntry>, order: seq<nat>, head: DetailEntry?, tail: DetailEntry?, i: nat)
    requires Named(list, made, order) && i < |list| && Linked(list, head, tail)
    ensures Named(Without(list, i), made, Removed(order, i))
  {
    LinkedDistinct(list, head, tail);
    NamedRemoved(list, made, order, i);
  }

  lemma MappingSame(list: seq<DetailEntry>, other: seq<DetailEntry>, entries: map<string, DetailEntry>)
    requires Mapping(list, entries) && forall x :: x in list <==> x in other
    ensures Mapping(other, entries)
  {
    forall i | 0 <= i < |other| ensures other[i].coverage in entries && entries[other[i].coverage] == other[i] {
      assert other[i] in list;
    }
  }

  lemma AddedList(list: seq<DetailEntry>, made: seq<DetailEntry>, order: seq<nat>, entries: map<string, DetailEntry>, e: DetailEntry)
    requires Named(list, made, order) && Mapping(list, entries) && e.coverage !in entries
    ensures Named([e] + list, made + [e], [|made|] + order)
    ensures Mapping([e] + list, entries[e.coverage := e]) && e !in list
  {
    NamedGrows(list, made, order, e);
    NamedFront(list, made + [e], order, e, |made|);
    hide Named;
    forall c | c in entries ensures entries[c] in [e] + list { }
  }

  lemma NamedGrows(list: seq<DetailEntry>, made: seq<DetailEntry>, order: seq<nat>, e: DetailEntry)
    requires Named(list, made, order)
    ensures Named(list, made + [e], order)
  {
  }

  /** The coverage map and the list hold the same entries. */
  ghost predicate Mapping(list: seq<DetailEntry>, entries: map<string, DetailEntry>) {
    && (forall i | 0 <= i < |list| :: list[i].coverage in entries && entries[list[i].coverage] == list[i])
    && (forall c | c in entries :: entries[c].coverage == c && entries[c] in list)
  }

  /** Every entry ever made holds what the model says of its load. */
  ghost predicate Describes(made: seq<DetailEntry>, loads: seq<Load>)
    reads (set e | e in made)`ready, (set e | e in made)`value, (set e | e in made)`err, (set e | e in made)`size, (set e | e in made)`settled
    requires |made| == |loads|
  {
    (made == [] ||
      var n := |made| - 1;
      Describes(made[..n], loads[..n]) && made[n].id == n && EntryIs(made[n], loads[n]))
  }

  lemma {:induction false} DescribesAt(made: seq<DetailEntry>, loads: seq<Load>, i: nat)
    requires |made| == |loads| && Describes(made, loads) && i < |made|
    ensures made[i].id == i && EntryIs(made[i], loads[i])
  {
    if i < |made| - 1 {
      DescribesAt(made[..|made| - 1], loads[..|made| - 1], i);
    }
  }

  lemma DescribesAdded(made: seq<DetailEntry>, loads: seq<Load>, e: DetailEntry, l: Load)
    requires |made| == |loads| && Describes(made, loads) && e.id == |made| && EntryIs(e, l)
    ensures Describes(made + [e], loads + [l])
  {
    assert (made + [e])[..|made|] == made && (loads + [l])[..|made|] == loads;
  }

  lemma {:induction false} DescribesChanged(made: seq<DetailEntry>, loads: seq<Load>, i: nat, l: Load)
    requires |made| == |loads| && Describes(made, loads) && i < |made| && EntryIs(made[i], l)
    ensures Describes(made, loads[i := l])
  {
    var n := |made| - 1;
    assert loads[i := l][..n] == if i < n then loads[..n][i := l] else loads[..n];
    if i < n {
      DescribesChanged(made[..n], loads[..n], i, l);
    } else {
      DescribesAt(made, loads, n);
    }
  }

  lemma {:induction false} DescribesAll(made: seq<DetailEntry>, loads: seq<Load>)
    requires |made| == |loads| && forall i | 0 <= i < |made| :: made[i].id == i && EntryIs(made[i], loads[i])
    ensures Describes(made, loads)
  {
    if made != [] {
      DescribesAll(made[..|made| - 1], loads[..|made| - 1]);
    }
  }

  /** Write an entry's result and wake its waiters. */
  method Publish(e: DetailEntry, value: Detail, err: Option<Failure>, size: nat, settled: bool,
                 ghost made: seq<DetailEntry>, ghost loads: seq<Load>, ghost id: nat, ghost l: Load)
    requires |made| == |loads| && Describes(made, loads) && id < |made| && made[id] == e
    requires l.coverage == loads[id].coverage && l.volatile == loads[id].volatile && l.generation == loads[id].generation
    requires l.outcome == Some(if err.Some? then Error(err.value) else Value(value)) && l.size == size && l.settled == settled
    modifies e`ready, e`value, e`err, e`size, e`settled
    ensures Describes(made, loads[id := l])
  {
    forall i | 0 <= i < |made| ensures made[i].id == i && EntryIs(made[i], loads[i]) {
      DescribesAt(made, loads, i);
    }
    hide Describes;
    e.value, e.err, e.size, e.settled, e.ready := value, err, size, settled, true;
    forall i | 0 <= i < |made| ensures EntryIs(made[i], loads[id := l][i]) {
      assert i != id ==> made[i] != e;
    }
    DescribesAll(made, loads[id := l]);
  }

  ghost predicate Counts(d: DetailStore)
    reads d
  {
    && d.model.maxBytes == d.maxBytes && d.model.generation == d.generation && d.model.stale == d.stale
    && d.totalBytes == Total(d.model, d.model.order)
    && d.active == Unreturned(d.model.loads) && d.drained == (d.active == 0)
  }

  class DetailStore {
    const maxBytes: nat
    var generation: int
    var stale: bool
    var entries: map<string, DetailEntry>
    var head: DetailEntry?
    var tail: DetailEntry?
    var totalBytes: int
    var active: nat
    var drained: bool
    /** The chain from head to tail, every entry ever made, and the store as a value. */
    ghost var list: seq<DetailEntry>
    ghost var made: seq<DetailEntry>
    ghost var model: Store

    /** The fields are those of the model. */
    ghost predicate Shape()
      reads this, made, list
    {
      && Linked(list, head, tail)
      && Named(list, made, model.order)
      && Mapping(list, entries)
      && |made| == |model.loads| && Describes(made, model.loads)
      && Counts(this)
    }

    /** The list enumerates the mapped entries once each in recency order, `totalBytes` is the sum of
        the settled sizes and at most `maxBytes`, and everything else the model keeps. */
    ghost predicate Valid()
      reads this, made, list
    {
      Shape() && Inv(model)
    }

    constructor (limit: int)
      ensures Valid() && model == Initial(if limit <= 0 then 0x400_0000 else limit)
    {
      var max := if limit <= 0 then 0x400_0000 else limit;
      maxBytes := max;
      generation, stale := 1, false;
      entries, head, tail, totalBytes := map[], null, null, 0;
      active, drained := 0, true;
      list, made, model := [], [], Initial(max);
    }

    method PushFront(e: DetailEntry)
      requires Linked(list, head, tail) && e !in list
      modifies this`head, this`tail, this`list, e`prev, e`next, (set x | x in list)`prev
      ensures list == [e] + old(list) && Linked(list, head, tail)
    {
      LinkedDistinct(list, head, tail);
      e.prev, e.next := null, head;
      if head != null {
        head.prev := e;
      }
      head := e;
      if tail == null {
        tail := e;
      }
      list := [e] + list;
    }

    method Remove(e: DetailEntry, ghost i: nat)
      requires Linked(list, head, tail) && i < |list| && list[i] == e
      modifies this`head, this`tail, this`list, (set x | x in list)`prev, (set x | x in list)`next
      ensures list == old(list[..i] + list[i + 1..]) && Linked(list, head, tail)
    {
      LinkedDistinct(list, head, tail);
      if e.prev != null {
        e.prev.next := e.next;
      } else if head == e {
        head := e.next;
      }
      if e.next != null {
        e.next.prev := e.prev;
      } else if tail == e {
        tail := e.prev;
      }
      e.prev, e.next := null, null;
      list := list[..i] + list[i + 1..];
    }

    method Touch(e: DetailEntry, ghost i: nat)
      requires Linked(list, head, tail) && i < |list| && list[i] == e
      modifies this`head, this`tail, this`list, (set x | x in list)`prev, (set x | x in list)`next
      ensures list == [e] + Without(old(list), i) && Linked(list, head, tail)
    {
      if head == e {
        LinkedDistinct(list, head, tail);
        assert list == [e] + (list[..i] + list[i + 1..]);
        return;
      }
      LinkedDistinct(list, head, tail);
      Remove(e, i);
      assert e !in list;
      PushFront(e);
    }

    /** clearLocked, with the change of generation that goes with it. */
    method Clear()
      modifies this`entries, this`head, this`tail, this`totalBytes, this`list
      ensures entries == map[] && head == null && tail == null && totalBytes == 0 && list == []
    {
      entries := map[];
      head, tail := null, null;
      totalBytes := 0;
      list := [];
    }

    method BeginGeneration(g: int)
      requires Valid()
      modifies this
      ensures Valid() && made == old(made) && model == DetailModel.BeginGeneration(old(model), g)
    {
      hide Describes, Inv, Unreturned;
      ClearedKeeps(model, g);
      generation := g;
      stale := false;
      Clear();
      model := DetailModel.BeginGeneration(model, g);
    }

    method MarkStale()
      requires Valid()
      modifies this
      ensures Valid() && made == old(made) && model == DetailModel.MarkStale(old(model))
    {
      hide Describes, Inv, Unreturned;
      ClearedKeeps(model, model.generation);
      stale := true;
      Clear();
      model := DetailModel.MarkStale(model);
    }

    method RunnerFinished(ghost id: nat)
      requires Valid() && id < |model.loads| && OutcomeOf(made[id]).Some? && !model.loads[id].returned
      modifies this`active, this`drained, this`model
      ensures Valid() && id < |old(model).loads| && model == Return(old(model), id)
      ensures model.loads[id].returned && (drained <==> forall i | 0 <= i < |model.loads| :: model.loads[i].returned)
    {
      hide Linked, Mapping, Named, Inv, Total, Unreturned;
      DescribesAt(made, model.loads, id);
      ReturnKeeps(model, id);
      DescribesChanged(made, model.loads, id, model.loads[id].(returned := true));
      ReturnCounts(model, id);
      active := active - 1;
      if active == 0 {
        drained := true;
      }
      model := Return(model, id);
      NoneLeft(model.loads);
    }

    method Unmap(e: DetailEntry, ghost i: nat)
      requires Linked(list, head, tail) && Mapping(list, entries) && i < |list| && list[i] == e
      modifies this`entries, this`head, this`tail, this`list, (set x | x in list)`prev, (set x | x in list)`next
      ensures Linked(list, head, tail) && Mapping(list, entries) && list == Without(old(list), i)
    {
      hide Linked, Mapping;
      UnmappedList(list, entries, head, tail, i);
      Remove(e, i);
      entries := entries - {e.coverage};
    }

    /** evictLocked: walk from the tail and drop settled entries until the rest fits. */
    method EvictLocked()
      requires Shape()
      modifies this`entries, this`head, this`tail, this`list, this`totalBytes, this`model, (set x | x in list)`prev, (set x | x in list)`next
      ensures Shape() && model == old(model).(order := Evicted(old(model), |old(model).order|))
    {
      hide Mapping, Describes, Total, Evicted, Removed, Without;
      var node := tail;
      ghost var n: nat := |list|;
      while totalBytes > maxBytes && node != null
        invariant Shape() && n <= |list| && node == if n == 0 then null else list[n - 1]
        invariant model == old(model).(order := model.order)
        invariant Evicted(model, n) == Evicted(old(model), |old(model).order|)
        invariant forall x | x in list :: x in old(list)
        decreases n
      {
        var prev := node.prev;
        EvictedStep(model, n);
        DescribesAt(made, model.loads, model.order[n - 1]);
        WithoutPrefix(list, n - 1);
        if node.settled {
          EvictNode(node, n - 1);
        }
        node, n := prev, n - 1;
      }
      EvictedDone(model, n);
    }

    method EvictNode(e: DetailEntry, ghost i: nat)
      requires Shape() && i < |list| && i < |model.order| && list[i] == e && e.settled
      modifies this`entries, this`head, this`tail, this`list, this`totalBytes, this`model, (set x | x in list)`prev, (set x | x in list)`next
      ensures Shape() && list == Without(old(list), i)
      ensures model == old(model).(order := Removed(old(model).order, i))
    {
      hide Linked, Mapping, Describes, Total, Removed, Without, Unreturned;
      ghost var order := model.order;
      DescribesAt(made, model.loads, order[i]);
      NamedWithout(list, made, order, head, tail, i);
      EvictCounts(model, i);
      Unmap(e, i);
      totalBytes := totalBytes - e.size;
      model := model.(order := Removed(order, i));
    }

    /** settle: publish a finished load, under the generation its runner was started with. */
    method Settle(e: DetailEntry, value: Detail, loadErr: Option<Failure>, ghost id: nat)
      requires Valid() && id < |model.loads| && made[id] == e && model.loads[id].outcome.None?
      modifies this`entries, this`head, this`tail, this`list, this`totalBytes, this`model
      modifies (set x | x in list)`prev, (set x | x in list)`next, e`ready, e`value, e`err, e`size, e`settled
      ensures Valid()
      ensures model == DetailModel.Settle(old(model), id, if loadErr.Some? then Error(loadErr.value) else Value(value))
      ensures id in old(model).order && loadErr.None? && !e.volatile && Weight(value) <= maxBytes && old(totalBytes) + Weight(value) <= maxBytes ==>
                model.order == old(model).order && e.coverage in entries && entries[e.coverage] == e && e.settled && e.value == value
    {
      hide Linked, Named, Mapping, Describes, Total, Evicted, Dropped, Kept, Inv, Unreturned;
      MappedExactly(e, id);
      SettleKeeps(model, id, if loadErr.Some? then Error(loadErr.value) else Value(value));
      if id in model.order && !e.volatile && Weight(value) <= maxBytes {
        InvRange(model);
        ValueIsCached(model, id, value);
      }
      if !(e.coverage in entries && entries[e.coverage] == e && !stale && e.generation == generation) {
        if e.coverage in entries && entries[e.coverage] == e {
          Drop(e, e.value, Some(Stale), id);
        } else {
          Answer(e, e.value, Stale, id);
        }
      } else if loadErr.Some? {
        Drop(e, e.value, loadErr, id);
      } else if Weight(value) > maxBytes {
        Drop(e, e.value, Some(DetailLimit), id);
      } else if e.volatile {
        Drop(e, value, None, id);
      } else {
        Retain(e, value, id);
        EvictLocked();
      }
      IsMapped(e, id);
    }

    /** A mapped load's entry is found by its coverage, with what the load says. */
    lemma IsMapped(e: DetailEntry, id: nat)
      requires Valid() && id < |model.loads| && made[id] == e
      ensures id in model.order ==> e.coverage in entries && entries[e.coverage] == e
      ensures e.settled == model.loads[id].settled
      ensures model.loads[id].outcome.Some? && model.loads[id].outcome.value.Value? ==> e.value == model.loads[id].outcome.value.detail
    {
      MappedExactly(e, id);
      DescribesAt(made, model.loads, id);
    }

    /** Give an unmapped entry's waiters their answer. */
    method Answer(e: DetailEntry, value: Detail, err: Failure, ghost id: nat)
      requires Shape() && id < |model.loads| && made[id] == e && id !in model.order && !model.loads[id].settled
      modifies this`model, e`ready, e`value, e`err, e`size, e`settled
      ensures Shape()
      ensures model == old(model).(loads := old(model).loads[id := Answered(old(model), id, Error(err))])
    {
      hide Linked, Mapping, Describes, Total, Unreturned, Answered;
      ghost var l := Answered(model, id, Error(err));
      AnsweredCounts(model, id, err);
      DescribesAt(made, model.loads, id);
      Publish(e, value, Some(err), e.size, false, made, model.loads, id, l);
      model := model.(loads := model.loads[id := l]);
    }

    /** Unmap an entry that will not be found again, and give its waiters their answer. */
    method Drop(e: DetailEntry, value: Detail, err: Option<Failure>, ghost id: nat)
      requires Shape() && id < |model.loads| && made[id] == e && id in model.order && !model.loads[id].settled && Distinct(model.order)
      modifies this`entries, this`head, this`tail, this`list, this`model
      modifies (set x | x in list)`prev, (set x | x in list)`next, e`ready, e`value, e`err, e`size, e`settled
      ensures Shape()
      ensures model == Dropped(old(model), id, if err.Some? then Error(err.value) else Value(value))
    {
      hide Linked, Mapping, Describes, Total, Unreturned, Removed, Without;
      ghost var outcome := if err.Some? then Error(err.value) else Value(value);
      ghost var i := IndexOf(model.order, id);
      DroppedCounts(model, id, outcome);
      DescribesAt(made, model.loads, id);
      NamedWithout(list, made, model.order, head, tail, i);
      Unmap(e, i);
      Publish(e, value, err, e.size, false, made, model.loads, id, Answered(model, id, outcome));
      model := Dropped(model, id, outcome);
    }

    /** Keep a value. */
    method Retain(e: DetailEntry, value: Detail, ghost id: nat)
      requires Shape() && id < |model.loads| && made[id] == e && id in model.order && !model.loads[id].settled && Distinct(model.order)
      modifies this`totalBytes, this`model, e`ready, e`value, e`err, e`size, e`settled
      ensures Shape()
      ensures model == Kept(old(model), id, value)
    {
      hide Linked, Mapping, Describes, Total, Unreturned, Answered;
      KeptCounts(model, id, value);
      Publish(e, value, None, Weight(value), true, made, model.loads, id, Kept(model, id, value).loads[id]);
      totalBytes := totalBytes + Weight(value);
      model := Kept(model, id, value);
    }

    /** The coverage map finds an entry exactly when its load is in the model's order. */
    lemma MappedExactly(e: DetailEntry, id: nat)
      requires Valid() && id < |model.loads| && made[id] == e
      ensures e.coverage in entries && entries[e.coverage] == e <==> id in model.order
      ensures e.coverage == model.loads[id].coverage && e.generation == model.loads[id].generation
      ensures e.volatile == model.loads[id].volatile
      ensures !model.loads[id].outcome.Some? ==> !model.loads[id].settled
      ensures Distinct(model.order)
    {
      DescribesAt(made, model.loads, id);
      if id in model.order {
        var i :| 0 <= i < |model.order| && model.order[i] == id;
        assert list[i] == e;
      }
      if e.coverage in entries && entries[e.coverage] == e {
        var i :| 0 <= i < |list| && list[i] == e;
        DescribesAt(made, model.loads, model.order[i]);
      }
    }

    /** The first critical section of acquire: refuse, join the mapped entry, or map a new one and
        start its runner. */
    method Acquire(g: int, coverage: string, volatile: bool) returns (entry: DetailEntry?, started: bool)
      requires Valid()
      modifies this, (set x | x in list)`prev, (set x | x in list)`next
      ensures Valid() && InRange(old(model))
      ensures model == DetailModel.Acquire(old(model), g, coverage, volatile).0
      ensures var answer := DetailModel.Acquire(old(model), g, coverage, volatile).1;
              if answer.Refused? then entry == null else answer.id < |made| && entry == made[answer.id]
      ensures started <==> |made| == |old(made)| + 1
      ensures old(made) <= made
    {
      hide Linked, Mapping, Named, Describes, Inv, Total, Unreturned;
      InvRange(model);
      AcquireKeeps(model, g, coverage, volatile);
      if stale || g != generation {
        return null, false;
      }
      if coverage in entries {
        JoinMapped(coverage);
        entry := JoinEntry(coverage, Find(model, coverage));
        return entry, false;
      }
      MissMapped(coverage);
      entry := new DetailEntry(coverage, volatile, generation, |made|);
      StartEntry(entry, Load(coverage, volatile, generation, None, 0, false, None, false));
      return entry, true;
    }

    /** The mapped entry becomes the most recently used. */
    method JoinEntry(coverage: string, ghost i: nat) returns (entry: DetailEntry)
      requires Shape() && coverage in entries && i < |list| && i < |model.order| && list[i] == entries[coverage]
      modifies this`head, this`tail, this`list, this`model, (set x | x in list)`prev, (set x | x in list)`next
      ensures Shape() && model == Touched(old(model), i) && entry == old(list[i])
    {
      hide Linked, Mapping, Describes, Total, Named, Without, Removed;
      entry := entries[coverage];
      TouchedTotal(model, i);
      TouchedList(list, made, model.order, entries, head, tail, i);
      Touch(entry, i);
      model := Touched(model, i);
    }

    /** A new entry is mapped before its load starts. */
    method StartEntry(e: DetailEntry, ghost l: Load)
      requires Shape() && e.coverage !in entries && e.id == |made| && EntryIs(e, l) && !l.returned && l.size == 0
      modifies this`entries, this`active, this`drained, this`head, this`tail, this`list, this`made, this`model
      modifies e`prev, e`next, (set x | x in list)`prev
      ensures Shape() && made == old(made) + [e] && model == Added(old(model), l)
    {
      hide Linked, Mapping, Total, Named, Describes, Unreturned, EntryIs, Added;
      NamedInRange(list, made, model);
      AddedCounts(model, l);
      AddedList(list, made, model.order, entries, e);
      DescribesAdded(made, model.loads, e, l);
      Launch(e);
      made, model := made + [e], Added(model, l);
    }

    /** Map an entry and count its runner. */
    method Launch(e: DetailEntry)
      requires Linked(list, head, tail) && e !in list && drained == (active == 0)
      modifies this`entries, this`active, this`drained, this`head, this`tail, this`list, e`prev, e`next, (set x | x in list)`prev
      ensures list == [e] + old(list) && Linked(list, head, tail)
      ensures entries == old(entries)[e.coverage := e] && active == old(active) + 1 && !drained
    {
      hide Linked;
      entries := entries[e.coverage := e];
      PushFront(e);
      if active == 0 {
        drained := false;
      }
      active := active + 1;
    }

    /** A mapped coverage is the one that the model finds. */
    lemma JoinMapped(coverage: string)
      requires Shape() && coverage in entries
      ensures Find(model, coverage) < |list| && Find(model, coverage) < |model.order| && list[Find(model, coverage)] == entries[coverage]
      ensures made[model.order[Find(model, coverage)]] == entries[coverage]
    {
      var e := entries[coverage];
      var i :| 0 <= i < |list| && list[i] == e;
      DescribesAt(made, model.loads, model.order[i]);
      var j := Find(model, coverage);
      assert j <= i;
      DescribesAt(made, model.loads, model.order[j]);
      assert list[j].coverage == coverage;
    }

    lemma MissMapped(coverage: string)
      requires Shape() && coverage !in entries
      ensures Find(model, coverage) == |model.order|
    {
      var j := Find(model, coverage);
      forall i | 0 <= i < |list| ensures model.loads[model.order[i]].coverage != coverage {
        DescribesAt(made, model.loads, model.order[i]);
        assert list[i] in list;
      }
    }
  }
}
