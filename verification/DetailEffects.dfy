/** What a caller sees of the detail store: which steps keep a load, which forget it, and what the next
    request finds. */
module DetailEffects {
  import opened Wrappers
  import opened DetailModel

  /** Some mapped load is of this coverage. */
  predicate Holds(s: Store, id: nat, coverage: string) {
    id in s.order && id < |s.loads| && s.loads[id].coverage == coverage
  }

  lemma FindIs(s: Store, id: nat, coverage: string)
    requires Inv(s) && InRange(s) && Holds(s, id, coverage)
    ensures Find(s, coverage) < |s.order| && s.order[Find(s, coverage)] == id
  {
    var j :| 0 <= j < |s.order| && s.order[j] == id;
    assert s.order[Find(s, coverage)] in s.order;
  }

  /** A request is refused by a stale store and under another generation, and then changes nothing.  Else
      it joins the mapped load of its coverage, which moves to the front of the others, and starts none;
      or, if there is none, it starts one load, at the front. */
  lemma AcquireEffect(s: Store, g: int, coverage: string, volatile: bool)
    requires Inv(s) && InRange(s)
    ensures var (t, answer) := Acquire(s, g, coverage, volatile);
            && t == Step(s, DoAcquire(g, coverage, volatile))
            && (answer.Refused? <==> s.stale || g != s.generation)
            && (answer.Refused? ==> t == s)
            && (answer.Join? ==> t == s.(order := t.order, loads := t.loads))
    ensures var (t, answer) := Acquire(s, g, coverage, volatile);
            forall id: nat | answer.Join? && Holds(s, id, coverage) ::
              answer == Join(id) && t.loads == s.loads && MovedToFront(s.order, id, t.order)
    ensures var (t, answer) := Acquire(s, g, coverage, volatile);
            answer.Join? && (forall id: nat :: !Holds(s, id, coverage)) ==>
              && answer == Join(|s.loads|) && t.order == [|s.loads|] + s.order
              && |t.loads| == |s.loads| + 1 && t.loads[..|s.loads|] == s.loads
              && Started(t.loads[|s.loads|], g, coverage, volatile)
  {
    var (t, answer) := Acquire(s, g, coverage, volatile);
    forall id: nat | answer.Join? && Holds(s, id, coverage)
      ensures answer == Join(id) && t.loads == s.loads && MovedToFront(s.order, id, t.order)
    {
      FindIs(s, id, coverage);
      var i := Find(s, coverage);
      assert t.order == [id] + (s.order[..i] + s.order[i + 1..]);
    }
    if answer.Join? && Find(s, coverage) < |s.order| {
      assert Holds(s, s.order[Find(s, coverage)], coverage);
    }
  }

  ghost predicate MovedToFront(order: seq<nat>, id: nat, next: seq<nat>) {
    exists i | 0 <= i < |order| :: order[i] == id && next == [id] + (order[..i] + order[i + 1..])
  }

  /** A load that has just been started. */
  predicate Started(l: Load, g: int, coverage: string, volatile: bool) {
    l.coverage == coverage && l.volatile == volatile && l.generation == g && l.outcome.None? && !l.settled && !l.returned
  }

  /** Nothing but this load changes. */
  predicate OnlyLoad(s: Store, t: Store, id: nat) {
    && t == s.(order := t.order, loads := t.loads) && |t.loads| == |s.loads|
    && forall x | 0 <= x < |s.loads| && x != id :: t.loads[x] == s.loads[x]
  }

  /** A mapped, non-volatile value that fits by itself is cached.  The list keeps the longest prefix whose
      settled entries fit, and behind it every load in flight.  If everything fits, no entry moves, and the
      next request of the coverage joins this very load and starts none. */
  lemma ValueIsCached(s: Store, id: nat, d: Detail)
    requires Inv(s) && InRange(s) && Enabled(s, DoSettle(id, Value(d)))
    requires id in s.order && !s.loads[id].volatile && Weight(d) <= s.maxBytes
    ensures var t := Step(s, DoSettle(id, Value(d)));
            && OnlyLoad(s, t, id) && t.loads[id].settled && t.loads[id].outcome == Some(Value(d)) && t.loads[id].size == |d.text + d.provenance + d.body|
            && t.order == s.order[..Cut(t, s.order)] + Unsettled(t, s.order[Cut(t, s.order)..])
    ensures var t := Step(s, DoSettle(id, Value(d)));
            Total(s, s.order) + Weight(d) <= s.maxBytes ==> t.order == s.order && (forall v :: Cached(t, id, v))
  {
    hide Evicted, Unsettled;
    var kept, t := Kept(s, id, d), Step(s, DoSettle(id, Value(d)));
    assert MappedOk(s, id);
    EvictionIsShortestTail(kept);
    SameCut(kept, t, s.order);
    SameStore(kept, t, s.order[Cut(t, s.order)..]);
    KeptTotal(s, id, d);
    if Total(s, s.order) + Weight(d) <= s.maxBytes {
      assert Cut(kept, s.order) == |s.order|;
      EvictedDone(kept, |s.order|);
      StepKeeps(s, DoSettle(id, Value(d)));
      assert Holds(t, id, t.loads[id].coverage);
      FindIs(t, id, t.loads[id].coverage);
    }
  }

  /** A request of this load's coverage, under the generation of the store, joins it. */
  predicate Cached(s: Store, id: nat, volatile: bool) {
    InRange(s) && id < |s.loads| && !s.stale &&
    var (t, answer) := Acquire(s, s.generation, s.loads[id].coverage, volatile); answer == Join(id) && t.loads == s.loads
  }

  /** Any other result of a mapped load is forgotten: the entry alone leaves the list, and the next request
      of the coverage starts a new load. */
  lemma OthersAreForgotten(s: Store, id: nat, result: Outcome)
    requires Inv(s) && InRange(s) && Enabled(s, DoSettle(id, result)) && id in s.order
    requires result.Error? || Weight(result.detail) > s.maxBytes || s.loads[id].volatile
    ensures var t := Step(s, DoSettle(id, result));
            && OnlyLoad(s, t, id) && !t.loads[id].settled && Left(s.order, id, t.order)
            && InRange(t) && (forall v :: Acquire(t, t.generation, s.loads[id].coverage, v).1 == Join(|t.loads|))
    ensures result.Value? && Weight(result.detail) <= s.maxBytes ==> Step(s, DoSettle(id, result)).loads[id].outcome == Some(result)
  {
    hide Evicted, Find, Removed, Total, LoadsInv, IndexOf;
    var t := Step(s, DoSettle(id, result));
    assert MappedOk(s, id);
    var answer := if result.Value? && Weight(result.detail) > s.maxBytes then Error(DetailLimit) else result;
    assert t == Dropped(s, id, answer);
    DroppedIs(s, id, answer);
    StepKeeps(s, DoSettle(id, result));
    forall x | x in t.order ensures t.loads[x].coverage != s.loads[id].coverage { assert MappedOk(s, x) && x != id; }
    NextStarts(t, s.loads[id].coverage);
  }

  lemma DroppedIs(s: Store, id: nat, outcome: Outcome)
    requires Distinct(s.order) && id in s.order && id < |s.loads|
    ensures var t := Dropped(s, id, outcome);
            && OnlyLoad(s, t, id) && t.loads[id].settled == s.loads[id].settled && t.loads[id].outcome == Some(outcome)
            && Left(s.order, id, t.order) && forall x :: x in t.order <==> x in s.order && x != id
  {
    var i := IndexOf(s.order, id);
    RemovedMembers(s.order, i);
    assert Dropped(s, id, outcome).order == s.order[..i] + s.order[i + 1..];
  }

  lemma NextStarts(t: Store, coverage: string)
    requires ListInv(t) && !t.stale && InRange(t) && forall x | x in t.order :: t.loads[x].coverage != coverage
    ensures forall v :: Acquire(t, t.generation, coverage, v).1 == Join(|t.loads|)
  {
    hide ListInv;
    assert forall i | 0 <= i < |t.order| :: t.order[i] in t.order;
  }

  ghost predicate Left(order: seq<nat>, id: nat, next: seq<nat>) {
    exists i | 0 <= i < |order| :: order[i] == id && next == order[..i] + order[i + 1..]
  }

  /** A result that comes after its load was forgotten changes no list and is answered as stale. */
  lemma LateIsStale(s: Store, id: nat, result: Outcome)
    requires Inv(s) && InRange(s) && Enabled(s, DoSettle(id, result)) && id !in s.order
    ensures var t := Step(s, DoSettle(id, result));
            OnlyLoad(s, t, id) && t.order == s.order && t.loads[id].outcome == Some(Error(Stale)) && !t.loads[id].settled
  {
  }

  /** A new generation forgets every load and takes requests again, each of which starts a new load; a stale
      store forgets them too and refuses all requests until then, however the run goes on. */
  lemma ClearingEffect(s: Store, g: int, coverage: string, volatile: bool)
    requires Inv(s) && InRange(s)
    ensures var t := Step(s, DoBegin(g));
            t.loads == s.loads && t.order == [] && Acquire(t, g, coverage, volatile).1 == Join(|s.loads|)
    ensures var t := Step(s, DoMarkStale);
            t.loads == s.loads && t.order == [] && t.generation == s.generation && Acquire(t, g, coverage, volatile).1 == Refused
  {
  }

  /** A finished load's runner returns, which nothing else notices. */
  lemma ReturnEffect(s: Store, id: nat)
    requires Inv(s) && InRange(s) && Enabled(s, DoReturn(id))
    ensures var t := Step(s, DoReturn(id));
            OnlyLoad(s, t, id) && t.order == s.order && t.loads[id] == s.loads[id].(returned := true) && !Enabled(t, DoReturn(id))
  {
  }

  lemma {:induction false} StaleRefuses(maxBytes: nat, actions: seq<Action>, more: seq<Action>, g: int, coverage: string, volatile: bool)
    requires CanRun(maxBytes, actions + [DoMarkStale] + more)
    requires forall a | a in more :: !a.DoBegin?
    ensures var s := Run(maxBytes, actions + [DoMarkStale] + more);
            s.stale && InRange(s) && Acquire(s, g, coverage, volatile) == (s, Refused)
  {
    hide Evicted, Find, Removed;
    var all := actions + [DoMarkStale] + more;
    ReachableInv(maxBytes, all);
    if more == [] {
      assert all[..|all| - 1] == actions;
    } else {
      var front := more[..|more| - 1];
      assert all[..|all| - 1] == actions + [DoMarkStale] + front;
      StaleRefuses(maxBytes, actions, front, g, coverage, volatile);
      StaleStays(Run(maxBytes, actions + [DoMarkStale] + front), more[|more| - 1]);
    }
  }

  lemma StaleStays(s: Store, a: Action)
    requires InRange(s) && Enabled(s, a) && s.stale && !a.DoBegin?
    ensures Step(s, a).stale
  {
    hide Evicted, Find, Removed;
  }
}
