/** Store and host permits with their wakers.  A semaphore is a counter, a waker an epoch number.

    Every native call, a category job or a detail load, goes through the life of one ticket: it takes
    a store permit and then a host permit, and gives both back, waking the waiters of each after it. */
module Permits {

  /** How far a ticket is.  HostFreed and StoreFreed are released and not yet broadcast. */
  datatype Stage = StoreTaken | Both | HostFreed | HostTold | StoreFreed | Closed

  /** `here` says that the ticket is of the store in question; all tickets are of one host. */
  datatype Ticket = Ticket(here: bool, stage: Stage)

  datatype Permits = Permits(storeCap: nat, hostCap: nat, storeUsed: int, hostUsed: int,
                             storeEpoch: nat, hostEpoch: nat, tickets: map<nat, Ticket>)

  datatype Op =
    | TakeStore(id: nat, here: bool) | TakeHost(id: nat) | GiveBack(id: nat)
    | FreeHost(id: nat) | TellHost(id: nat) | FreeStore(id: nat) | TellStore(id: nat)

  predicate At(p: Permits, id: nat, stage: Stage) {
    id in p.tickets && p.tickets[id].stage == stage
  }

  predicate Possible(p: Permits, op: Op) {
    match op
    case TakeStore(id, here) => id !in p.tickets && (here ==> p.storeUsed < p.storeCap)
    case TakeHost(id) => At(p, id, StoreTaken) && p.hostUsed < p.hostCap
    case GiveBack(id) => At(p, id, StoreTaken)
    case FreeHost(id) => At(p, id, Both)
    case TellHost(id) => At(p, id, HostFreed)
    case FreeStore(id) => At(p, id, HostTold)
    case TellStore(id) => At(p, id, StoreFreed)
  }

  function Moved(p: Permits, id: nat, stage: Stage): map<nat, Ticket>
    requires id in p.tickets
  {
    p.tickets[id := p.tickets[id].(stage := stage)]
  }

  function HereOne(p: Permits, id: nat): nat
    requires id in p.tickets
  {
    if p.tickets[id].here then 1 else 0
  }

  function Perform(p: Permits, op: Op): Permits
    requires Possible(p, op)
  {
    match op
    case TakeStore(id, here) => p.(tickets := p.tickets[id := Ticket(here, StoreTaken)], storeUsed := p.storeUsed + if here then 1 else 0)
    case TakeHost(id) => p.(tickets := Moved(p, id, Both), hostUsed := p.hostUsed + 1)
    case GiveBack(id) => p.(tickets := Moved(p, id, StoreFreed), storeUsed := p.storeUsed - HereOne(p, id))
    case FreeHost(id) => p.(tickets := Moved(p, id, HostFreed), hostUsed := p.hostUsed - 1)
    case TellHost(id) => p.(tickets := Moved(p, id, HostTold), hostEpoch := p.hostEpoch + 1)
    case FreeStore(id) => p.(tickets := Moved(p, id, StoreFreed), storeUsed := p.storeUsed - HereOne(p, id))
    case TellStore(id) => p.(tickets := Moved(p, id, Closed), storeEpoch := p.storeEpoch + HereOne(p, id))
  }

  // ----- who holds what

  predicate HoldsStore(t: Ticket) {
    t.here && (t.stage == StoreTaken || t.stage == Both || t.stage == HostFreed || t.stage == HostTold)
  }

  predicate OwesStore(t: Ticket) {
    t.here && t.stage == StoreFreed
  }

  function StoreHolders(p: Permits): set<nat> {
    set id | id in p.tickets && HoldsStore(p.tickets[id])
  }

  /** Tickets whose store release has not been broadcast yet. */
  function StoreUntold(p: Permits): set<nat> {
    set id | id in p.tickets && OwesStore(p.tickets[id])
  }

  function HostHolders(p: Permits): set<nat> {
    set id | id in p.tickets && p.tickets[id].stage == Both
  }

  function HostUntold(p: Permits): set<nat> {
    set id | id in p.tickets && p.tickets[id].stage == HostFreed
  }

  /** Used permits and releases not yet broadcast. */
  function StoreFill(p: Permits): int {
    p.storeUsed + |StoreUntold(p)|
  }

  function HostFill(p: Permits): int {
    p.hostUsed + |HostUntold(p)|
  }

  /** No permit leaks: a semaphore counts exactly the tickets that hold it, within its capacity. */
  ghost predicate Conserved(p: Permits) {
    && p.storeUsed == |StoreHolders(p)| <= p.storeCap
    && p.hostUsed == |HostHolders(p)| <= p.hostCap
  }

  lemma ToggleMember(a: set<nat>, b: set<nat>, id: nat, now: bool)
    requires b == if now then a + {id} else a - {id}
    ensures |b| == |a| + (if now then 1 else 0) - (if id in a then 1 else 0)
  {
  }

  lemma MoveStore(p: Permits, id: nat, stage: Stage)
    requires id in p.tickets
    ensures var q, t := p.(tickets := Moved(p, id, stage)), p.tickets[id].(stage := stage);
            && |StoreHolders(q)| == |StoreHolders(p)| + (if HoldsStore(t) then 1 else 0) - (if HoldsStore(p.tickets[id]) then 1 else 0)
            && |StoreUntold(q)| == |StoreUntold(p)| + (if OwesStore(t) then 1 else 0) - (if OwesStore(p.tickets[id]) then 1 else 0)
  {
    hide HoldsStore, OwesStore;
    var q, t := p.(tickets := Moved(p, id, stage)), p.tickets[id].(stage := stage);
    assert StoreHolders(q) == if HoldsStore(t) then StoreHolders(p) + {id} else StoreHolders(p) - {id};
    assert StoreUntold(q) == if OwesStore(t) then StoreUntold(p) + {id} else StoreUntold(p) - {id};
    ToggleMember(StoreHolders(p), StoreHolders(q), id, HoldsStore(t));
    ToggleMember(StoreUntold(p), StoreUntold(q), id, OwesStore(t));
  }

  lemma MoveHostHolders(p: Permits, id: nat, stage: Stage)
    requires id in p.tickets
    ensures var q, before := p.(tickets := Moved(p, id, stage)), p.tickets[id].stage;
            |HostHolders(q)| == |HostHolders(p)| + (if stage == Both then 1 else 0) - (if before == Both then 1 else 0)
  {
    var q := p.(tickets := Moved(p, id, stage));
    ToggleMember(HostHolders(p), HostHolders(q), id, stage == Both);
  }

  lemma MoveHostUntold(p: Permits, id: nat, stage: Stage)
    requires id in p.tickets
    ensures var q, before := p.(tickets := Moved(p, id, stage)), p.tickets[id].stage;
            |HostUntold(q)| == |HostUntold(p)| + (if stage == HostFreed then 1 else 0) - (if before == HostFreed then 1 else 0)
  {
    var q := p.(tickets := Moved(p, id, stage));
    ToggleMember(HostUntold(p), HostUntold(q), id, stage == HostFreed);
  }

  lemma MoveHost(p: Permits, id: nat, stage: Stage)
    requires id in p.tickets
    ensures var q, before := p.(tickets := Moved(p, id, stage)), p.tickets[id].stage;
            && |HostHolders(q)| == |HostHolders(p)| + (if stage == Both then 1 else 0) - (if before == Both then 1 else 0)
            && |HostUntold(q)| == |HostUntold(p)| + (if stage == HostFreed then 1 else 0) - (if before == HostFreed then 1 else 0)
  {
    hide HostHolders, HostUntold, Moved;
    MoveHostHolders(p, id, stage);
    MoveHostUntold(p, id, stage);
  }

  lemma NewTicket(p: Permits, id: nat, here: bool)
    requires id !in p.tickets
    ensures var q := p.(tickets := p.tickets[id := Ticket(here, StoreTaken)]);
            && |StoreHolders(q)| == |StoreHolders(p)| + (if here then 1 else 0) && StoreUntold(q) == StoreUntold(p)
            && HostHolders(q) == HostHolders(p) && HostUntold(q) == HostUntold(p)
  {
    var q := p.(tickets := p.tickets[id := Ticket(here, StoreTaken)]);
    assert StoreHolders(q) == if here then StoreHolders(p) + {id} else StoreHolders(p);
  }

  lemma SameTickets(p: Permits, q: Permits)
    requires p.tickets == q.tickets
    ensures StoreHolders(p) == StoreHolders(q) && StoreUntold(p) == StoreUntold(q)
    ensures HostHolders(p) == HostHolders(q) && HostUntold(p) == HostUntold(q)
  {
  }

  /** Every step keeps the counters exact, and used permits plus untold releases only go down with a
      broadcast: a store or host that was full stays accounted for until its waiters are woken. */
  lemma StepConserves(p: Permits, op: Op)
    requires Conserved(p) && Possible(p, op)
    ensures Conserved(Perform(p, op))
    ensures p.storeEpoch <= Perform(p, op).storeEpoch && p.hostEpoch <= Perform(p, op).hostEpoch
    ensures Perform(p, op).storeEpoch == p.storeEpoch ==> StoreFill(p) <= StoreFill(Perform(p, op))
    ensures Perform(p, op).hostEpoch == p.hostEpoch ==> HostFill(p) <= HostFill(Perform(p, op))
  {
    var id, q := op.id, Perform(p, op);
    if op.TakeStore? {
      NewTicket(p, id, op.here);
      SameTickets(p.(tickets := q.tickets), q);
    } else {
      var stage := q.tickets[id].stage;
      MoveStore(p, id, stage);
      MoveHost(p, id, stage);
      SameTickets(p.(tickets := Moved(p, id, stage)), q);
    }
  }

  /** A ticket only moves forward, so each of its permits is given back once. */
  function Rank(stage: Stage): nat {
    match stage
    case StoreTaken => 0
    case Both => 1
    case HostFreed => 2
    case HostTold => 3
    case StoreFreed => 4
    case Closed => 5
  }

  // ----- runs

  predicate PossibleRun(p: Permits, ops: seq<Op>)
    decreases |ops|
  {
    ops == [] || (Possible(p, ops[0]) && PossibleRun(Perform(p, ops[0]), ops[1..]))
  }

  function PerformAll(p: Permits, ops: seq<Op>): Permits
    requires PossibleRun(p, ops)
    decreases |ops|
  {
    if ops == [] then p else PerformAll(Perform(p, ops[0]), ops[1..])
  }

  /** No lost wake: whoever found a store or host full and has seen no broadcast since may rely on it
      that used permits and releases not yet broadcast still fill it. */
  lemma {:induction false} NoLostWake(p: Permits, ops: seq<Op>)
    requires Conserved(p) && PossibleRun(p, ops)
    ensures var q := PerformAll(p, ops);
            && Conserved(q) && p.storeEpoch <= q.storeEpoch && p.hostEpoch <= q.hostEpoch
            && q.storeCap == p.storeCap && q.hostCap == p.hostCap
            && (p.storeUsed == p.storeCap && q.storeEpoch == p.storeEpoch ==> StoreFill(q) >= q.storeCap)
            && (p.hostUsed == p.hostCap && q.hostEpoch == p.hostEpoch ==> HostFill(q) >= q.hostCap)
    decreases |ops|
  {
    FillHolds(p, ops);
  }

  lemma {:induction false} FillHolds(p: Permits, ops: seq<Op>)
    requires Conserved(p) && PossibleRun(p, ops)
    ensures var q := PerformAll(p, ops);
            && Conserved(q) && p.storeEpoch <= q.storeEpoch && p.hostEpoch <= q.hostEpoch
            && q.storeCap == p.storeCap && q.hostCap == p.hostCap
            && (q.storeEpoch == p.storeEpoch ==> StoreFill(p) <= StoreFill(q))
            && (q.hostEpoch == p.hostEpoch ==> HostFill(p) <= HostFill(q))
    decreases |ops|
  {
    if ops != [] {
      StepConserves(p, ops[0]);
      FillHolds(Perform(p, ops[0]), ops[1..]);
    }
  }

  /** How far a ticket is; one that is not there yet is at the start. */
  function Progress(p: Permits, id: nat): nat {
    if id in p.tickets then 1 + Rank(p.tickets[id].stage) else 0
  }

  /** Each operation moves its own ticket on and no other. */
  lemma OpAdvances(p: Permits, op: Op, id: nat)
    requires Possible(p, op)
    ensures if op.id == id then Progress(p, id) < Progress(Perform(p, op), id) else Progress(Perform(p, op), id) == Progress(p, id)
    ensures id in p.tickets ==> id in Perform(p, op).tickets && Perform(p, op).tickets[id].here == p.tickets[id].here
  {
  }

  /** Each ticket passes through its stages in order, one stage or more with each operation on it. */
  lemma {:induction false} TicketsAdvance(p: Permits, ops: seq<Op>, id: nat)
    requires PossibleRun(p, ops)
    ensures id in p.tickets ==> id in PerformAll(p, ops).tickets && PerformAll(p, ops).tickets[id].here == p.tickets[id].here
    ensures Progress(p, id) + |OpsOn(ops, id)| <= Progress(PerformAll(p, ops), id)
    decreases |ops|
  {
    if ops != [] {
      OpAdvances(p, ops[0], id);
      TicketsAdvance(Perform(p, ops[0]), ops[1..], id);
    }
  }

  function OpsOn(ops: seq<Op>, id: nat): seq<Op> {
    if ops == [] then [] else (if ops[0].id == id then [ops[0]] else []) + OpsOn(ops[1..], id)
  }

  /** An operation on a ticket is possible at one stage of it alone. */
  lemma OneStage(p: Permits, q: Permits, op: Op)
    requires Possible(p, op) && Possible(q, op)
    ensures Progress(p, op.id) == Progress(q, op.id)
  {
  }

  /** So none happens twice: each permit is taken at most once, and given back and announced at most once. */
  lemma NothingTwice(p: Permits, op: Op, ops: seq<Op>)
    requires PossibleRun(p, [op] + ops)
    ensures op !in ops
  {
    assert ([op] + ops)[1..] == ops;
    OpAdvances(p, op, op.id);
    NeverAgain(p, Perform(p, op), op, ops);
  }

  lemma {:induction false} NeverAgain(p: Permits, q: Permits, op: Op, ops: seq<Op>)
    requires Possible(p, op) && Progress(p, op.id) < Progress(q, op.id) && PossibleRun(q, ops)
    ensures op !in ops
    decreases |ops|
  {
    if ops != [] {
      OpAdvances(q, ops[0], op.id);
      if ops[0] == op { OneStage(p, q, op); }
      NeverAgain(p, Perform(q, ops[0]), op, ops[1..]);
    }
  }
}
