/** What every run of a schedule, cancelled or not, keeps of its permits and wakes. */
module SchedulerPermits {
  import opened Wrappers
  import opened CatalogTypes
  import opened Permits
  import opened Plans
  import opened JobVerdicts
  import opened Scheduler
  import opened SchedulerData
  import opened SchedulerEndings

  // ----- every ticket has one owner

  function PcTicket(pc: Pc): Option<nat> {
    match pc
    case Trying(_, t) => Some(t)
    case RollingBack(_, t) => Some(t)
    case Admitting(_, t) => Some(t)
    case Refusing(t) => Some(t)
    case _ => None
  }

  predicate StageFits(pc: Pc, stage: Stage) {
    match pc
    case Trying(_, _) => stage == StoreTaken
    case RollingBack(_, _) => stage == StoreFreed
    case Admitting(_, _) => stage == Both
    case _ => stage != StoreTaken
  }

  predicate RunnerFits(s: Sched, r: Runner) {
    && r.ticket in s.mine && r.ticket in s.p.tickets
    && (if Finished(r.phase) then s.p.tickets[r.ticket].stage != StoreTaken else s.p.tickets[r.ticket].stage == Both)
  }

  predicate HasOwner(s: Sched, id: nat) {
    PcTicket(s.pc) == Some(id) || exists k | k in s.runners :: s.runners[k].ticket == id
  }

  predicate TicketOk(s: Sched, id: nat) {
    id in s.p.tickets && s.p.tickets[id].here && (s.p.tickets[id].stage == Closed || HasOwner(s, id))
  }

  /** The scheduling goroutine and the runners own this loader's open tickets, each its own. */
  ghost predicate Ownership(s: Sched) {
    && Conserved(s.p)
    && (forall id | id in s.mine :: TicketOk(s, id))
    && (PcTicket(s.pc).Some? ==> PcTicket(s.pc).value in s.mine && PcTicket(s.pc).value in s.p.tickets
                                 && StageFits(s.pc, s.p.tickets[PcTicket(s.pc).value].stage))
    && (forall k | k in s.runners :: RunnerFits(s, s.runners[k]) && PcTicket(s.pc) != Some(s.runners[k].ticket))
    && (forall j, k | j in s.runners && k in s.runners && s.runners[j].ticket == s.runners[k].ticket :: j == k)
  }

  /** The permit step that a schedule step makes, if any. */
  function OpOf(s: Sched, step: Step): Option<Op>
    requires step.TakeHostPermit? || step.HostIsFull? || step.TellRollback? ==> PcTicket(s.pc).Some?
  {
    match step
    case Environment(op) => Some(op)
    case TakeStorePermit(id) => Some(TakeStore(id, true))
    case TakeHostPermit => Some(TakeHost(PcTicket(s.pc).value))
    case HostIsFull => Some(GiveBack(PcTicket(s.pc).value))
    case TellRollback => Some(TellStore(PcTicket(s.pc).value))
    case ReleaseRefused(op) => Some(op)
    case Release(_, op) => Some(op)
    case _ => None
  }

  lemma StepIsOp(plan: Plan, run: Runs, s: Sched, step: Step)
    requires Enabled(plan, s, step)
    ensures step.TakeHostPermit? || step.HostIsFull? || step.TellRollback? ==> PcTicket(s.pc).Some?
    ensures var op := OpOf(s, step);
            && (op.Some? ==> Possible(s.p, op.value))
            && Next(plan, run, s, step).p == if op.Some? then Perform(s.p, op.value) else s.p
  {
    hide Possible, Perform, NoneToBlock, ToBlock, Admissible, IsRelease;
  }

  /** Steps that leave permits and runners alone; a ticket that is closed may be forgotten. */
  lemma OwnersStay(s: Sched, t: Sched)
    requires Ownership(s) && t.p == s.p && t.mine == s.mine && t.runners == s.runners
    requires PcTicket(t.pc) == PcTicket(s.pc) ||
             (PcTicket(t.pc).None? && At(s.p, PcTicket(s.pc).value, Closed))
    requires PcTicket(t.pc).Some? ==> t.pc == s.pc || (s.pc.Admitting? && StageFits(t.pc, Both))
    ensures Ownership(t)
  {
    hide Conserved;
    forall id | id in t.mine ensures TicketOk(t, id) {
      assert TicketOk(s, id);
    }
    forall k | k in t.runners ensures RunnerFits(t, t.runners[k]) && PcTicket(t.pc) != Some(t.runners[k].ticket) {
      assert RunnerFits(s, s.runners[k]);
    }
  }

  lemma OwnerStays(s: Sched, t: Sched, id: nat)
    requires PcTicket(t.pc) == PcTicket(s.pc)
    requires forall j | j in s.runners :: j in t.runners && t.runners[j].ticket == s.runners[j].ticket
    ensures HasOwner(s, id) ==> HasOwner(t, id)
  {
  }

  lemma PhasesKeep(s: Sched, t: Sched, k: Kind, phase: Phase)
    requires Ownership(s) && k in s.runners && !Finished(s.runners[k].phase)
    requires t.p == s.p && t.mine == s.mine && t.pc == s.pc && t.runners == SetPhase(s, k, phase)
    ensures Ownership(t)
  {
    hide Conserved, HasOwner;
    forall id | id in t.mine ensures TicketOk(t, id) {
      assert TicketOk(s, id);
      OwnerStays(s, t, id);
    }
    forall j | j in t.runners ensures RunnerFits(t, t.runners[j]) && PcTicket(t.pc) != Some(t.runners[j].ticket) {
      assert RunnerFits(s, s.runners[j]);
    }
  }

  lemma QuietStepKeeps(plan: Plan, run: Runs, s: Sched, step: Step)
    requires Ownership(s) && Enabled(plan, s, step) && step != Admit
    requires (step.TakeHostPermit? || step.HostIsFull? || step.TellRollback? ==> PcTicket(s.pc).Some?) && OpOf(s, step).None?
    ensures Ownership(Next(plan, run, s, step))
  {
    hide Ownership, Conserved, NoneToBlock, ToBlock, Admissible, Perform, Possible, IsRelease, Published, Woken, Outcome;
    var t := Next(plan, run, s, step);
    match step {
      case StartJob(k) => PhasesKeep(s, t, k, Running);
      case SkipJob(k) => PhasesKeep(s, t, k, Skipped);
      case Deliver(k) => PhasesKeep(s, t, k, Delivered);
      case _ => OwnersStay(s, t);
    }
  }

  lemma AdmissionKeeps(plan: Plan, run: Runs, s: Sched)
    requires Ownership(s) && Enabled(plan, s, Admit) && plan.jobs[s.pc.next].kind !in s.runners
    ensures Ownership(Next(plan, run, s, Admit))
  {
    hide Conserved;
    var t, new' := Next(plan, run, s, Admit), plan.jobs[s.pc.next].kind;
    forall id | id in t.mine ensures TicketOk(t, id) {
      assert TicketOk(s, id);
      if HasOwner(s, id) {
        if PcTicket(s.pc) == Some(id) {
          assert t.runners[new'].ticket == id;
        } else {
          var k :| k in s.runners && s.runners[k].ticket == id;
          assert t.runners[k].ticket == id;
        }
      }
    }
    forall k | k in t.runners ensures RunnerFits(t, t.runners[k]) {
      if k != new' { assert RunnerFits(s, s.runners[k]); }
    }
  }

  /** Only one ticket moved. */
  predicate OnlyMoved(p: Permits, q: Permits, id: nat) {
    && q.tickets.Keys == p.tickets.Keys + {id}
    && (id in p.tickets ==> q.tickets[id].here == p.tickets[id].here)
    && forall j | j in p.tickets && j != id :: q.tickets[j] == p.tickets[j]
  }

  lemma OpMovesOne(p: Permits, op: Op)
    requires Conserved(p) && Possible(p, op)
    ensures OnlyMoved(p, Perform(p, op), op.id) && Conserved(Perform(p, op))
  {
    StepConserves(p, op);
  }

  /** The scheduling goroutine takes a new ticket. */
  lemma TakingKeeps(s: Sched, t: Sched, id: nat)
    requires Ownership(s) && Conserved(t.p) && OnlyMoved(s.p, t.p, id) && id !in s.p.tickets && t.p.tickets[id] == Ticket(true, StoreTaken)
    requires t.runners == s.runners && t.mine == s.mine + {id} && PcTicket(s.pc).None? && t.pc.Trying? && t.pc.ticket == id
    ensures Ownership(t)
  {
    hide Conserved;
    forall j | j in t.mine ensures TicketOk(t, j) {
      if j != id { assert TicketOk(s, j); }
    }
    forall k | k in t.runners ensures RunnerFits(t, t.runners[k]) && PcTicket(t.pc) != Some(t.runners[k].ticket) {
      assert RunnerFits(s, s.runners[k]) && s.runners[k].ticket != id;
      assert t.p.tickets[s.runners[k].ticket] == s.p.tickets[s.runners[k].ticket];
    }
  }

  /** It moves its own ticket on, or is done with it. */
  lemma PcOpKeeps(s: Sched, t: Sched, id: nat)
    requires Ownership(s) && Conserved(t.p) && PcTicket(s.pc) == Some(id) && OnlyMoved(s.p, t.p, id) && id in s.p.tickets
    requires t.runners == s.runners && t.mine == s.mine
    requires if PcTicket(t.pc).None? then t.p.tickets[id].stage == Closed else PcTicket(t.pc) == Some(id) && StageFits(t.pc, t.p.tickets[id].stage)
    ensures Ownership(t)
  {
    hide Conserved, StageFits;
    forall j | j in t.mine ensures TicketOk(t, j) { assert TicketOk(s, j); }
    forall k | k in t.runners ensures RunnerFits(t, t.runners[k]) && PcTicket(t.pc) != Some(t.runners[k].ticket) {
      assert RunnerFits(s, s.runners[k]);
    }
  }

  /** A finished runner, or someone else, moves a ticket on. */
  lemma OtherOpKeeps(s: Sched, t: Sched, id: nat)
    requires Ownership(s) && Conserved(t.p) && PcTicket(s.pc) != Some(id) && OnlyMoved(s.p, t.p, id)
    requires t.runners == s.runners && t.mine == s.mine && t.pc == s.pc
    requires id in s.mine ==> id in s.p.tickets && t.p.tickets[id].stage != StoreTaken && s.p.tickets[id].stage != Closed
    requires forall k | k in s.runners && s.runners[k].ticket == id :: Finished(s.runners[k].phase)
    ensures Ownership(t)
  {
    hide Conserved, StageFits;
    forall j | j in t.mine ensures TicketOk(t, j) { assert TicketOk(s, j); }
    forall k | k in t.runners ensures RunnerFits(t, t.runners[k]) && PcTicket(t.pc) != Some(t.runners[k].ticket) {
      assert RunnerFits(s, s.runners[k]);
    }
  }

  lemma OwnershipKeeps(plan: Plan, run: Runs, s: Sched, step: Step)
    requires Ownership(s) && Enabled(plan, s, step)
    requires step == Admit ==> plan.jobs[s.pc.next].kind !in s.runners
    ensures Ownership(Next(plan, run, s, step))
  {
    hide Ownership, Conserved, NoneToBlock, ToBlock, Admissible, Published, Woken, Outcome, OnlyMoved;
    var t := Next(plan, run, s, step);
    StepIsOp(plan, run, s, step);
    if OpOf(s, step).Some? {
      var op := OpOf(s, step).value;
      OwnedFacts(s, op.id);
      OpMovesOne(s.p, op);
      match step {
        case TakeStorePermit(id) => TakingKeeps(s, t, id);
        case Environment(_) => OtherOpKeeps(s, t, op.id);
        case Release(k, _) => ReleaseOwn(s, k); OtherOpKeeps(s, t, op.id);
        case _ => PcOpKeeps(s, t, op.id);
      }
    } else if step == Admit {
      AdmissionKeeps(plan, run, s);
    } else {
      QuietStepKeeps(plan, run, s, step);
    }
  }

  lemma OwnedFacts(s: Sched, id: nat)
    requires Ownership(s)
    ensures Conserved(s.p) && (id in s.mine ==> id in s.p.tickets)
    ensures id !in s.mine ==> PcTicket(s.pc) != Some(id) && forall k | k in s.runners :: s.runners[k].ticket != id
  {
    assert id in s.mine ==> TicketOk(s, id);
    forall k | k in s.runners ensures s.runners[k].ticket in s.mine { assert RunnerFits(s, s.runners[k]); }
  }

  lemma ReleaseOwn(s: Sched, k: Kind)
    requires Ownership(s) && k in s.runners && Finished(s.runners[k].phase)
    ensures s.runners[k].ticket in s.mine && PcTicket(s.pc) != Some(s.runners[k].ticket)
    ensures forall j | j in s.runners && s.runners[j].ticket == s.runners[k].ticket :: Finished(s.runners[j].phase)
  {
    assert RunnerFits(s, s.runners[k]);
  }
}
