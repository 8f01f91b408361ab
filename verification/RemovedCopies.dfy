/**
 A copy that is gone, on the destination and in the records, stays gone as long as nobody decides anew -- exactly
 when no create or update of it is still unfinished. An update that comes late finds its slot empty and is
 rewritten to a create.
 */
module RemovedCopies {
  import opened Options
  import opened SyncProtocol
  import opened DueEffects
  import opened FiniteSets
  import opened HoldFreeze
  import opened HoldLanding

  predicate Gone(s: State, key: ProjectionKey, slot: Slot) { key !in s.repo.projections && slot !in s.cloud.remote }

  /** A create or update for the copy, or into its slot. */
  predicate Brings(e: OutboxEffect, key: ProjectionKey, slot: Slot) {
    !e.mutation.op.Delete? && (e.key == key || e.mutation.slot == slot)
  }

  ghost predicate NothingToBring(r: Repository, key: ProjectionKey, slot: Slot) {
    forall id :: id in r.effects && Brings(r.effects[id], key, slot) ==> !Unfinished(r.effects[id].state)
  }

  /** The coordinator queues a create or update of the copy, or somebody else fills its slot. */
  predicate DecidesAnew(s: State, step: Step, key: ProjectionKey, slot: Slot) {
    || (step.Advance? && s.at.Queue? && Brings(s.at.effect, key, slot))
    || (step.Outside? && step.slot == slot && step.edit.Put?)
  }

  ghost predicate NothingNew(s: State, steps: seq<Step>, key: ProjectionKey, slot: Slot)
    decreases |steps|
  {
    steps == [] || (!DecidesAnew(s, steps[0], key, slot) && NothingNew(Next(s, steps[0]), steps[1..], key, slot))
  }

  /* ----- gone for good ----- */

  /** An entry of the drain's list that cannot bring the copy back, now or rewritten. */
  ghost predicate Harmless(r: Repository, e: OutboxEffect, key: ProjectionKey, slot: Slot) {
    !Brings(e, key, slot) && (e.id in r.effects ==> !Brings(r.effects[e.id], key, slot))
  }

  ghost predicate AtHarmless(r: Repository, at: Position, key: ProjectionKey, slot: Slot) {
    match at
    case ReadForCopy(_, p, _) => p.key != key
    case SaveHold(p, _) => p.key != key
    case SaveReleased(_, p, _) => p.key != key
    case Draining(queue, phase) =>
      && (forall i :: 0 <= i < |queue| ==> Harmless(r, queue[i], key, slot))
      && (phase.Rewrite? && queue != [] ==> !Brings(queue[0].(mutation := phase.mutation), key, slot))
    case _ => true
  }

  ghost predicate GoneQuietly(s: State, key: ProjectionKey, slot: Slot) {
    Consistent(s) && Gone(s, key, slot) && NothingToBring(s.repo, key, slot) && AtHarmless(s.repo, s.at, key, slot)
  }

  /** What a drain step does to repository and calendars, as far as the copy is concerned. */
  lemma DrainBringsNothing(s: State, queue: seq<OutboxEffect>, phase: Phase, reply: Reply, key: ProjectionKey, slot: Slot)
    requires GoneQuietly(s, key, slot) && s.at == Draining(queue, phase) && queue != []
    ensures var t := OnDrain(s, queue, phase, reply);
            && Gone(t, key, slot)
            && (forall id :: id in t.repo.effects ==> id in s.repo.effects)
            && (forall id :: id in t.repo.effects && id != queue[0].id ==> t.repo.effects[id] == s.repo.effects[id])
            && (queue[0].id in t.repo.effects ==> !Brings(t.repo.effects[queue[0].id], key, slot))
  {
    assert Harmless(s.repo, queue[0], key, slot) && SnapshotOk(s.repo, queue[0]);
  }

  lemma DrainStaysHarmless(s: State, queue: seq<OutboxEffect>, phase: Phase, reply: Reply, key: ProjectionKey, slot: Slot)
    requires queue != [] && !Brings(queue[0], key, slot)
    ensures var at := OnDrain(s, queue, phase, reply).at;
            && (at.Idle? || (at.Draining? && (at.queue == queue || at.queue == queue[1..])))
            && (at.Draining? && at.phase.Rewrite? && at.queue != [] ==>
                  at.queue == queue && !Brings(queue[0].(mutation := at.phase.mutation), key, slot))
  {
  }

  lemma DrainKeepsGone(s: State, queue: seq<OutboxEffect>, phase: Phase, reply: Reply, key: ProjectionKey, slot: Slot)
    requires GoneQuietly(s, key, slot) && s.at == Draining(queue, phase)
    ensures GoneQuietly(OnDrain(s, queue, phase, reply), key, slot)
  {
    DrainKeepsConsistent(s, queue, phase, reply);
    if queue != [] {
      assert Harmless(s.repo, queue[0], key, slot);
      DrainBringsNothing(s, queue, phase, reply, key, slot);
      DrainStaysHarmless(s, queue, phase, reply, key, slot);
      var t := OnDrain(s, queue, phase, reply);
      assert forall i :: 0 <= i < |queue| ==> Harmless(t.repo, queue[i], key, slot);
      assert forall i :: 0 <= i < |queue[1..]| ==> queue[1..][i] == queue[i + 1];
    }
  }

  lemma WorkKeepsGone(s: State, c: Choice, key: ProjectionKey, slot: Slot)
    requires GoneQuietly(s, key, slot) && !s.at.Draining? && !(s.at.Queue? && Brings(s.at.effect, key, slot))
    ensures var t := Proceed(s, c); Gone(t, key, slot) && NothingToBring(t.repo, key, slot) && AtHarmless(t.repo, t.at, key, slot)
  {
  }

  lemma PassIsHarmless(s: State, due: seq<OutboxEffect>, key: ProjectionKey, slot: Slot)
    requires NothingToBring(s.repo, key, slot) && IsDueList(s.repo.effects, s.now, due)
    ensures AtHarmless(s.repo, Draining(due, Pick), key, slot)
  {
  }

  lemma StepKeepsGone(s: State, step: Step, key: ProjectionKey, slot: Slot)
    requires GoneQuietly(s, key, slot) && !DecidesAnew(s, step, key, slot)
    ensures GoneQuietly(Next(s, step), key, slot)
  {
    StepKeepsConsistent(s, step);
    match step
    case Advance(c) =>
      if s.at.Draining? {
        DrainKeepsGone(s, s.at.queue, s.at.phase, c.reply, key, slot);
      } else {
        WorkKeepsGone(s, c, key, slot);
      }
    case StartDrain(due) =>
      if s.at.Idle? && IsDueList(s.repo.effects, s.now, due) { PassIsHarmless(s, due, key, slot); }
    case Acknowledge(_) =>
      if s.at.Draining? { assert AtHarmless(Next(s, step).repo, s.at, key, slot); }
    case _ =>
  }

  lemma {:induction false} RunKeepsGone(s: State, steps: seq<Step>, key: ProjectionKey, slot: Slot)
    requires GoneQuietly(s, key, slot) && NothingNew(s, steps, key, slot)
    ensures Gone(Run(s, steps), key, slot)
    decreases |steps|
  {
    if steps != [] {
      StepKeepsGone(s, steps[0], key, slot);
      RunKeepsGone(Next(s, steps[0]), steps[1..], key, slot);
    }
  }

  /* ----- brought back ----- */

  /** A drain decides nothing. */
  lemma {:induction false} UnattendedIsNothingNew(s: State, steps: seq<Step>, key: ProjectionKey, slot: Slot)
    requires Unattended(steps) && (s.at.Idle? || s.at.Draining?)
    ensures NothingNew(s, steps, key, slot)
    decreases |steps|
  {
    if steps != [] {
      StaysInDrain(s, steps[0]);
      UnattendedIsNothingNew(Next(s, steps[0]), steps[1..], key, slot);
    }
  }

  lemma StaysInDrain(s: State, step: Step)
    requires DrainsOnly(step) && (s.at.Idle? || s.at.Draining?)
    ensures var t := Next(s, step); t.at.Idle? || t.at.Draining?
  {
  }

  /** The copy of the effect is on the destination and in the records. */
  predicate IsBack(s: State, e: OutboxEffect) { e.key in s.repo.projections && e.mutation.slot in s.cloud.remote }

  ghost predicate Closer(s: State, id: nat, t: State)
    requires id in s.repo.effects
  {
    || IsBack(t, s.repo.effects[id])
    || (&& t.at.Idle? && id in t.repo.effects && Unfinished(t.repo.effects[id].state)
        && t.repo.effects[id].key == s.repo.effects[id].key
        && t.repo.effects[id].mutation.slot == s.repo.effects[id].mutation.slot
        && !t.repo.effects[id].mutation.op.Delete?
        && (|| (s.repo.effects[id].mutation.op.Update? && t.repo.effects[id].mutation.op.Create?)
            || (&& t.repo.effects[id].mutation.op == s.repo.effects[id].mutation.op
                && Ahead(t.repo.effects, id) < Ahead(s.repo.effects, id))))
  }

  lemma HeadSteps(s: State, id: nat, due: seq<OutboxEffect>) returns (t: State)
    requires Consistent(s) && s.at.Idle? && id in s.repo.effects && IsDue(s.repo.effects[id], s.now)
    requires !s.repo.effects[id].mutation.op.Delete? && IsDueList(s.repo.effects, s.now, due) && due != []
    requires due[0].id == id
    ensures Leads(s, t) && Closer(s, id, t)
  {
    assert EffectOk(s.repo, id);
    if due[0].mutation.op.Create? {
      t := CreationLands(s, due);
    } else {
      t := UpdateRewritten(s, due);
    }
  }

  lemma OtherSteps(s: State, id: nat, due: seq<OutboxEffect>) returns (t: State)
    requires Consistent(s) && s.at.Idle? && id in s.repo.effects && IsDue(s.repo.effects[id], s.now)
    requires !s.repo.effects[id].mutation.op.Delete? && IsDueList(s.repo.effects, s.now, due) && due != []
    requires due[0].id != id && NotAfter(due[0], s.repo.effects[id])
    ensures Leads(s, t) && Closer(s, id, t)
  {
    assert EffectOk(s.repo, due[0].id);
    t := HeadPostponed(s, due);
    PostponeShortens(s.repo, s.now, id, due[0].id);
  }

  lemma WaitAndStep(s: State, id: nat) returns (t: State)
    requires Consistent(s) && s.at.Idle? && id in s.repo.effects && Unfinished(s.repo.effects[id].state)
    requires !s.repo.effects[id].mutation.op.Delete?
    ensures Leads(s, t) && Closer(s, id, t)
  {
    var e := s.repo.effects[id];
    var wait := Tick(if e.nextAttemptAt <= s.now then s.now else e.nextAttemptAt);
    LeadsNowhere(s);
    LeadsThen(s, s, wait);
    var s1 := Next(s, wait);
    LeadsConsistent(s, s1);
    IdsOk(s1.repo);
    var due := DueListExists(s1.repo.effects, s1.now);
    HeadComesFirst(s1.repo.effects, s1.now, due, id);
    if due[0].id == id { t := HeadSteps(s1, id, due); } else { t := OtherSteps(s1, id, due); }
    LeadsOn(s, s1, t);
  }

  function Rewrites(e: OutboxEffect): nat { if e.mutation.op.Update? then 1 else 0 }

  /** An unfinished create or update can always land and bring its copy back, with nobody deciding anything. */
  lemma {:induction false} UnfinishedBringsBack(s: State, id: nat) returns (t: State)
    requires Consistent(s) && s.at.Idle? && id in s.repo.effects && Unfinished(s.repo.effects[id].state)
    requires !s.repo.effects[id].mutation.op.Delete?
    ensures Leads(s, t) && IsBack(t, s.repo.effects[id])
    decreases Rewrites(s.repo.effects[id]), |Ahead(s.repo.effects, id)|
  {
    var u := WaitAndStep(s, id);
    if IsBack(u, s.repo.effects[id]) {
      t := u;
    } else {
      if u.repo.effects[id].mutation.op == s.repo.effects[id].mutation.op {
        SubsetSmaller(Ahead(u.repo.effects, id), Ahead(s.repo.effects, id));
      }
      LeadsConsistent(s, u);
      t := UnfinishedBringsBack(u, id);
      LeadsOn(s, u, t);
    }
  }

  /* ----- the exact condition ----- */

  ghost predicate GoneForGood(s: State, key: ProjectionKey, slot: Slot) {
    forall steps :: NothingNew(s, steps, key, slot) ==> Gone(Run(s, steps), key, slot)
  }

  lemma NotForGood(s: State, t: State, key: ProjectionKey, slot: Slot)
    requires s.at.Idle? && Leads(s, t) && !Gone(t, key, slot)
    ensures !GoneForGood(s, key, slot)
  {
    var steps :| Unattended(steps) && Run(s, steps) == t;
    UnattendedIsNothingNew(s, steps, key, slot);
  }

  /** A removed copy stays removed in every run without a new decision exactly when no create or update of it, or
      into its slot, is unfinished. */
  lemma RemovedExactly(s: State, key: ProjectionKey, slot: Slot)
    requires Consistent(s) && s.at.Idle? && Gone(s, key, slot)
    ensures NothingToBring(s.repo, key, slot) <==> GoneForGood(s, key, slot)
  {
    if NothingToBring(s.repo, key, slot) {
      forall steps | NothingNew(s, steps, key, slot) ensures Gone(Run(s, steps), key, slot) {
        RunKeepsGone(s, steps, key, slot);
      }
    } else {
      var id :| id in s.repo.effects && Brings(s.repo.effects[id], key, slot) && Unfinished(s.repo.effects[id].state);
      var t := UnfinishedBringsBack(s, id);
      NotForGood(s, t, key, slot);
    }
  }
}
