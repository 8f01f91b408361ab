/**
 Ownership safety of the sync protocol: under every interleaving with outside edits, crashes and
 provider faults, a mutation the provider carries out never touches an event that is not this
 policy's copy.
 */
module OwnershipSafety {
  import opened Options
  import opened SyncProtocol

  /** An update or delete is guarded by a revision that was once read from the owned copy in its slot. */
  predicate MutationSafe(seen: map<nat, Sighting>, m: Mutation) {
    !m.op.Create? ==>
      && m.expected.Some?
      && m.expected.value in seen
      && seen[m.expected.value].slot == m.slot
      && IsOwned(seen[m.expected.value].event, m.policy, m.slot.eventId)
  }

  /** The provider never reuses a revision, and each slot shows the event its revision was given to. */
  ghost predicate RevisionsUnique(c: Provider) {
    && (forall rev :: rev in c.seen ==> rev < c.nextRev && c.seen[rev].event.rev == rev)
    && (forall slot :: slot in c.remote ==>
          c.remote[slot].rev in c.seen && c.seen[c.remote[slot].rev] == Sighting(slot, c.remote[slot]))
  }

  ghost predicate EffectsSafe(seen: map<nat, Sighting>, effects: map<nat, OutboxEffect>) {
    forall id :: id in effects ==> MutationSafe(seen, effects[id].mutation)
  }

  ghost predicate QueueSafe(seen: map<nat, Sighting>, queue: seq<OutboxEffect>) {
    forall i :: 0 <= i < |queue| ==> MutationSafe(seen, queue[i].mutation)
  }

  ghost predicate PhaseSafe(seen: map<nat, Sighting>, phase: Phase) {
    phase.Rewrite? ==> MutationSafe(seen, phase.mutation)
  }

  ghost predicate PositionSafe(seen: map<nat, Sighting>, at: Position) {
    match at
    case ReadForCopy(job, p, desired) => p.slot.endpoint == job.policy.destination
    case RecordNotice(_, _, next) => next.Some? ==> MutationSafe(seen, next.value.mutation)
    case Queue(effect, _) => MutationSafe(seen, effect.mutation)
    case Draining(queue, phase) => QueueSafe(seen, queue) && PhaseSafe(seen, phase)
    case _ => true
  }

  /** What the property says of one mutation the provider carried out: a create found nothing, an update or delete an
      event with the markers of this policy and this copy. */
  predicate Respectful(a: Accepted) {
    match a.before
    case None => a.mutation.op == Create
    case Some(event) =>
      && a.mutation.op != Create && event.managed
      && event.managedPolicy == Some(a.mutation.policy) && event.managedProjection == Some(a.mutation.slot.eventId)
  }

  ghost predicate AllRespectful(accepted: seq<Accepted>) {
    forall i :: 0 <= i < |accepted| ==> Respectful(accepted[i])
  }

  ghost predicate Safe(s: State) {
    && RevisionsUnique(s.cloud)
    && EffectsSafe(s.cloud.seen, s.repo.effects)
    && PositionSafe(s.cloud.seen, s.at)
    && AllRespectful(s.cloud.accepted)
  }

  /** Sightings are never forgotten, so guarded mutations stay guarded. */
  ghost predicate Remembers(seen: map<nat, Sighting>, later: map<nat, Sighting>) {
    forall rev :: rev in seen ==> rev in later && later[rev] == seen[rev]
  }

  lemma GuardsLast(seen: map<nat, Sighting>, later: map<nat, Sighting>, s: State)
    requires Remembers(seen, later)
    requires EffectsSafe(seen, s.repo.effects) && PositionSafe(seen, s.at)
    ensures EffectsSafe(later, s.repo.effects) && PositionSafe(later, s.at)
  {
  }

  lemma PutKeepsUnique(c: Provider, slot: Slot, event: RemoteEvent)
    requires RevisionsUnique(c) && event.rev == c.nextRev
    ensures RevisionsUnique(PutEvent(c, slot, event))
    ensures Remembers(c.seen, PutEvent(c, slot, event).seen)
  {
  }

  /** The heart of the matter: an accepted update or delete finds the event its revision was read from. */
  lemma CarryOutRespects(c: Provider, m: Mutation)
    requires RevisionsUnique(c) && AllRespectful(c.accepted) && MutationSafe(c.seen, m)
    ensures RevisionsUnique(CarryOut(c, m)) && AllRespectful(CarryOut(c, m).accepted)
    ensures Remembers(c.seen, CarryOut(c, m).seen)
  {
    if Accepts(c.remote, m) {
      var entry := Accepted(m, Lookup(c.remote, m.slot));
      assert Respectful(entry);
      var logged := c.(accepted := c.accepted + [entry]);
      if !m.op.Delete? {
        PutKeepsUnique(logged, m.slot, Written(m, m.desired.value, c.nextRev));
      }
    }
  }

  lemma EnqueueKeepsSafe(seen: map<nat, Sighting>, r: Repository, effect: OutboxEffect)
    requires EffectsSafe(seen, r.effects) && MutationSafe(seen, effect.mutation)
    ensures EffectsSafe(seen, EnqueueEffect(r, effect).effects)
  {
  }

  lemma ReadPhasesSafe(c: Provider, effect: OutboxEffect, now: nat, reply: Reply)
    requires RevisionsUnique(c) && MutationSafe(c.seen, effect.mutation)
    ensures PhaseSafe(c.seen, AfterAdoptRead(c.remote, effect, now, reply))
    ensures PhaseSafe(c.seen, AfterSend(c.remote, effect, now, reply))
    ensures PhaseSafe(c.seen, AfterVerify(c.remote, effect, now, reply))
    ensures var next := AfterRecoverRead(c.remote, effect, reply); next.Some? ==> PhaseSafe(c.seen, next.value)
  {
  }

  lemma SendKeepsSafe(s: State, queue: seq<OutboxEffect>, reply: Reply)
    requires Safe(s) && s.at == Draining(queue, Send) && |queue| > 0
    ensures Safe(OnDrain(s, queue, Send, reply))
  {
    var m := queue[0].mutation;
    ReadPhasesSafe(s.cloud, queue[0], s.now, reply);
    CarryOutRespects(s.cloud, m);
    var t := OnDrain(s, queue, Send, reply);
    GuardsLast(s.cloud.seen, t.cloud.seen, s.(at := t.at));
  }

  lemma DrainKeepsSafe(s: State, queue: seq<OutboxEffect>, phase: Phase, reply: Reply)
    requires Safe(s) && s.at == Draining(queue, phase)
    ensures Safe(OnDrain(s, queue, phase, reply))
  {
    if queue != [] {
      if phase.Send? {
        SendKeepsSafe(s, queue, reply);
      } else {
        ReadPhasesSafe(s.cloud, queue[0], s.now, reply);
        assert QueueSafe(s.cloud.seen, queue[1..]);
      }
    }
  }

  /** Whatever the coordinator intends to queue after a read is guarded by that read. */
  lemma ReconcileReadsSafe(c: Provider, now: nat, job: Job, p: StoredProjection, desired: DesiredCopy, choice: Choice)
    requires RevisionsUnique(c)
    ensures p.slot.endpoint == job.policy.destination ==>
              PositionSafe(c.seen, AfterCopyRead(c.remote, now, job, p, desired, choice))
    ensures PositionSafe(c.seen, AfterDeletionRead(c.remote, now, job, p, choice))
  {
  }

  lemma RestoreReadSafe(c: Provider, now: nat, notice: Notice, p: StoredProjection, choice: Choice)
    requires RevisionsUnique(c)
    ensures PositionSafe(c.seen, AfterRestoreRead(c.remote, now, notice, p, choice))
  {
  }

  lemma ProceedKeepsSafe(s: State, c: Choice)
    requires Safe(s)
    ensures Safe(Proceed(s, c))
  {
    match s.at
    case ReadForCopy(job, p, desired) => ReconcileReadsSafe(s.cloud, s.now, job, p, desired, c);
    case ReadForDeletion(job, p) => ReconcileReadsSafe(s.cloud, s.now, job, p, p.digest.of, c);
    case RestoreRead(notice, p) => RestoreReadSafe(s.cloud, s.now, notice, p, c);
    case Draining(queue, phase) => DrainKeepsSafe(s, queue, phase, c.reply);
    case Queue(effect, _) => EnqueueKeepsSafe(s.cloud.seen, s.repo, effect);
    case _ =>
  }

  lemma StepKeepsSafe(s: State, step: Step)
    requires Safe(s)
    ensures Safe(Next(s, step))
  {
    match step
    case Advance(choice) => ProceedKeepsSafe(s, choice);
    case Outside(slot, edit) =>
      if edit.Put? {
        var event := RemoteEvent(s.cloud.nextRev, edit.managed, edit.policy, edit.projection, edit.content);
        PutKeepsUnique(s.cloud, slot, event);
      }
      GuardsLast(s.cloud.seen, Outsider(s.cloud, slot, edit).seen, s);
    case StartDrain(due) =>
      if s.at.Idle? && IsDueList(s.repo.effects, s.now, due) { assert QueueSafe(s.cloud.seen, due); }
    case _ =>
  }

  lemma {:induction false} RunKeepsSafe(s: State, steps: seq<Step>)
    requires Safe(s)
    ensures Safe(Run(s, steps))
    decreases |steps|
  {
    if steps != [] {
      StepKeepsSafe(s, steps[0]);
      RunKeepsSafe(Next(s, steps[0]), steps[1..]);
    }
  }

  /** A repository with no outbox yet, in front of any destination calendars. */
  ghost predicate Initial(s: State) {
    && s.at.Idle? && s.repo.effects == map[] && s.cloud.accepted == []
    && RevisionsUnique(s.cloud)
  }

  /** In every run, whatever others do to the calendars, the provider carries out only mutations that
      respect ownership: updates and deletes hit this policy's own copy, creates hit empty slots. */
  lemma OwnershipInEveryRun(s: State, steps: seq<Step>)
    requires Initial(s)
    ensures AllRespectful(Run(s, steps).cloud.accepted)
  {
    RunKeepsSafe(s, steps);
  }
}
