/**
 A held or detached copy stays frozen until its notice is resolved, if no unfinished effect for it is
 left in the outbox.
 */
module HoldFreeze {
  import opened Options
  import opened SyncProtocol

  /* ----- bookkeeping facts that every step keeps ----- */

  predicate EffectOk(r: Repository, id: nat)
    requires id in r.effects
  {
    id < r.nextId && r.effects[id].id == id && Sendable(r.effects[id].mutation)
  }

  predicate SnapshotOk(r: Repository, e: OutboxEffect) {
    && e.id < r.nextId && Sendable(e.mutation)
    && (e.id in r.effects ==> r.effects[e.id].key == e.key)
  }

  ghost predicate RepositoryOk(r: Repository) {
    && (forall id :: id in r.effects ==> EffectOk(r, id))
    && (forall key :: key in r.projections ==> r.projections[key].key == key)
  }

  ghost predicate QueueOk(r: Repository, queue: seq<OutboxEffect>) {
    forall i :: 0 <= i < |queue| ==> SnapshotOk(r, queue[i])
  }

  ghost predicate PositionOk(r: Repository, at: Position) {
    match at
    case ReadForCopy(job, p, _) => p.key == KeyOf(job)
    case RecordNotice(_, _, next) => next.Some? ==> Sendable(next.value.mutation)
    case Queue(effect, _) => Sendable(effect.mutation)
    case SaveReleased(notice, p, _) => p.key == notice.key
    case Draining(queue, phase) => QueueOk(r, queue) && (phase.Rewrite? ==> Sendable(phase.mutation))
    case _ => true
  }

  ghost predicate Consistent(s: State) { RepositoryOk(s.repo) && PositionOk(s.repo, s.at) }

  lemma EnqueueKeepsOk(r: Repository, effect: OutboxEffect)
    requires RepositoryOk(r) && Sendable(effect.mutation)
    ensures RepositoryOk(EnqueueEffect(r, effect))
  {
  }

  /** Same effect ids, filed under the same keys. */
  ghost predicate SameFiling(r: Repository, r': Repository) {
    && RepositoryOk(r') && r'.nextId == r.nextId && r'.effects.Keys == r.effects.Keys
    && forall id :: id in r'.effects ==> r'.effects[id].key == r.effects[id].key
  }

  lemma SetEffectOk(r: Repository, effect: OutboxEffect)
    requires RepositoryOk(r) && effect.id in r.effects && effect.key == r.effects[effect.id].key
    requires Sendable(effect.mutation)
    ensures SameFiling(r, SetEffect(r, effect))
  {
  }

  lemma MarkOk(r: Repository, id: nat, state: EffectState)
    requires RepositoryOk(r)
    ensures SameFiling(r, MarkState(r, id, state))
  {
    if id in r.effects {
      assert EffectOk(r, id);
      SetEffectOk(r, r.effects[id].(id := id, state := state));
    }
  }

  lemma AttemptOk(r: Repository, id: nat)
    requires RepositoryOk(r)
    ensures SameFiling(r, MarkApplying(r, id))
  {
  }

  lemma ReviseOk(r: Repository, id: nat, m: Mutation, at: nat)
    requires RepositoryOk(r) && Sendable(m)
    ensures SameFiling(r, ReviseEffect(r, id, m, at))
  {
    if id in r.effects {
      SetEffectOk(r, r.effects[id].(id := id, mutation := m, state := Pending, nextAttemptAt := at));
    }
  }

  lemma RetryOk(r: Repository, id: nat, at: nat)
    requires RepositoryOk(r)
    ensures SameFiling(r, ScheduleRetry(r, id, at))
  {
    if id in r.effects {
      assert EffectOk(r, id);
      SetEffectOk(r, r.effects[id].(id := id, state := Pending, nextAttemptAt := at));
    }
  }

  lemma FinishOk(r: Repository, effect: OutboxEffect, rev: Option<nat>)
    requires RepositoryOk(r)
    ensures SameFiling(r, Finish(r, effect, rev))
  {
  }

  lemma DrainKeepsRepository(s: State, queue: seq<OutboxEffect>, phase: Phase, reply: Reply)
    requires RepositoryOk(s.repo) && queue != [] && (phase.Rewrite? ==> Sendable(phase.mutation))
    ensures SameFiling(s.repo, OnDrain(s, queue, phase, reply).repo)
  {
    var r, id := s.repo, queue[0].id;
    match phase
    case Claim => AttemptOk(r, id);
    case SaveFinish(rev, _) => FinishOk(r, queue[0], rev);
    case Settle(_) => MarkOk(r, id, Succeeded);
    case Rewrite(m) => ReviseOk(r, id, m, s.now);
    case ParkAmbiguous => MarkOk(r, id, AmbiguousResult);
    case ParkQuarantined => MarkOk(r, id, Quarantined);
    case Postpone(at) => RetryOk(r, id, at);
    case _ =>
  }

  lemma DrainKeepsConsistent(s: State, queue: seq<OutboxEffect>, phase: Phase, reply: Reply)
    requires Consistent(s) && s.at == Draining(queue, phase)
    ensures Consistent(OnDrain(s, queue, phase, reply))
  {
    if queue != [] {
      var t := OnDrain(s, queue, phase, reply);
      DrainKeepsRepository(s, queue, phase, reply);
      assert QueueOk(t.repo, queue);
      assert QueueOk(t.repo, queue[1..]);
    }
  }

  /** Reading moves the coordinator on and leaves the repository alone. */
  lemma ReadKeepsConsistent(s: State, c: Choice)
    requires Consistent(s)
    requires s.at.LoadProjection? || s.at.ReadForCopy? || s.at.ReadForDeletion? || s.at.RestoreRead?
    ensures Proceed(s, c).repo == s.repo && PositionOk(s.repo, Proceed(s, c).at)
  {
  }

  lemma WriteKeepsConsistent(s: State, c: Choice)
    requires Consistent(s)
    requires s.at.SaveHold? || s.at.RecordNotice? || s.at.Queue? || s.at.DropProjection? || s.at.SaveReleased? || s.at.MarkResolved?
    ensures Consistent(Proceed(s, c))
  {
    assert forall id :: id in s.repo.effects ==> EffectOk(s.repo, id);
    match s.at
    case SaveHold(p, _) => SaveKeepsOk(s.repo, p);
    case SaveReleased(_, p, _) => SaveKeepsOk(s.repo, p);
    case Queue(effect, _) => EnqueueKeepsOk(s.repo, effect);
    case _ =>
  }

  lemma SaveKeepsOk(r: Repository, p: StoredProjection)
    requires RepositoryOk(r)
    ensures RepositoryOk(SaveProjection(r, p))
  {
    forall id | id in r.effects ensures EffectOk(SaveProjection(r, p), id) { assert EffectOk(r, id); }
  }

  lemma PassKeepsConsistent(s: State, due: seq<OutboxEffect>)
    requires RepositoryOk(s.repo) && IsDueList(s.repo.effects, s.now, due)
    ensures QueueOk(s.repo, due)
  {
    forall i | 0 <= i < |due| ensures SnapshotOk(s.repo, due[i]) {
      assert EffectOk(s.repo, due[i].id);
    }
  }

  lemma ProceedKeepsConsistent(s: State, c: Choice)
    requires Consistent(s)
    ensures Consistent(Proceed(s, c))
  {
    if s.at.Draining? {
      DrainKeepsConsistent(s, s.at.queue, s.at.phase, c.reply);
    } else if s.at.LoadProjection? || s.at.ReadForCopy? || s.at.ReadForDeletion? || s.at.RestoreRead? {
      ReadKeepsConsistent(s, c);
    } else if !s.at.Idle? {
      WriteKeepsConsistent(s, c);
    }
  }

  lemma NoticeKeepsOk(r: Repository, notice: Notice, status: NoticeStatus)
    requires RepositoryOk(r)
    ensures RepositoryOk(SetNotice(r, notice, status))
  {
    forall id | id in r.effects ensures EffectOk(SetNotice(r, notice, status), id) { assert EffectOk(r, id); }
  }

  lemma StepKeepsConsistent(s: State, step: Step)
    requires Consistent(s)
    ensures Consistent(Next(s, step))
  {
    match step
    case Advance(choice) => ProceedKeepsConsistent(s, choice);
    case StartDrain(due) => if s.at.Idle? && IsDueList(s.repo.effects, s.now, due) { PassKeepsConsistent(s, due); }
    case Acknowledge(id) =>
      if id in s.reading && id in s.repo.notices {
        NoticeKeepsOk(s.repo, s.repo.notices[id].(id := id), Acknowledged);
        if s.at.Draining? { assert QueueOk(Next(s, step).repo, s.at.queue); }
      }
    case _ =>
  }

  lemma {:induction false} RunKeepsConsistent(s: State, steps: seq<Step>)
    requires Consistent(s)
    ensures Consistent(Run(s, steps))
    decreases |steps|
  {
    if steps != [] {
      StepKeepsConsistent(s, steps[0]);
      RunKeepsConsistent(Next(s, steps[0]), steps[1..]);
    }
  }

  /* ----- the freeze ----- */

  ghost predicate NothingUnfinished(r: Repository, key: ProjectionKey) {
    forall id :: id in r.effects && r.effects[id].key == key ==> !Unfinished(r.effects[id].state)
  }

  /** The coordinator is not in the middle of anything that concerns `key`. */
  ghost predicate Elsewhere(at: Position, key: ProjectionKey) {
    match at
    case ReadForCopy(job, p, _) => KeyOf(job) != key
    case ReadForDeletion(job, _) => KeyOf(job) != key
    case SaveHold(p, _) => p.key != key
    case RecordNotice(_, _, next) => next.Some? ==> next.value.key != key
    case Queue(effect, _) => effect.key != key
    case DropProjection(k, _) => k != key
    case SaveReleased(notice, p, _) => notice.key != key
    case RestoreRead(notice, p) => notice.key != key
    case Draining(queue, _) => forall i :: 0 <= i < |queue| ==> queue[i].key != key
    case _ => true
  }

  ghost predicate Quiet(s: State, key: ProjectionKey) {
    && Consistent(s)
    && key in s.repo.projections && Frozen(s.repo.projections[key])
    && NothingUnfinished(s.repo, key)
    && Elsewhere(s.at, key)
  }

  /** From `s` to `t` the projection is as it was and nothing was sent for it. */
  ghost predicate LeftAlone(s: State, t: State, key: ProjectionKey) {
    && Lookup(t.repo.projections, key) == Lookup(s.repo.projections, key)
    && s.sent <= t.sent
    && (forall i :: |s.sent| <= i < |t.sent| ==> t.sent[i].key != key)
  }

  predicate Resolves(s: State, step: Step, key: ProjectionKey) {
    step.StartResolve? && step.noticeId in s.repo.notices && s.repo.notices[step.noticeId].key == key
  }

  /** No step of the run resolves a notice of `key`. */
  ghost predicate NeverResolves(s: State, steps: seq<Step>, key: ProjectionKey)
    decreases |steps|
  {
    steps == [] || (!Resolves(s, steps[0], key) && NeverResolves(Next(s, steps[0]), steps[1..], key))
  }

  /** A drain step changes and sends nothing but the effect at its head. */
  lemma DrainMindsItsHead(s: State, queue: seq<OutboxEffect>, phase: Phase, reply: Reply)
    requires queue != []
    ensures var t := OnDrain(s, queue, phase, reply);
            && (forall id :: id != queue[0].id ==> Lookup(t.repo.effects, id) == Lookup(s.repo.effects, id))
            && (forall key :: key != queue[0].key ==> Lookup(t.repo.projections, key) == Lookup(s.repo.projections, key))
            && (t.sent == s.sent || t.sent == s.sent + [queue[0]])
  {
  }

  lemma StillNothing(r: Repository, r': Repository, head: nat, key: ProjectionKey)
    requires NothingUnfinished(r, key) && SameFiling(r, r')
    requires forall id :: id != head ==> Lookup(r'.effects, id) == Lookup(r.effects, id)
    requires head in r.effects ==> r.effects[head].key != key
    ensures NothingUnfinished(r', key)
  {
    forall id | id in r'.effects && r'.effects[id].key == key ensures !Unfinished(r'.effects[id].state) {
      assert id != head && Lookup(r'.effects, id) == Lookup(r.effects, id);
    }
  }

  lemma DrainStaysElsewhere(s: State, queue: seq<OutboxEffect>, phase: Phase, reply: Reply, key: ProjectionKey)
    requires queue != [] && Elsewhere(Draining(queue, phase), key)
    ensures Elsewhere(OnDrain(s, queue, phase, reply).at, key)
  {
  }

  lemma DrainLeavesAlone(s: State, queue: seq<OutboxEffect>, phase: Phase, reply: Reply, key: ProjectionKey)
    requires Quiet(s, key) && s.at == Draining(queue, phase)
    ensures Quiet(OnDrain(s, queue, phase, reply), key)
    ensures LeftAlone(s, OnDrain(s, queue, phase, reply), key)
  {
    DrainKeepsConsistent(s, queue, phase, reply);
    if queue != [] {
      assert SnapshotOk(s.repo, queue[0]) && queue[0].key != key;
      DrainMindsItsHead(s, queue, phase, reply);
      var t := OnDrain(s, queue, phase, reply);
      DrainKeepsRepository(s, queue, phase, reply);
      StillNothing(s.repo, t.repo, queue[0].id, key);
      DrainStaysElsewhere(s, queue, phase, reply, key);
    }
  }

  /** Outside the drain a step that is busy elsewhere neither sends nor touches the frozen projection. */
  lemma WorkLeavesAlone(s: State, c: Choice, key: ProjectionKey)
    requires Quiet(s, key) && !s.at.Draining?
    ensures var t := Proceed(s, c);
            && LeftAlone(s, t, key) && Elsewhere(t.at, key)
            && (s.at.Queue? || t.repo.effects == s.repo.effects)
  {
  }

  lemma ProceedLeavesAlone(s: State, c: Choice, key: ProjectionKey)
    requires Quiet(s, key)
    ensures Quiet(Proceed(s, c), key) && LeftAlone(s, Proceed(s, c), key)
  {
    if s.at.Draining? {
      DrainLeavesAlone(s, s.at.queue, s.at.phase, c.reply, key);
    } else {
      ProceedKeepsConsistent(s, c);
      WorkLeavesAlone(s, c, key);
      if s.at.Queue? { assert NothingUnfinished(EnqueueEffect(s.repo, s.at.effect), key); }
    }
  }

  lemma StepLeavesAlone(s: State, step: Step, key: ProjectionKey)
    requires Quiet(s, key) && !Resolves(s, step, key)
    ensures Quiet(Next(s, step), key) && LeftAlone(s, Next(s, step), key)
  {
    StepKeepsConsistent(s, step);
    match step
    case Advance(choice) => ProceedLeavesAlone(s, choice, key);
    case _ =>
  }

  lemma {:induction false} RunLeavesAlone(s: State, steps: seq<Step>, key: ProjectionKey)
    requires Quiet(s, key) && NeverResolves(s, steps, key)
    ensures LeftAlone(s, Run(s, steps), key) && NothingUnfinished(Run(s, steps).repo, key)
    decreases |steps|
  {
    if steps != [] {
      StepLeavesAlone(s, steps[0], key);
      RunLeavesAlone(Next(s, steps[0]), steps[1..], key);
    }
  }

  /** Nothing can be resolved for a detached copy any more. */
  lemma DetachedStep(s: State, step: Step, key: ProjectionKey)
    requires Quiet(s, key) && s.repo.projections[key].detached
    ensures Quiet(Next(s, step), key) && LeftAlone(s, Next(s, step), key)
  {
    if Resolves(s, step, key) {
      assert Next(s, step) == if s.at.Idle? then s.(at := Idle) else s;
    } else {
      StepLeavesAlone(s, step, key);
    }
  }

  /** A detached copy stays detached in every run, whatever notices are resolved. */
  lemma {:induction false} DetachedForGood(s: State, steps: seq<Step>, key: ProjectionKey)
    requires Quiet(s, key) && s.repo.projections[key].detached
    ensures LeftAlone(s, Run(s, steps), key) && NothingUnfinished(Run(s, steps).repo, key)
    decreases |steps|
  {
    if steps != [] {
      DetachedStep(s, steps[0], key);
      DetachedForGood(Next(s, steps[0]), steps[1..], key);
    }
  }
}
