/**
 What becomes of a held copy when a person answers its notice: restoring puts the source's copy back, or
 removes the copy if the source no longer projects; keeping the change lets go of it.
 */
module NoticeResolution {
  import opened Options
  import opened SyncProtocol
  import opened OwnershipSafety
  import opened CrashReplay
  import opened RepairPass

  /** An open decision notice on a held copy that has not been detached. */
  predicate AwaitsDecision(s: State, notice: Notice, p: StoredProjection) {
    && Lookup(s.repo.notices, notice.id) == Some(notice)
    && CarriesDecision(notice.kind) && !notice.status.Resolved?
    && Lookup(s.repo.projections, notice.key) == Some(p) && p.key == notice.key && p.hold.Some? && !p.detached
  }

  predicate Foreign(s: State, p: StoredProjection) {
    p.slot in s.cloud.remote && !IsOwned(s.cloud.remote[p.slot], p.key.policy, p.slot.eventId)
  }

  /** The policy is known and the destination answers. */
  predicate Answered(c: Choice, key: ProjectionKey) {
    c.reply.Answer? && c.policy.Some? && c.policy.value.id == key.policy
  }

  predicate StillProjects(c: Choice, desired: DesiredCopy) { c.event.Some? && c.decision == CopyAs(desired) }

  predicate NoLongerProjects(c: Choice) { c.event.None? || !c.decision.CopyAs? }

  /** Four awaits are enough for any answer. */
  function Resolving(id: nat, action: Resolution, c: Choice): seq<Step> {
    [StartResolve(id, action), Advance(c), Advance(c), Advance(c), Advance(c)]
  }

  lemma ResolvingIsRun(s: State, id: nat, action: Resolution, c: Choice)
    ensures Run(s, Resolving(id, action, c)) ==
            Proceed(Proceed(Proceed(Proceed(Next(s, StartResolve(id, action)), c), c), c), c)
  {
    var a := Advance(c);
    assert Resolving(id, action, c)[1..] == [a, a, a, a];
    FourAdvances(Next(s, StartResolve(id, action)), c);
  }

  function Released(s: State, p: StoredProjection): Repository { SaveProjection(s.repo, p.(hold := None)) }

  /** The notice is resolved and `r` is what is left otherwise. */
  function Concluded(s: State, notice: Notice, r: Repository): State {
    s.(repo := r.(notices := s.repo.notices[notice.id := notice.(status := Resolved)]))
  }

  /* ----- restore ----- */

  /** The write that puts the source's copy back. */
  function Restoration(s: State, key: ProjectionKey, p: StoredProjection, desired: DesiredCopy, policy: Policy,
                       event: SourceEvent): OutboxEffect
  {
    if p.slot in s.cloud.remote then
      NewEffect(s.now, Update, policy, event.rev, key, p.slot, Some(s.cloud.remote[p.slot].rev), Some(desired), Digest(desired))
    else NewEffect(s.now, Create, policy, event.rev, key, p.slot, None, Some(desired), Digest(desired))
  }

  function AtRead(s: State, notice: Notice, p: StoredProjection): State {
    s.(repo := Released(s, p), at := RestoreRead(notice, p.(hold := None)))
  }

  /** Restoring first releases the copy and then reads it. */
  lemma ReadsAfterRelease(s: State, notice: Notice, p: StoredProjection, c: Choice)
    requires s.at.Idle? && AwaitsDecision(s, notice, p)
    ensures Run(s, Resolving(notice.id, Restore, c)) == Proceed(Proceed(Proceed(AtRead(s, notice, p), c), c), c)
  {
    ResolvingIsRun(s, notice.id, Restore, c);
    var s1 := Next(s, StartResolve(notice.id, Restore));
    assert s1 == s.(at := SaveReleased(notice, p.(hold := None), Restore));
    assert Proceed(s1, c) == AtRead(s, notice, p);
  }

  lemma QueuedThenResolved(u: State, e: OutboxEffect, notice: Notice, c: Choice)
    requires u.at == Queue(e, Some(notice))
    ensures Proceed(Proceed(u, c), c) == Concluded(u, notice, EnqueueEffect(u.repo, e)).(at := Idle)
  {
    assert Proceed(u, c) == u.(repo := EnqueueEffect(u.repo, e), at := MarkResolved(notice));
  }

  lemma ReadLeadsTo(s: State, notice: Notice, p: StoredProjection, c: Choice, e: OutboxEffect)
    requires s.at.Idle? && AfterRead(s, notice, p, c) == Queue(e, Some(notice)) && AwaitsDecision(s, notice, p)
    ensures Run(s, Resolving(notice.id, Restore, c)) == Concluded(s, notice, EnqueueEffect(Released(s, p), e))
  {
    ReadsAfterRelease(s, notice, p, c);
    var u := AtRead(s, notice, p).(at := Queue(e, Some(notice)));
    assert Proceed(AtRead(s, notice, p), c) == u;
    QueuedThenResolved(u, e, notice, c);
  }

  /** Where the read leads. */
  function AfterRead(s: State, notice: Notice, p: StoredProjection, c: Choice): Position {
    Proceed(AtRead(s, notice, p), c).at
  }

  /** While the source projects, restoring releases the copy, queues one create or guarded update of the desired
      copy and resolves the notice. */
  lemma RestoreQueued(s: State, notice: Notice, p: StoredProjection, desired: DesiredCopy, c: Choice)
    requires s.at.Idle? && AwaitsDecision(s, notice, p) && !Foreign(s, p)
    requires Answered(c, notice.key) && StillProjects(c, desired)
    ensures Run(s, Resolving(notice.id, Restore, c)) ==
            Concluded(s, notice,
                      EnqueueEffect(Released(s, p), Restoration(s, notice.key, p, desired, c.policy.value, c.event.value)))
  {
    ReadLeadsTo(s, notice, p, c, Restoration(s, notice.key, p, desired, c.policy.value, c.event.value));
  }

  /** If the source no longer projects and the copy is gone already, the records forget it. */
  lemma RestoreForgets(s: State, notice: Notice, p: StoredProjection, c: Choice)
    requires s.at.Idle? && AwaitsDecision(s, notice, p) && p.slot !in s.cloud.remote
    requires Answered(c, notice.key) && NoLongerProjects(c)
    ensures Run(s, Resolving(notice.id, Restore, c)) ==
            Concluded(s, notice, s.repo.(projections := s.repo.projections - {notice.key}))
  {
    ReadsAfterRelease(s, notice, p, c);
    var s2 := AtRead(s, notice, p);
    assert Proceed(s2, c) == s2.(at := DropProjection(notice.key, Some(notice)));
    assert s2.repo.projections - {notice.key} == s.repo.projections - {notice.key};
  }

  /** The guarded delete of the copy. */
  function Withdrawal(s: State, key: ProjectionKey, p: StoredProjection, policy: Policy, rev: Option<string>): OutboxEffect
    requires p.slot in s.cloud.remote
  {
    NewEffect(s.now, Delete, policy, rev, key, p.slot, Some(s.cloud.remote[p.slot].rev), None, p.digest)
  }

  function RevisionOf(event: Option<SourceEvent>): Option<string> { if event.Some? then event.value.rev else None }

  /** If the source no longer projects, the delete of a copy that is still there is queued. */
  lemma RestoreRemoves(s: State, notice: Notice, p: StoredProjection, c: Choice)
    requires s.at.Idle? && AwaitsDecision(s, notice, p) && !Foreign(s, p) && p.slot in s.cloud.remote
    requires Answered(c, notice.key) && NoLongerProjects(c)
    ensures Run(s, Resolving(notice.id, Restore, c)) ==
            Concluded(s, notice,
                      EnqueueEffect(Released(s, p), Withdrawal(s, notice.key, p, c.policy.value, RevisionOf(c.event))))
  {
    ReadLeadsTo(s, notice, p, c, Withdrawal(s, notice.key, p, c.policy.value, RevisionOf(c.event)));
  }

  /** Without the policy or an answer, or before somebody else's event, restoring fails after the release: nothing
      is queued and the notice stays open. */
  lemma RestoreFails(s: State, notice: Notice, p: StoredProjection, c: Choice)
    requires s.at.Idle? && AwaitsDecision(s, notice, p) && (Foreign(s, p) || !Answered(c, notice.key))
    ensures Run(s, Resolving(notice.id, Restore, c)) == s.(repo := Released(s, p))
  {
    ReadsAfterRelease(s, notice, p, c);
    assert Proceed(AtRead(s, notice, p), c) == s.(repo := Released(s, p));
  }

  /** After that the open notice cannot be answered any more: its copy is not held. */
  lemma FailedIsStale(s: State, notice: Notice, p: StoredProjection, c: Choice, action: Resolution, again: Choice)
    requires s.at.Idle? && AwaitsDecision(s, notice, p) && (Foreign(s, p) || !Answered(c, notice.key))
    ensures var t := Run(s, Resolving(notice.id, Restore, c));
            && Lookup(t.repo.notices, notice.id) == Some(notice)
            && Run(t, Resolving(notice.id, action, again)) == t
  {
    RestoreFails(s, notice, p, c);
    var t := s.(repo := Released(s, p));
    ResolvingIsRun(t, notice.id, action, again);
    assert Next(t, StartResolve(notice.id, action)) == t;
  }

  /* ----- keep and detach ----- */

  /** Keeping the change touches neither calendars nor outbox; the copy is detached and the notice resolved. */
  lemma KeptAsIs(s: State, notice: Notice, p: StoredProjection, c: Choice)
    requires s.at.Idle? && AwaitsDecision(s, notice, p)
    ensures Run(s, Resolving(notice.id, KeepAndDetach, c)) ==
            Concluded(s, notice, SaveProjection(s.repo, p.(hold := None, detached := true)))
  {
    ResolvingIsRun(s, notice.id, KeepAndDetach, c);
    var s1 := Next(s, StartResolve(notice.id, KeepAndDetach));
    assert s1 == s.(at := SaveReleased(notice, p.(hold := None, detached := true), KeepAndDetach));
  }

  /** A notice that awaits no decision cannot be answered. */
  lemma NothingToAnswer(s: State, id: nat, action: Resolution, c: Choice)
    requires s.at.Idle? && (id in s.repo.notices ==> s.repo.notices[id].id == id)
    requires forall key :: key in s.repo.projections ==> s.repo.projections[key].key == key
    requires forall notice, p :: AwaitsDecision(s, notice, p) ==> notice.id != id
    ensures Run(s, Resolving(id, action, c)) == s
  {
    ResolvingIsRun(s, id, action, c);
    if id in s.repo.notices && s.repo.notices[id].key in s.repo.projections {
      var notice := s.repo.notices[id];
      assert !AwaitsDecision(s, notice, s.repo.projections[notice.key]);
    }
  }

  /* ----- and then the drain ----- */

  lemma ResolvedReady(s: State, notice: Notice, p: StoredProjection, e: OutboxEffect, c: Choice) returns (id: nat)
    requires Ready(s) && Clear(s.repo, p) && p.key == notice.key
    requires Run(s, Resolving(notice.id, Restore, c)) == Concluded(s, notice, EnqueueEffect(Released(s, p), e))
    requires e.idempotencyKey.slot == p.slot && e.mutation.slot == p.slot && e.key == p.key && Sendable(e.mutation)
    requires Unfinished(e.state)
    ensures var t := Run(s, Resolving(notice.id, Restore, c)); Ready(t) && Open(t, id) && t.repo.effects[id] == e.(id := id)
  {
    RunKeepsSafe(s, Resolving(notice.id, Restore, c));
    id := QueuedReady(s, Run(s, Resolving(notice.id, Restore, c)), Released(s, p), e, p);
  }

  /** A restored copy is put back: whenever nothing is left to drain, however often the drain was cut, the slot
      shows what the source projects and the projection records it without a hold. */
  lemma Restored(s: State, notice: Notice, p: StoredProjection, desired: DesiredCopy, c: Choice, drain: seq<Step>)
    requires Ready(s) && Clear(s.repo, p) && AwaitsDecision(s, notice, p) && !Foreign(s, p)
    requires Answered(c, notice.key) && StillProjects(c, desired)
    requires DrainRun(drain) && NothingLeft(Run(Run(s, Resolving(notice.id, Restore, c)), drain))
    ensures Shows(Run(Run(s, Resolving(notice.id, Restore, c)), drain), notice.key, p.slot, desired)
  {
    RestoreQueued(s, notice, p, desired, c);
    var e := Restoration(s, notice.key, p, desired, c.policy.value, c.event.value);
    var id := ResolvedReady(s, notice, p, e, c);
    DrainedAway(Run(s, Resolving(notice.id, Restore, c)), id, drain);
  }

  predicate Vanished(s: State, key: ProjectionKey, slot: Slot) { key !in s.repo.projections && slot !in s.cloud.remote }

  /** If the source no longer projects, restoring removes the copy: in the end slot and records are empty. */
  lemma Withdrawn(s: State, notice: Notice, p: StoredProjection, c: Choice, drain: seq<Step>)
    requires Ready(s) && Clear(s.repo, p) && AwaitsDecision(s, notice, p) && !Foreign(s, p)
    requires Answered(c, notice.key) && NoLongerProjects(c)
    requires DrainRun(drain) && NothingLeft(Run(Run(s, Resolving(notice.id, Restore, c)), drain))
    ensures Vanished(Run(Run(s, Resolving(notice.id, Restore, c)), drain), notice.key, p.slot)
  {
    var t := Run(s, Resolving(notice.id, Restore, c));
    if p.slot in s.cloud.remote {
      RestoreRemoves(s, notice, p, c);
      var id := ResolvedReady(s, notice, p, Withdrawal(s, notice.key, p, c.policy.value, RevisionOf(c.event)), c);
      DrainedAway(t, id, drain);
    } else {
      RestoreForgets(s, notice, p, c);
      RunKeepsSafe(s, Resolving(notice.id, Restore, c));
      DrainedPast(s, t, p, drain);
    }
  }
}
