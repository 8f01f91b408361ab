/**
 One reconcile pass over any source event: when it leaves everything alone, when it makes a first copy, when it
 removes one, and what becomes of a copy whose policy writes to another calendar now.
 */
module ReconcilePass {
  import opened Options
  import opened SyncProtocol
  import opened OwnershipSafety
  import opened CrashReplay
  import opened RepairPass
  import opened NoticeResolution

  function Known(s: State, job: Job): Option<StoredProjection> { Lookup(s.repo.projections, KeyOf(job)) }

  /** The copy lies where the policy used to write. */
  predicate Moved(job: Job, p: StoredProjection) { p.slot.endpoint != job.policy.destination }

  /* ----- removing a copy ----- */

  /** The pass has to take the copy away: it lies on a former destination, whatever is decided about the event, or
      the event is not to be copied any more. */
  predicate ToRemove(s: State, job: Job, p: StoredProjection, c: Choice) {
    && Known(s, job) == Some(p) && p.key == KeyOf(job) && !Frozen(p)
    && (Moved(job, p) || c.decision.Remove?)
  }

  /** One delete is queued, guarded by the revision that the destination shows. */
  lemma RemovalQueued(s: State, job: Job, p: StoredProjection, c: Choice)
    requires ToRemove(s, job, p, c) && !Foreign(s, p) && p.slot in s.cloud.remote && c.reply.Answer? && s.at.Idle?
    ensures PassOver(s, job, c) == s.(repo := EnqueueEffect(s.repo, Withdrawal(s, KeyOf(job), p, job.policy, job.event.rev)))
  {
    assert Proceed(s.(at := LoadProjection(job)), c) == s.(at := ReadForDeletion(job, p));
  }

  /** A copy that is gone already is forgotten. */
  lemma RemovalForgets(s: State, job: Job, p: StoredProjection, c: Choice)
    requires ToRemove(s, job, p, c) && p.slot !in s.cloud.remote && c.reply.Answer? && s.at.Idle?
    ensures PassOver(s, job, c) == s.(repo := s.repo.(projections := s.repo.projections - {KeyOf(job)}))
  {
    assert Proceed(s.(at := LoadProjection(job)), c) == s.(at := ReadForDeletion(job, p));
  }

  /** Once nothing is left to drain, however often the drain was cut, slot and records are empty. */
  lemma RemovedInTheEnd(s: State, job: Job, p: StoredProjection, c: Choice, drain: seq<Step>)
    requires Ready(s) && Clear(s.repo, p) && ToRemove(s, job, p, c) && !Foreign(s, p) && c.reply.Answer?
    requires DrainRun(drain) && NothingLeft(Run(Run(s, Pass(job, c)), drain))
    ensures Vanished(Run(Run(s, Pass(job, c)), drain), KeyOf(job), p.slot)
  {
    PassIsRun(s, job, c);
    RunKeepsSafe(s, Pass(job, c));
    var t := PassOver(s, job, c);
    if p.slot in s.cloud.remote {
      RemovalQueued(s, job, p, c);
      var id := QueuedReady(s, t, s.repo, Withdrawal(s, KeyOf(job), p, job.policy, job.event.rev), p);
      DrainedAway(t, id, drain);
    } else {
      RemovalForgets(s, job, p, c);
      DrainedPast(s, t, p, drain);
    }
  }

  /* ----- when two passes ask for the same ----- */

  function Version(sourceRev: Option<string>): string { if sourceRev == None then "unversioned" else sourceRev.value }

  /** What a pass can ask the outbox for. */
  datatype Wish = Wish(
    now: nat, op: Operation, policy: Policy, rev: Option<string>, key: ProjectionKey, slot: Slot, expected: Option<nat>,
    desired: Option<DesiredCopy>, digest: Digest)

  function IntentOf(w: Wish): IdempotencyKey {
    NewEffect(w.now, w.op, w.policy, w.rev, w.key, w.slot, w.expected, w.desired, w.digest).idempotencyKey
  }

  /** Two wishes are one intent exactly if they do the same to the same slot, under one policy revision, for one version
      of the source, an absent version counting as the word unversioned, and towards the same copy. */
  lemma IntentsExactly(a: Wish, b: Wish)
    ensures IntentOf(a) == IntentOf(b) <==>
            && a.op == b.op && a.slot == b.slot && a.policy.revision == b.policy.revision
            && Version(a.rev) == Version(b.rev) && a.digest == b.digest
  {
  }

  /* ----- a first copy ----- */

  function FirstCopy(now: nat, job: Job, eventId: string, desired: DesiredCopy): OutboxEffect {
    NewEffect(now, Create, job.policy, job.event.rev, KeyOf(job), Slot(job.policy.destination, eventId), None,
              Some(desired), Digest(desired))
  }

  /** Without a recorded copy the pass queues one create where the policy writes now. */
  lemma FirstCopyQueued(s: State, job: Job, c: Choice, desired: DesiredCopy)
    requires s.at.Idle? && Known(s, job).None? && c.decision == CopyAs(desired)
    ensures PassOver(s, job, c) == s.(repo := EnqueueEffect(s.repo, FirstCopy(s.now, job, c.eventId, desired)))
  {
    assert Proceed(s.(at := LoadProjection(job)), c) == s.(at := Queue(FirstCopy(s.now, job, c.eventId, desired), None));
  }

  /** In the end the copy is there and recorded, unless somebody else's event stands in its place. */
  lemma FirstCopyShown(s: State, job: Job, c: Choice, desired: DesiredCopy, drain: seq<Step>)
    requires Ready(s) && Known(s, job).None? && c.decision == CopyAs(desired)
    requires var slot := Slot(job.policy.destination, c.eventId);
             && slot !in s.cloud.remote
             && Clear(s.repo, StoredProjection(KeyOf(job), slot, Digest(desired), None, None, false))
    requires DrainRun(drain) && NothingLeft(Run(Run(s, Pass(job, c)), drain))
    ensures Shows(Run(Run(s, Pass(job, c)), drain), KeyOf(job), Slot(job.policy.destination, c.eventId), desired)
  {
    PassIsRun(s, job, c);
    RunKeepsSafe(s, Pass(job, c));
    FirstCopyQueued(s, job, c, desired);
    var t := PassOver(s, job, c);
    var e := FirstCopy(s.now, job, c.eventId, desired);
    var id := QueuedReady(s, t, s.repo, e, StoredProjection(KeyOf(job), e.mutation.slot, Digest(desired), None, None, false));
    DrainedAway(t, id, drain);
  }

  /* ----- a copy that moves ----- */

  /** The policy writes to another calendar now: after a pass and a drain nothing is left of the old copy, and the
      next pass queues one create on the new calendar. */
  lemma MovesOver(s: State, job: Job, p: StoredProjection, c: Choice, drain: seq<Step>, next: Choice, desired: DesiredCopy)
    requires Ready(s) && Clear(s.repo, p) && Known(s, job) == Some(p) && p.key == KeyOf(job) && !Frozen(p)
    requires Moved(job, p) && !Foreign(s, p) && c.reply.Answer?
    requires DrainRun(drain) && NothingLeft(Run(Run(s, Pass(job, c)), drain)) && next.decision == CopyAs(desired)
    ensures var u := Run(Run(s, Pass(job, c)), drain);
            && Vanished(u, KeyOf(job), p.slot)
            && Run(u, Pass(job, next)) == u.(repo := EnqueueEffect(u.repo, FirstCopy(u.now, job, next.eventId, desired)))
  {
    RemovedInTheEnd(s, job, p, c, drain);
    var u := Run(Run(s, Pass(job, c)), drain);
    PassIsRun(u, job, next);
    FirstCopyQueued(u, job, next, desired);
  }

  /* ----- nothing to do ----- */

  predicate UpToDate(s: State, p: StoredProjection, desired: DesiredCopy) { !Drifted(s, p) && p.digest == Digest(desired) }

  /** The copy is frozen, the destination does not answer or shows somebody else's event there, there is nothing to
      copy or to remove, or the copy is as it should be. */
  predicate Quiet(s: State, job: Job, c: Choice) {
    match Known(s, job)
    case None => !c.decision.CopyAs?
    case Some(p) =>
      || Frozen(p)
      || (!Moved(job, p) && c.decision.Omit?)
      || c.reply.Fault? || Foreign(s, p)
      || (!Moved(job, p) && c.decision.CopyAs? && UpToDate(s, p, c.decision.desired))
  }

  lemma QuietStays(s: State, job: Job, c: Choice)
    requires s.at.Idle? && Quiet(s, job, c) && (Known(s, job).Some? ==> Known(s, job).value.key == KeyOf(job))
    ensures PassOver(s, job, c) == s
  {
    if Known(s, job).Some? {
      var p := Known(s, job).value;
      var s1 := Proceed(s.(at := LoadProjection(job)), c);
      assert s1 == s || s1 == s.(at := ReadForDeletion(job, p))
          || (c.decision.CopyAs? && s1 == s.(at := ReadForCopy(job, p, c.decision.desired)));
      assert Proceed(s1, c) == s;
    }
  }

  /** Every pass that is not quiet makes a first copy, removes one, holds one for review, or repairs one. */
  lemma EveryPass(s: State, job: Job, c: Choice)
    requires s.at.Idle? && !Quiet(s, job, c) && (Known(s, job).Some? ==> Known(s, job).value.key == KeyOf(job))
    ensures match Known(s, job)
            case None => c.decision.CopyAs?
            case Some(p) =>
              || ToRemove(s, job, p, c)
              || (&& InCare(s, job, p) && Decides(c, c.decision.desired)
                  && (|| (Drifted(s, p) && Response(s, job, p).HoldForReview?)
                      || Repairs(s, job, p, c.decision.desired)))
  {
  }
}
