/**
 The case the freeze does not cover is a real one: a copy is held while an effect of it is still unfinished.
 */
module HeldBehind {
  import opened Options
  import opened SyncProtocol
  import opened OwnershipSafety
  import opened HoldFreeze
  import opened HoldLanding
  import RepairPass

  const NOTHING := State(Provider(map[], 0, map[], []), Repository(map[], map[], map[], map[], 0), 0, Idle, [], multiset{})

  ghost predicate NobodyResolves(steps: seq<Step>) { forall i :: 0 <= i < |steps| ==> !steps[i].StartResolve? }

  /** Some run from an empty repository in which nobody resolves anything leads to `t`. */
  ghost predicate Comes(t: State) { exists steps :: NobodyResolves(steps) && Run(NOTHING, steps) == t }

  lemma ComesThen(t: State, step: Step)
    requires Comes(t) && !step.StartResolve?
    ensures Comes(Next(t, step))
  {
    var steps :| NobodyResolves(steps) && Run(NOTHING, steps) == t;
    RunThen(NOTHING, steps, t, step);
    assert NobodyResolves(steps + [step]);
  }

  lemma ComesBy(t: State, more: seq<Step>)
    requires Comes(t) && NobodyResolves(more)
    ensures Comes(Run(t, more))
  {
    var steps :| NobodyResolves(steps) && Run(NOTHING, steps) == t;
    RunConcat(NOTHING, steps, more);
    assert NobodyResolves(steps + more);
  }

  lemma ComesOn(t: State, u: State)
    requires Comes(t) && Leads(t, u)
    ensures Comes(u)
  {
    var more :| Unattended(more) && Run(t, more) == u;
    ComesBy(t, more);
  }

  lemma ComesConsistent(t: State)
    requires Comes(t)
    ensures Consistent(t)
  {
    var steps :| NobodyResolves(steps) && Run(NOTHING, steps) == t;
    RunKeepsConsistent(NOTHING, steps);
  }

  function Creation(job: Job, c: Choice, desired: DesiredCopy): OutboxEffect {
    NewEffect(0, Create, job.policy, job.event.rev, KeyOf(job), Slot(job.policy.destination, c.eventId), None,
              Some(desired), Digest(desired))
  }

  /** The first pass over an event queues its create. */
  lemma CreateQueued(job: Job, c: Choice, desired: DesiredCopy) returns (t: State)
    requires RepairPass.Decides(c, desired)
    ensures Comes(t) && t.at.Idle? && t.now == 0 && t.repo.effects == map[0 := Creation(job, c, desired)]
    ensures t.repo.byIdempotencyKey == map[Creation(job, c, desired).idempotencyKey := 0]
    ensures IsDueList(t.repo.effects, t.now, [Creation(job, c, desired)])
  {
    assert NobodyResolves([]) && Run(NOTHING, []) == NOTHING;
    ComesThen(NOTHING, StartReconcile(job));
    t := Next(NOTHING, StartReconcile(job));
    ComesThen(t, Advance(c));
    t := Next(t, Advance(c));
    assert t.at == Queue(Creation(job, c, desired), None);
    ComesThen(t, Advance(c));
    t := Next(t, Advance(c));
  }

  /** The create lands and is recorded, and the app stops before it is marked as done. */
  lemma CreateInterrupted(job: Job, c: Choice, desired: DesiredCopy) returns (t: State)
    requires RepairPass.Decides(c, desired)
    ensures Comes(t) && t.at.Idle? && HoldLanding.Recorded(t, Creation(job, c, desired))
    ensures t.now == 0 && t.repo.effects == map[0 := Creation(job, c, desired).(state := Applying, attempts := 1)]
    ensures t.repo.byIdempotencyKey == map[Creation(job, c, desired).idempotencyKey := 0]
  {
    var s := CreateQueued(job, c, desired);
    t := CreationLands(s, [Creation(job, c, desired)]);
    ComesOn(s, t);
    ComesThen(t, Interrupt(true));
    t := Next(t, Interrupt(true));
  }

  /** Somebody edits the copy in place. */
  lemma EditedAfter(t: State, job: Job, c: Choice, desired: DesiredCopy) returns (u: State, p: StoredProjection)
    requires Comes(t) && t.at.Idle? && HoldLanding.Recorded(t, Creation(job, c, desired))
    ensures Comes(u) && u.at.Idle? && u.repo == t.repo
    ensures RepairPass.InCare(u, job, p) && RepairPass.Drifted(u, p) && !RepairPass.Missing(u, p)
  {
    var slot := Slot(job.policy.destination, c.eventId);
    var edit := Outside(slot, Put(true, Some(job.policy.id), Some(c.eventId), desired));
    ComesThen(t, edit);
    u := Next(t, edit);
    p := t.repo.projections[KeyOf(job)];
  }

  /** From an empty repository, for every event that is to be copied under a policy that holds edits for
      review, some run without any resolution ends with the copy held and an effect of it unfinished; and
      some continuation of it undoes the hold. */
  lemma HeldWithUnfinished(job: Job, c: Choice, desired: DesiredCopy) returns (steps: seq<Step>, more: seq<Step>)
    requires RepairPass.Decides(c, desired) && job.policy.onEdit.HoldForReview?
    ensures Initial(NOTHING) && NobodyResolves(steps) && Unattended(more)
    ensures var t := Run(NOTHING, steps); var key := KeyOf(job);
            && t.at.Idle? && Consistent(t) && key in t.repo.projections && t.repo.projections[key].hold.Some?
            && !NothingUnfinished(t.repo, key) && Thawed(Run(t, more), key)
  {
    var t := CreateInterrupted(job, c, desired);
    var u, p := EditedAfter(t, job, c, desired);
    var v := HoldIt(u, job, c, desired, p);
    ComesConsistent(v);
    steps :| NobodyResolves(steps) && Run(NOTHING, steps) == v;
    var w := UnfinishedThaws(v, 0);
    more :| Unattended(more) && Run(v, more) == w;
  }

  lemma HoldIt(u: State, job: Job, c: Choice, desired: DesiredCopy, p: StoredProjection) returns (v: State)
    requires RepairPass.Decides(c, desired) && job.policy.onEdit.HoldForReview? && Comes(u) && u.at.Idle?
    requires RepairPass.InCare(u, job, p) && RepairPass.Drifted(u, p) && !RepairPass.Missing(u, p)
    ensures Comes(v) && v.at.Idle? && v.repo.effects == u.repo.effects
    ensures KeyOf(job) in v.repo.projections
    ensures var held := v.repo.projections[KeyOf(job)]; held.hold.Some? && !held.detached
    ensures v.repo.nextId == u.repo.nextId + 1
    ensures exists kind :: CarriesDecision(kind) && v.repo.notices ==
              u.repo.notices[u.repo.nextId := Notice(u.repo.nextId, KeyOf(job), kind, Unread)]
  {
    v := RepairPass.PassOver(u, job, c);
    RepairPass.ReviewHolds(u, job, p, desired, c);
    RepairPass.PassIsRun(u, job, c);
    assert NobodyResolves(RepairPass.Pass(job, c));
    ComesBy(u, RepairPass.Pass(job, c));
  }
}
