/**
 The case in which a removed copy comes back is a real one: a create that is waiting for another attempt is
 overtaken by the delete of the same copy.
 */
module BroughtBack {
  import opened Options
  import opened SyncProtocol
  import opened HoldFreeze
  import opened HoldLanding
  import opened HeldBehind
  import opened RemovedCopies
  import RepairPass

  /** The create, landed but not yet marked as done. */
  function Landed(job: Job, c: Choice, desired: DesiredCopy): OutboxEffect {
    Creation(job, c, desired).(state := Applying, attempts := 1)
  }

  /** The same, put off. */
  function PutOff(job: Job, c: Choice, desired: DesiredCopy): OutboxEffect {
    Landed(job, c, desired).(state := Pending, nextAttemptAt := 20)
  }

  const UNREACHABLE := Fault(Offline, false)

  lemma PickedForAdoption(s: State, e: OutboxEffect) returns (t: State)
    requires Comes(s) && s.at.Idle? && s.now == 0 && s.repo.effects == map[0 := e]
    requires e.id == 0 && e.mutation.op.Create? && e.state.Applying? && e.nextAttemptAt == 0
    ensures Comes(t) && t == s.(at := Draining([e], AdoptRead))
  {
    assert IsDueList(s.repo.effects, 0, [e]);
    ComesThen(s, StartDrain([e]));
    t := Next(s, StartDrain([e]));
    ComesThen(t, Reading(Answer));
    t := Next(t, Reading(Answer));
  }

  /** After the restart the read before the create fails, and the create is put off. */
  lemma CreatePutOff(s: State, job: Job, c: Choice, desired: DesiredCopy) returns (t: State)
    requires Comes(s) && s.at.Idle? && s.now == 0 && s.repo.effects == map[0 := Landed(job, c, desired)]
    ensures Comes(t) && t.at.Idle? && t.now == 0 && t.cloud == s.cloud && t.repo.projections == s.repo.projections
    ensures t.repo.effects == map[0 := PutOff(job, c, desired)] && t.repo.byIdempotencyKey == s.repo.byIdempotencyKey
  {
    var due := [Landed(job, c, desired)];
    t := PickedForAdoption(s, due[0]);
    ComesThen(t, Reading(UNREACHABLE));
    t := Next(t, Reading(UNREACHABLE));
    assert t.at == Draining(due, Postpone(20));
    ComesThen(t, Reading(Answer));
    t := Next(t, Reading(Answer));
  }

  function Removal(s: State, job: Job, p: StoredProjection): OutboxEffect
    requires p.slot in s.cloud.remote
  {
    NewEffect(s.now, Delete, job.policy, job.event.rev, KeyOf(job), p.slot, Some(s.cloud.remote[p.slot].rev), None, p.digest)
  }

  /** The source is gone: the pass queues the delete of the copy. */
  lemma DeleteQueued(s: State, job: Job, c: Choice, p: StoredProjection) returns (t: State)
    requires Comes(s) && s.at.Idle? && c.reply.Answer? && c.decision.Remove?
    requires RepairPass.InCare(s, job, p) && p.slot in s.cloud.remote
    ensures Comes(t) && t.at.Idle? && t.now == s.now && t.cloud == s.cloud
    ensures t.repo == EnqueueEffect(s.repo, Removal(s, job, p))
  {
    ComesThen(s, StartReconcile(job));
    t := Next(s, StartReconcile(job));
    ComesThen(t, Advance(c));
    t := Next(t, Advance(c));
    assert t.at == ReadForDeletion(job, p);
    ComesThen(t, Advance(c));
    t := Next(t, Advance(c));
    assert t.at == Queue(Removal(s, job, p), None);
    ComesThen(t, Advance(c));
    t := Next(t, Advance(c));
  }

  /** The delete is carried out and the projection dropped. */
  lemma DeleteLands(s: State, e: OutboxEffect) returns (t: State)
    requires Comes(s) && s.at.Idle? && IsDueList(s.repo.effects, s.now, [e]) && e.mutation.op.Delete?
    requires Accepts(s.cloud.remote, e.mutation)
    ensures Comes(t) && t.at.Idle? && Gone(t, e.key, e.mutation.slot)
    ensures forall id :: id in s.repo.effects && id != e.id ==> id in t.repo.effects && t.repo.effects[id] == s.repo.effects[id]
  {
    ComesThen(s, StartDrain([e]));
    t := Next(s, StartDrain([e]));
    ComesThen(t, Reading(Answer));
    t := Next(t, Reading(Answer));
    t := ClaimedAndSent(s, t, e);
    ComesThen(t, Reading(Answer));
    t := Next(t, Reading(Answer));
    ComesThen(t, Interrupt(true));
    t := Next(t, Interrupt(true));
  }

  lemma ClaimedAndSent(s: State, t: State, e: OutboxEffect) returns (u: State)
    requires Comes(t) && t == s.(at := Draining([e], Claim)) && e.mutation.op.Delete? && Accepts(s.cloud.remote, e.mutation)
    ensures Comes(u) && u.at == Draining([e], SaveFinish(None, false)) && u.repo == MarkApplying(s.repo, e.id)
    ensures u.cloud.remote == s.cloud.remote - {e.mutation.slot}
  {
    ComesThen(t, Reading(Answer));
    u := Next(t, Reading(Answer));
    ComesThen(u, Reading(Answer));
    u := Next(u, Reading(Answer));
  }

  lemma OnlyDeleteIsDue(s: State, job: Job, c: Choice, desired: DesiredCopy, p: StoredProjection, t: State) returns (e: OutboxEffect)
    requires Consistent(s) && s.now == 0 && s.repo.effects == map[0 := PutOff(job, c, desired)] && p.slot in s.cloud.remote
    requires t.now == 0 && t.repo == EnqueueEffect(s.repo, Removal(s, job, p))
    requires Lookup(s.repo.byIdempotencyKey, Removal(s, job, p).idempotencyKey) == None
    ensures IsDueList(t.repo.effects, 0, [e]) && e == Removal(s, job, p).(id := e.id)
    ensures e.id != 0 && 0 in t.repo.effects && t.repo.effects[0] == PutOff(job, c, desired)
  {
    assert EffectOk(s.repo, 0);
    e := Removal(s, job, p).(id := s.repo.nextId);
    assert t.repo.effects == map[0 := PutOff(job, c, desired), e.id := e];
  }

  /** From an empty repository, for every event that was to be copied and whose source then goes away, some run
      removes the copy, and some continuation in which nobody decides anything puts it back. */
  lemma RemovedAndBack(job: Job, c: Choice, desired: DesiredCopy, gone: Choice) returns (s: State, t: State)
    requires RepairPass.Decides(c, desired) && gone.reply.Answer? && gone.decision.Remove?
    ensures var slot := Slot(job.policy.destination, c.eventId);
            && Comes(s) && s.at.Idle? && Gone(s, KeyOf(job), slot) && !NothingToBring(s.repo, KeyOf(job), slot)
            && Leads(s, t) && KeyOf(job) in t.repo.projections && slot in t.cloud.remote
  {
    var e := Creation(job, c, desired);
    s := CreateInterrupted(job, c, desired);
    var p := s.repo.projections[e.key];
    s := CreatePutOff(s, job, c, desired);
    ComesConsistent(s);
    var u := DeleteQueued(s, job, gone, p);
    var d := OnlyDeleteIsDue(s, job, c, desired, p, u);
    s := DeleteLands(u, d);
    ComesConsistent(s);
    t := UnfinishedBringsBack(s, 0);
  }
}
