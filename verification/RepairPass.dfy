/**
 What becomes of a copy that a person changed or removed on the destination, or whose source changed:
 one reconcile pass over it, and then either the freeze or a drain.
 */
module RepairPass {
  import opened Options
  import opened SyncProtocol
  import opened OwnershipSafety
  import opened CrashReplay
  import HoldFreeze

  /** The copy is managed, not frozen, where the policy wants it, and nobody else's event took its place. */
  predicate InCare(s: State, job: Job, p: StoredProjection) {
    && Lookup(s.repo.projections, KeyOf(job)) == Some(p) && p.key == KeyOf(job)
    && !Frozen(p) && p.slot.endpoint == job.policy.destination
    && (p.slot in s.cloud.remote ==> IsOwned(s.cloud.remote[p.slot], job.policy.id, p.slot.eventId))
  }

  predicate Missing(s: State, p: StoredProjection) { p.slot !in s.cloud.remote }

  predicate EditedDirectly(s: State, p: StoredProjection) {
    p.slot in s.cloud.remote && p.rev.Some? && p.rev.value != s.cloud.remote[p.slot].rev
  }

  predicate Drifted(s: State, p: StoredProjection) { Missing(s, p) || EditedDirectly(s, p) }

  function Response(s: State, job: Job, p: StoredProjection): EditResponse {
    if Missing(s, p) then job.policy.onDelete else job.policy.onEdit
  }

  predicate Decides(c: Choice, desired: DesiredCopy) { c.reply.Answer? && c.decision == CopyAs(desired) }

  /** Four awaits are enough for any pass over a copy that stays desired. */
  function PassOver(s: State, job: Job, c: Choice): State {
    Proceed(Proceed(Proceed(Proceed(s.(at := LoadProjection(job)), c), c), c), c)
  }

  function Pass(job: Job, c: Choice): seq<Step> { [StartReconcile(job), Advance(c), Advance(c), Advance(c), Advance(c)] }

  lemma PassIsRun(s: State, job: Job, c: Choice)
    requires s.at.Idle?
    ensures Run(s, Pass(job, c)) == PassOver(s, job, c)
  {
    var a := Advance(c);
    var s1 := s.(at := LoadProjection(job));
    assert Pass(job, c)[1..] == [a, a, a, a];
    FourAdvances(s1, c);
  }

  lemma FourAdvances(s: State, c: Choice)
    ensures Run(s, [Advance(c), Advance(c), Advance(c), Advance(c)]) == Proceed(Proceed(Proceed(Proceed(s, c), c), c), c)
  {
    var a, t := Advance(c), Proceed(Proceed(s, c), c);
    RunConcat(s, [a, a], [a, a]);
    assert [a, a] + [a, a] == [a, a, a, a];
    RunPair(s, a);
    RunPair(t, a);
  }

  lemma RunPair(s: State, a: Step)
    ensures Run(s, [a, a]) == Next(Next(s, a), a)
  {
    assert [a, a][1..] == [a] && [a][1..] == [];
    assert Run(Next(s, a), [a]) == Run(Next(Next(s, a), a), []);
  }

  /* ----- held for review ----- */

  function Held(s: State, p: StoredProjection): StoredProjection {
    p.(hold := Some(if Missing(s, p) then DeleteHold else EditHold))
  }

  /** The pass leaves the change in place, freezes the copy and records one notice that carries the decision. */
  lemma ReviewHolds(s: State, job: Job, p: StoredProjection, desired: DesiredCopy, c: Choice)
    requires InCare(s, job, p) && Drifted(s, p) && Response(s, job, p).HoldForReview? && Decides(c, desired)
    ensures var t := PassOver(s, job, c);
            && t.at.Idle? && t.cloud == s.cloud && t.sent == s.sent && t.repo.effects == s.repo.effects
            && t.repo.projections == s.repo.projections[KeyOf(job) := Held(s, p)]
            && t.repo.nextId == s.repo.nextId + 1
            && exists kind :: CarriesDecision(kind) && t.repo.notices ==
                 s.repo.notices[s.repo.nextId := Notice(s.repo.nextId, KeyOf(job), kind, Unread)]
  {
    var s1 := s.(at := ReadForCopy(job, p, desired));
    assert Proceed(s.(at := LoadProjection(job)), c) == s1;
    var kind := if Missing(s, p) then CopyDeleteHeld else CopyEditHeld;
    assert Proceed(s1, c) == s.(at := SaveHold(Held(s, p), kind));
    var r := SaveProjection(s.repo, Held(s, p));
    var t := State(s.cloud, AddNotice(r, KeyOf(job), kind), s.now, Idle, s.sent, s.reading);
    assert PassOver(s, job, c) == t;
    assert CarriesDecision(kind);
  }

  /** Whatever happens afterwards, until somebody resolves a notice of the copy it stays held and untouched
      by the coordinator. */
  lemma HeldUntilResolved(s: State, job: Job, p: StoredProjection, desired: DesiredCopy, c: Choice, later: seq<Step>)
    requires HoldFreeze.Consistent(s) && s.at.Idle?
    requires InCare(s, job, p) && Drifted(s, p) && Response(s, job, p).HoldForReview? && Decides(c, desired)
    requires HoldFreeze.NothingUnfinished(s.repo, KeyOf(job))
    requires HoldFreeze.NeverResolves(Run(s, Pass(job, c)), later, KeyOf(job))
    ensures var t := Run(s, Pass(job, c)); var u := Run(t, later);
            && Lookup(u.repo.projections, KeyOf(job)) == Some(Held(s, p))
            && s.sent <= u.sent && (forall i :: |s.sent| <= i < |u.sent| ==> u.sent[i].key != KeyOf(job))
            && HoldFreeze.NothingUnfinished(u.repo, KeyOf(job))
  {
    PassIsRun(s, job, c);
    ReviewHolds(s, job, p, desired, c);
    HoldFreeze.RunKeepsConsistent(s, Pass(job, c));
    HoldFreeze.RunLeavesAlone(Run(s, Pass(job, c)), later, KeyOf(job));
  }

  /* ----- restored or brought up to date ----- */

  predicate Repairs(s: State, job: Job, p: StoredProjection, desired: DesiredCopy) {
    if Drifted(s, p) then !Response(s, job, p).HoldForReview? else p.digest != Digest(desired)
  }

  function Repair(s: State, job: Job, p: StoredProjection, desired: DesiredCopy): OutboxEffect {
    NewEffect(s.now, if Missing(s, p) then Create else Update, job.policy, job.event.rev, KeyOf(job), p.slot,
              if Missing(s, p) then None else Some(s.cloud.remote[p.slot].rev), Some(desired), Digest(desired))
  }

  /** The notice that tells of a restored copy, when the policy asks for one. */
  function Noted(s: State, job: Job, p: StoredProjection): Repository {
    if Drifted(s, p) && Response(s, job, p).RestoreAndNotify?
    then AddNotice(s.repo, KeyOf(job), if Missing(s, p) then CopyDeleteRestored else CopyEditReverted)
    else s.repo
  }

  lemma RepairQueued(s: State, job: Job, p: StoredProjection, desired: DesiredCopy, c: Choice)
    requires InCare(s, job, p) && Repairs(s, job, p, desired) && Decides(c, desired)
    ensures PassOver(s, job, c) ==
            State(s.cloud, EnqueueEffect(Noted(s, job, p), Repair(s, job, p, desired)), s.now, Idle, s.sent, s.reading)
  {
    var e := Repair(s, job, p, desired);
    var s1 := s.(at := ReadForCopy(job, p, desired));
    assert Proceed(s.(at := LoadProjection(job)), c) == s1;
    assert p.slot == Slot(job.policy.destination, p.slot.eventId);
    var s2 := Proceed(s1, c);
    if Noted(s, job, p) == s.repo {
      assert s2 == s.(at := Queue(e, None));
    } else {
      assert Proceed(s2, c) == State(s.cloud, Noted(s, job, p), s.now, Queue(e, None), s.sent, s.reading);
    }
  }

  /** The outbox holds nothing but completed work for the copy, and its index is in order. */
  ghost predicate Clear(r: Repository, p: StoredProjection) {
    && (forall id :: id in r.effects ==>
          && (r.effects[id].mutation.slot == p.slot || r.effects[id].key == p.key ==> !Unfinished(r.effects[id].state))
          && (r.effects[id].idempotencyKey.slot == p.slot ==> r.effects[id].state.Succeeded?))
    && (forall k :: k in r.byIdempotencyKey && r.byIdempotencyKey[k] in r.effects ==>
          r.effects[r.byIdempotencyKey[k]].idempotencyKey == k)
  }

  /** A repair for a clear copy is queued as the only unfinished effect of its slot and key. */
  lemma RepairEnqueued(r: Repository, e: OutboxEffect, p: StoredProjection)
    requires Clear(r, p) && e.idempotencyKey.slot == p.slot
    ensures var q := EnqueueEffect(r, e);
            && q.effects.Keys <= r.effects.Keys + {r.nextId} && r.nextId in q.effects
            && q.effects[r.nextId] == e.(id := r.nextId) && q.projections == r.projections
            && forall id :: id in q.effects && id != r.nextId ==> id in r.effects && q.effects[id] == r.effects[id]
  {
  }

  lemma StillReady(s: State, t: State, p: StoredProjection, id: nat)
    requires Ready(s) && Clear(s.repo, p) && Safe(t) && t.at.Idle?
    requires id in t.repo.effects && t.repo.effects[id].id == id && Sendable(t.repo.effects[id].mutation)
    requires t.repo.effects[id].mutation.slot == p.slot && t.repo.effects[id].key == p.key
    requires forall x :: x in t.repo.effects && x != id ==> x in s.repo.effects && t.repo.effects[x] == s.repo.effects[x]
    ensures Ready(t)
  {
  }

  /** One effect for the copy joins a clear outbox, and whatever else the pass did, nothing stands in its way. */
  lemma QueuedReady(s: State, t: State, r: Repository, e: OutboxEffect, p: StoredProjection) returns (id: nat)
    requires Ready(s) && Clear(s.repo, p) && Safe(t) && t.at.Idle?
    requires r.effects == s.repo.effects && r.byIdempotencyKey == s.repo.byIdempotencyKey
    requires e.idempotencyKey.slot == p.slot && e.mutation.slot == p.slot && e.key == p.key && Sendable(e.mutation)
    requires Unfinished(e.state) && t.repo.effects == EnqueueEffect(r, e).effects
    ensures Ready(t) && Open(t, id) && t.repo.effects[id] == e.(id := id)
  {
    id := r.nextId;
    RepairEnqueued(r, e, p);
    StillReady(s, t, p, id);
  }

  /** Whenever nothing is left to drain, however often the drain was cut, the effect has left its slot and its
      projection as its fate prescribes. */
  lemma DrainedAway(t: State, id: nat, drain: seq<Step>)
    requires Ready(t) && Open(t, id) && DrainRun(drain) && NothingLeft(Run(t, drain))
    ensures var u, e := Run(t, drain), t.repo.effects[id];
            && SlotFinal(e.mutation, SlotAt(t, e), SlotAt(u, e))
            && ProjectionFinal(e, SlotAt(t, e), ProjectionAt(t, e), SlotAt(u, e), ProjectionAt(u, e))
  {
    assert Reached(t, [], t);
    ReachedByRun(t, [], t, drain);
    ReachedReplays(t, [] + drain, Run(t, drain));
    Through(t, Run(t, drain), id);
  }

  /** Without an unfinished effect of its own a copy is not touched by a drain. */
  lemma DrainedPast(s: State, t: State, p: StoredProjection, drain: seq<Step>)
    requires Ready(s) && Clear(s.repo, p) && Safe(t) && t.at.Idle? && t.repo.effects == s.repo.effects
    requires DrainRun(drain)
    ensures var u := Run(t, drain);
            && Lookup(u.cloud.remote, p.slot) == Lookup(t.cloud.remote, p.slot)
            && Lookup(u.repo.projections, p.key) == Lookup(t.repo.projections, p.key)
  {
    assert Ready(t);
    assert Reached(t, [], t);
    ReachedByRun(t, [], t, drain);
    ReachedReplays(t, [] + drain, Run(t, drain));
    assert !SlotConcerned(t, p.slot) && !KeyConcerned(t, p.key);
  }

  /** The slot shows the desired copy under the policy's markers, and the projection records it. */
  predicate Shows(s: State, key: ProjectionKey, slot: Slot, desired: DesiredCopy) {
    && slot in s.cloud.remote && s.cloud.remote[slot].content == desired
    && IsOwned(s.cloud.remote[slot], key.policy, slot.eventId)
    && Lookup(s.repo.projections, key) ==
       Some(StoredProjection(key, slot, Digest(desired), Some(s.cloud.remote[slot].rev), None, false))
  }

  lemma RepairReady(s: State, job: Job, p: StoredProjection, desired: DesiredCopy, c: Choice) returns (id: nat)
    requires Ready(s) && InCare(s, job, p) && Repairs(s, job, p, desired) && Decides(c, desired) && Clear(s.repo, p)
    ensures var t := PassOver(s, job, c);
            && Ready(t) && Open(t, id) && t.cloud == s.cloud
            && t.repo.effects[id] == Repair(s, job, p, desired).(id := id)
  {
    RepairQueued(s, job, p, desired, c);
    PassIsRun(s, job, c);
    RunKeepsSafe(s, Pass(job, c));
    id := QueuedReady(s, PassOver(s, job, c), Noted(s, job, p), Repair(s, job, p, desired), p);
  }

  /** A copy that drifted or fell behind is put right: whenever nothing is left to drain, however often the
      drain was cut, the slot shows the desired copy under this policy's markers and the projection records
      its fingerprint and current revision. */
  lemma Repaired(s: State, job: Job, p: StoredProjection, desired: DesiredCopy, c: Choice, drain: seq<Step>)
    requires Ready(s) && InCare(s, job, p) && Repairs(s, job, p, desired) && Decides(c, desired) && Clear(s.repo, p)
    requires DrainRun(drain) && NothingLeft(Run(Run(s, Pass(job, c)), drain))
    ensures Shows(Run(Run(s, Pass(job, c)), drain), KeyOf(job), p.slot, desired)
  {
    PassIsRun(s, job, c);
    var id := RepairReady(s, job, p, desired, c);
    DrainedAway(PassOver(s, job, c), id, drain);
  }
}
