/**
 What one attempt at an effect leaves behind: when it is tried again, what it is turned into, and whether the drain
 goes on with the next effect or ends.
 */
module DrainOutcomes {
  import opened Options
  import opened SyncProtocol
  import opened HoldLanding

  function Doubled(n: nat): nat { if n == 0 then 1 else 2 * Doubled(n - 1) }

  /** Five seconds, doubled with every attempt, at most five minutes. */
  function Delay(attempts: nat): nat {
    var delay := 5 * Doubled(attempts + 1);
    if delay < 300 then delay else 300
  }

  lemma {:induction false} DoubledAtLeast(n: nat)
    requires n >= 6
    ensures Doubled(n) >= 64
  {
    if n > 6 { DoubledAtLeast(n - 1); }
  }

  lemma BackoffIsDelay(attempts: nat)
    ensures Backoff(attempts) == Delay(attempts)
  {
    if attempts >= 5 { DoubledAtLeast(attempts + 1); }
  }

  /** The repository still knows the effect at the head of the list, and what it is to do. */
  predicate KnownHead(s: State, e: OutboxEffect) {
    && e.id in s.repo.effects && s.repo.effects[e.id].id == e.id && s.repo.effects[e.id].mutation == e.mutation
    && s.repo.effects[e.id].key == e.key && Sendable(e.mutation)
  }

  /** The calls of one attempt answer with `replies`, in order. */
  ghost function Calls(s: State, replies: seq<Reply>): State
    decreases |replies|
  {
    if replies == [] then s else Calls(Next(s, Reading(replies[0])), replies[1..])
  }

  lemma CallsAreRun(s: State, replies: seq<Reply>)
    ensures Calls(s, replies) == Run(s, seq(|replies|, k requires 0 <= k < |replies| => Reading(replies[k])))
    decreases |replies|
  {
    var steps := seq(|replies|, k requires 0 <= k < |replies| => Reading(replies[k]));
    if replies != [] {
      CallsAreRun(Next(s, Reading(replies[0])), replies[1..]);
      assert steps[1..] == seq(|replies[1..]|, k requires 0 <= k < |replies[1..]| => Reading(replies[1..][k]));
    }
  }

  lemma OneCall(s: State, a: Reply)
    ensures Calls(s, [a]) == Next(s, Reading(a))
  {
    assert [a][1..] == [];
  }

  lemma TwoCalls(s: State, a: Reply, b: Reply)
    ensures Calls(s, [a, b]) == Next(Next(s, Reading(a)), Reading(b))
  {
    assert [a, b][1..] == [b];
    OneCall(Next(s, Reading(a)), b);
  }

  lemma ThreeCalls(s: State, a: Reply, b: Reply, c: Reply)
    ensures Calls(s, [a, b, c]) == Next(Next(Next(s, Reading(a)), Reading(b)), Reading(c))
  {
    assert [a, b, c][1..] == [b, c];
    TwoCalls(Next(s, Reading(a)), b, c);
  }

  /** The drain ends, or goes on with the next effect. */
  function Onward(queue: seq<OutboxEffect>, ends: bool): Position
    requires queue != []
  {
    if ends then Idle else Draining(queue[1..], Pick)
  }

  function WithEffect(r: Repository, d: OutboxEffect): Repository { r.(effects := r.effects[d.id := d]) }

  function Recorded(s: State, e: OutboxEffect, rev: nat): map<ProjectionKey, StoredProjection>
    requires e.mutation.desired.Some?
  {
    s.repo.projections[e.key := StoredProjection(e.key, e.mutation.slot, Digest(e.mutation.desired.value), Some(rev), None, false)]
  }

  function Done(s: State, e: OutboxEffect, projections: map<ProjectionKey, StoredProjection>): Repository
    requires e.id in s.repo.effects
  {
    WithEffect(s.repo, s.repo.effects[e.id].(id := e.id, state := Succeeded)).(projections := projections)
  }

  /** One call is one step of the drain. */
  lemma CallIs(s: State, queue: seq<OutboxEffect>, phase: Phase, reply: Reply)
    requires s.at == Draining(queue, phase)
    ensures Next(s, Reading(reply)) == OnDrain(s, queue, phase, reply)
  {
  }

  lemma Marks(s: State, queue: seq<OutboxEffect>, phase: Phase)
    requires queue != [] && s.at == Draining(queue, phase) && KnownHead(s, queue[0])
    requires phase.Postpone? || phase.Rewrite? || phase.ParkAmbiguous? || phase.ParkQuarantined?
    ensures var d := s.repo.effects[queue[0].id];
            Next(s, Reading(Answer)) ==
            s.(repo := WithEffect(s.repo,
                 match phase
                 case Postpone(t) => d.(state := Pending, nextAttemptAt := t)
                 case Rewrite(m) => d.(state := Pending, nextAttemptAt := s.now, mutation := m)
                 case ParkAmbiguous => d.(state := AmbiguousResult)
                 case _ => d.(state := Quarantined)),
               at := Onward(queue, !phase.ParkQuarantined?))
  {
    CallIs(s, queue, phase, Answer);
  }

  lemma Saves(s: State, queue: seq<OutboxEffect>, rev: Option<nat>, stop: bool)
    requires queue != [] && s.at == Draining(queue, SaveFinish(rev, stop)) && KnownHead(s, queue[0])
    requires queue[0].mutation.op != Delete ==> queue[0].mutation.desired.Some? && rev.Some?
    ensures var e := queue[0];
            Next(s, Reading(Answer)) ==
            s.(repo := s.repo.(projections := if e.mutation.op == Delete then s.repo.projections - {e.key} else Recorded(s, e, rev.value)),
               at := Draining(queue, Settle(stop)))
  {
    CallIs(s, queue, SaveFinish(rev, stop), Answer);
  }

  /** Recording the outcome and marking the effect done takes two calls. */
  lemma Finishes(s: State, queue: seq<OutboxEffect>, rev: Option<nat>, stop: bool)
    requires queue != [] && s.at == Draining(queue, SaveFinish(rev, stop)) && KnownHead(s, queue[0])
    requires queue[0].mutation.op != Delete ==> queue[0].mutation.desired.Some? && rev.Some?
    ensures var e := queue[0];
            Next(Next(s, Reading(Answer)), Reading(Answer)) ==
            s.(repo := Done(s, e, if e.mutation.op == Delete then s.repo.projections - {e.key} else Recorded(s, e, rev.value)),
               at := Onward(queue, stop))
  {
    Saves(s, queue, rev, stop);
    var t := s.(repo := s.repo.(projections := if queue[0].mutation.op == Delete then s.repo.projections - {queue[0].key}
                                               else Recorded(s, queue[0], rev.value)),
                at := Draining(queue, Settle(stop)));
    CallIs(t, queue, Settle(stop), Answer);
  }

  /* ----- a write that fails ----- */

  /** The effect after a failed write: unclear, given up, or pending again, later or at once as a create. */
  function Failed(d: OutboxEffect, attempts: nat, now: nat, error: ProviderError): OutboxEffect {
    match error
    case Ambiguous => d.(state := AmbiguousResult)
    case OwnershipMismatch => d.(state := Quarantined)
    case Unauthorized => d.(state := Pending, nextAttemptAt := now + 300)
    case Forbidden => d.(state := Pending, nextAttemptAt := now + 300)
    case _ =>
      if error == NotFound && d.mutation.op == Update then
        d.(state := Pending, nextAttemptAt := now, mutation := d.mutation.(op := Create, expected := None))
      else d.(state := Pending, nextAttemptAt := now + Delay(attempts))
  }

  /** A claimed effect whose write fails counts the attempt and is parked or put off; only a copy that turns out to be
      somebody else's lets the drain go on. */
  lemma WriteFails(s: State, queue: seq<OutboxEffect>, error: ProviderError, landed: bool)
    requires queue != [] && s.at == Draining(queue, Claim) && KnownHead(s, queue[0])
    requires error != Conflict && !(error == NotFound && queue[0].mutation.op == Delete)
    ensures var e, d := queue[0], s.repo.effects[queue[0].id];
            Calls(s, [Answer, Fault(error, landed), Answer]) ==
            State(if landed then CarryOut(s.cloud, e.mutation) else s.cloud,
                  WithEffect(s.repo, Failed(d.(attempts := d.attempts + 1), e.attempts, s.now, error)),
                  s.now, Onward(queue, error != OwnershipMismatch), s.sent + [e], s.reading)
  {
    Claims(s, queue);
    assert [Answer, Fault(error, landed), Answer] == [Answer] + [Fault(error, landed), Answer];
    SendFails(ClaimedHead(s, queue), queue, error, landed);
    var e, d := queue[0], s.repo.effects[queue[0].id];
    FailedInAnyState(d.(attempts := d.attempts + 1), e.attempts, s.now, error);
    Overwritten(s.repo, ClaimedHead(s, queue).repo.effects[e.id], Failed(d.(attempts := d.attempts + 1), e.attempts, s.now, error));
  }

  lemma FailedInAnyState(d: OutboxEffect, attempts: nat, now: nat, error: ProviderError)
    ensures Failed(d.(state := Applying), attempts, now, error) == Failed(d, attempts, now, error)
    ensures Failed(d, attempts, now, error).id == d.id
  {
  }

  lemma Overwritten(r: Repository, d: OutboxEffect, e: OutboxEffect)
    requires d.id == e.id
    ensures WithEffect(WithEffect(r, d), e) == WithEffect(r, e)
  {
  }

  function ClaimedHead(s: State, queue: seq<OutboxEffect>): State
    requires queue != [] && queue[0].id in s.repo.effects
  {
    var d := s.repo.effects[queue[0].id];
    s.(repo := WithEffect(s.repo, d.(id := queue[0].id, state := Applying, attempts := d.attempts + 1)), at := Draining(queue, Send))
  }

  lemma Claims(s: State, queue: seq<OutboxEffect>)
    requires queue != [] && s.at == Draining(queue, Claim) && KnownHead(s, queue[0])
    ensures forall more :: Calls(s, [Answer] + more) == Calls(ClaimedHead(s, queue), more)
  {
    CallIs(s, queue, Claim, Answer);
    assert Next(s, Reading(Answer)) == ClaimedHead(s, queue);
    forall more ensures Calls(s, [Answer] + more) == Calls(ClaimedHead(s, queue), more) {
      assert ([Answer] + more)[1..] == more;
    }
  }

  lemma SendFails(s: State, queue: seq<OutboxEffect>, error: ProviderError, landed: bool)
    requires queue != [] && s.at == Draining(queue, Send) && KnownHead(s, queue[0])
    requires error != Conflict && !(error == NotFound && queue[0].mutation.op == Delete)
    ensures var e := queue[0];
            Calls(s, [Fault(error, landed), Answer]) ==
            State(if landed then CarryOut(s.cloud, e.mutation) else s.cloud,
                  WithEffect(s.repo, Failed(s.repo.effects[e.id], e.attempts, s.now, error)),
                  s.now, Onward(queue, error != OwnershipMismatch), s.sent + [e], s.reading)
  {
    TwoCalls(s, Fault(error, landed), Answer);
    var phase := OnError(queue[0], s.now, error);
    CallIs(s, queue, Send, Fault(error, landed));
    var t := State(if landed then CarryOut(s.cloud, queue[0].mutation) else s.cloud, s.repo, s.now,
                   Draining(queue, phase), s.sent + [queue[0]], s.reading);
    Marks(t, queue, phase);
    FailedIs(s.repo.effects[queue[0].id], queue[0], s.now, error);
  }

  /** A read that fails before or after the write ends the attempt in the same ways. */
  lemma ReadFails(s: State, queue: seq<OutboxEffect>, phase: Phase, error: ProviderError, landed: bool)
    requires queue != [] && s.at == Draining(queue, phase) && (phase.AdoptRead? || phase.Verify?) && KnownHead(s, queue[0])
    requires error != Conflict && queue[0].mutation.op != Delete
    ensures var e := queue[0];
            Calls(s, [Fault(error, landed), Answer]) ==
            s.(repo := WithEffect(s.repo, Failed(s.repo.effects[e.id], e.attempts, s.now, error)),
               at := Onward(queue, error != OwnershipMismatch))
  {
    TwoCalls(s, Fault(error, landed), Answer);
    var next := OnError(queue[0], s.now, error);
    CallIs(s, queue, phase, Fault(error, landed));
    Marks(s.(at := Draining(queue, next)), queue, next);
    FailedIs(s.repo.effects[queue[0].id], queue[0], s.now, error);
  }

  /** The error switch, and what becomes of the effect. */
  lemma FailedIs(d: OutboxEffect, e: OutboxEffect, now: nat, error: ProviderError)
    requires d.mutation == e.mutation && error != Conflict && !(error == NotFound && e.mutation.op == Delete)
    ensures match OnError(e, now, error)
            case Postpone(t) => Failed(d, e.attempts, now, error) == d.(state := Pending, nextAttemptAt := t)
            case Rewrite(m) => Failed(d, e.attempts, now, error) == d.(state := Pending, nextAttemptAt := now, mutation := m)
            case ParkAmbiguous => Failed(d, e.attempts, now, error) == d.(state := AmbiguousResult)
            case ParkQuarantined => Failed(d, e.attempts, now, error) == d.(state := Quarantined)
            case _ => false
    ensures OnError(e, now, error).ParkQuarantined? <==> error == OwnershipMismatch
  {
    BackoffIsDelay(e.attempts);
  }

  /* ----- the end of an attempt ----- */

  predicate OwnIn(s: State, m: Mutation) { m.slot in s.cloud.remote && IsOwned(s.cloud.remote[m.slot], m.policy, m.slot.eventId) }

  predicate ForeignIn(s: State, m: Mutation) { m.slot in s.cloud.remote && !IsOwned(s.cloud.remote[m.slot], m.policy, m.slot.eventId) }

  /** The read-back, or the read before an interrupted create, finds the copy: it is recorded with its revision, the
      effect is done and the drain goes on. */
  lemma FoundOwn(s: State, queue: seq<OutboxEffect>, phase: Phase)
    requires queue != [] && s.at == Draining(queue, phase) && KnownHead(s, queue[0])
    requires phase.Verify? || phase.AdoptRead?
    requires queue[0].mutation.desired.Some? && !queue[0].mutation.op.Delete? && OwnIn(s, queue[0].mutation)
    ensures var e := queue[0];
            Calls(s, [Answer, Answer, Answer]) ==
            s.(repo := Done(s, e, Recorded(s, e, s.cloud.remote[e.mutation.slot].rev)), at := Onward(queue, false))
  {
    ThreeCalls(s, Answer, Answer, Answer);
    CallIs(s, queue, phase, Answer);
    var rev := Some(s.cloud.remote[queue[0].mutation.slot].rev);
    Finishes(s.(at := Draining(queue, SaveFinish(rev, false))), queue, rev, false);
  }

  /** If it finds somebody else's event the effect is given up and the drain goes on. */
  lemma FoundForeign(s: State, queue: seq<OutboxEffect>, phase: Phase)
    requires queue != [] && s.at == Draining(queue, phase) && KnownHead(s, queue[0])
    requires phase.Verify? || phase.AdoptRead? || phase.RecoverRead?
    requires ForeignIn(s, queue[0].mutation)
    ensures var e := queue[0];
            Calls(s, [Answer, Answer]) ==
            s.(repo := WithEffect(s.repo, s.repo.effects[e.id].(state := Quarantined)), at := Onward(queue, false))
  {
    TwoCalls(s, Answer, Answer);
    CallIs(s, queue, phase, Answer);
    Marks(s.(at := Draining(queue, ParkQuarantined)), queue, ParkQuarantined);
  }

  /** If the read-back finds nothing the result is unclear and the drain ends. */
  lemma FoundNothing(s: State, queue: seq<OutboxEffect>)
    requires queue != [] && s.at == Draining(queue, Verify) && KnownHead(s, queue[0])
    requires queue[0].mutation.slot !in s.cloud.remote
    ensures var e := queue[0];
            Calls(s, [Answer, Answer]) ==
            s.(repo := WithEffect(s.repo, s.repo.effects[e.id].(state := AmbiguousResult)), at := Onward(queue, true))
  {
    TwoCalls(s, Answer, Answer);
    CallIs(s, queue, Verify, Answer);
    Marks(s.(at := Draining(queue, ParkAmbiguous)), queue, ParkAmbiguous);
  }

  /** An interrupted create that left nothing behind is sent anew. */
  lemma NothingToAdopt(s: State, queue: seq<OutboxEffect>)
    requires queue != [] && s.at == Draining(queue, AdoptRead) && queue[0].mutation.slot !in s.cloud.remote
    ensures Calls(s, [Answer]) == s.(at := Draining(queue, Claim))
  {
    OneCall(s, Answer);
    CallIs(s, queue, AdoptRead, Answer);
  }

  /** An effect is looked at before it is sent exactly if it is a create whose earlier attempt did not report back. */
  lemma LookedAtFirst(s: State, queue: seq<OutboxEffect>, reply: Reply)
    requires queue != [] && s.at == Draining(queue, Pick)
    ensures var e := queue[0];
            var interrupted := e.mutation.op == Create && (e.state == Applying || e.state == AmbiguousResult);
            Calls(s, [reply]) == s.(at := Draining(queue, if interrupted then AdoptRead else Claim))
  {
    OneCall(s, reply);
    CallIs(s, queue, Pick, reply);
  }

  /** A delete that the provider carries out, or that finds nothing to delete, drops the projection; the effect is done
      and the drain goes on. */
  lemma Deleted(s: State, queue: seq<OutboxEffect>, reply: Reply)
    requires queue != [] && s.at == Draining(queue, Send) && KnownHead(s, queue[0]) && queue[0].mutation.op == Delete
    requires reply == Fault(NotFound, false)
          || (reply == Answer && (Accepts(s.cloud.remote, queue[0].mutation) || queue[0].mutation.slot !in s.cloud.remote))
    ensures var e := queue[0];
            Calls(s, [reply, Answer, Answer]) ==
            State(if reply.Answer? then CarryOut(s.cloud, e.mutation) else s.cloud, Done(s, e, s.repo.projections - {e.key}),
                  s.now, Onward(queue, false), s.sent + [e], s.reading)
  {
    ThreeCalls(s, reply, Answer, Answer);
    CallIs(s, queue, Send, reply);
    var s1 := State(if reply.Answer? then CarryOut(s.cloud, queue[0].mutation) else s.cloud, s.repo, s.now,
                    Draining(queue, SaveFinish(None, false)), s.sent + [queue[0]], s.reading);
    Finishes(s1, queue, None, false);
  }

  /* ----- recovery from a conflict: in every case the drain ends ----- */

  /** A delete whose copy is gone is done, and so is a create whose copy is there already. */
  lemma ConflictSettled(s: State, queue: seq<OutboxEffect>)
    requires queue != [] && s.at == Draining(queue, RecoverRead) && KnownHead(s, queue[0])
    requires var m := queue[0].mutation;
             (m.op == Delete && m.slot !in s.cloud.remote) || (m.op == Create && m.desired.Some? && OwnIn(s, m))
    ensures var e := queue[0];
            Calls(s, [Answer, Answer, Answer]) ==
            s.(repo := Done(s, e, if e.mutation.op == Delete then s.repo.projections - {e.key}
                                  else Recorded(s, e, s.cloud.remote[e.mutation.slot].rev)),
               at := Onward(queue, true))
  {
    ThreeCalls(s, Answer, Answer, Answer);
    var m := queue[0].mutation;
    var rev := if m.op == Delete then None else Some(s.cloud.remote[m.slot].rev);
    SettlesAtOnce(s, queue, rev);
    Finishes(s.(at := Draining(queue, SaveFinish(rev, true))), queue, rev, true);
  }

  lemma SettlesAtOnce(s: State, queue: seq<OutboxEffect>, rev: Option<nat>)
    requires queue != [] && s.at == Draining(queue, RecoverRead)
    requires var m := queue[0].mutation;
             || (m.op == Delete && m.slot !in s.cloud.remote && rev == None)
             || (m.op == Create && OwnIn(s, m) && rev == Some(s.cloud.remote[m.slot].rev))
    ensures Next(s, Reading(Answer)) == s.(at := Draining(queue, SaveFinish(rev, true)))
  {
    CallIs(s, queue, RecoverRead, Answer);
  }

  /** A write that found its copy gone becomes a create; one that found another revision is guarded by that one. Either
      way it is due at once. */
  lemma ConflictReissued(s: State, queue: seq<OutboxEffect>)
    requires queue != [] && s.at == Draining(queue, RecoverRead) && KnownHead(s, queue[0])
    requires var m := queue[0].mutation;
             (m.op != Delete && m.slot !in s.cloud.remote) || (m.op != Create && OwnIn(s, m))
    ensures var e, d := queue[0], s.repo.effects[queue[0].id];
            var m := if e.mutation.slot in s.cloud.remote
                     then e.mutation.(expected := Some(s.cloud.remote[e.mutation.slot].rev))
                     else e.mutation.(op := Create, expected := None);
            Calls(s, [Answer, Answer]) ==
            s.(repo := WithEffect(s.repo, d.(mutation := m, state := Pending, nextAttemptAt := s.now)), at := Onward(queue, true))
  {
    TwoCalls(s, Answer, Answer);
    CallIs(s, queue, RecoverRead, Answer);
    var m := if queue[0].mutation.slot in s.cloud.remote
             then queue[0].mutation.(expected := Some(s.cloud.remote[queue[0].mutation.slot].rev))
             else queue[0].mutation.(op := Create, expected := None);
    Marks(s.(at := Draining(queue, Rewrite(m))), queue, Rewrite(m));
  }

  /** If the recovery cannot read, the drain ends and the effect stays as it is; unless ownership is denied. */
  lemma ConflictUnread(s: State, queue: seq<OutboxEffect>, error: ProviderError, landed: bool)
    requires queue != [] && s.at == Draining(queue, RecoverRead) && KnownHead(s, queue[0])
    ensures error != OwnershipMismatch ==> Calls(s, [Fault(error, landed)]) == s.(at := Onward(queue, true))
    ensures error == OwnershipMismatch ==>
              Calls(s, [Fault(error, landed), Answer]) ==
              s.(repo := WithEffect(s.repo, s.repo.effects[queue[0].id].(state := Quarantined)), at := Onward(queue, false))
  {
    OneCall(s, Fault(error, landed));
    CallIs(s, queue, RecoverRead, Fault(error, landed));
    if error == OwnershipMismatch {
      TwoCalls(s, Fault(error, landed), Answer);
      Marks(s.(at := Draining(queue, ParkQuarantined)), queue, ParkQuarantined);
    }
  }

  /** A conflict, reported or answered, leads to the recovery read. */
  lemma ConflictIsRecovered(s: State, queue: seq<OutboxEffect>, reply: Reply)
    requires queue != [] && s.at == Draining(queue, Send) && KnownHead(s, queue[0])
    requires var m := queue[0].mutation;
             || (reply.Fault? && reply.error == Conflict)
             || (reply == Answer && m.slot in s.cloud.remote
                 && (m.op == Create || (m.expected.Some? && m.expected != Some(s.cloud.remote[m.slot].rev))))
    ensures Calls(s, [reply]) ==
            s.(at := Draining(queue, RecoverRead), sent := s.sent + [queue[0]],
               cloud := if reply.Fault? && reply.landed then CarryOut(s.cloud, queue[0].mutation) else s.cloud)
  {
    OneCall(s, reply);
    CallIs(s, queue, Send, reply);
  }
}
