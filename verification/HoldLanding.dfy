/**
 The freeze is exactly as good as the outbox: the drain does not look at holds, so an effect that was
 unfinished when the copy was held still goes out, and its completion writes a fresh, unheld projection
 or drops the projection.
 */
module HoldLanding {
  import opened Options
  import opened SyncProtocol
  import opened DueEffects
  import opened FiniteSets
  import opened HoldFreeze

  function Reading(reply: Reply): Step { Advance(Choice(Omit, "", None, None, reply)) }

  const REFUSED := Fault(Unauthorized, false)

  /** Nothing but drains, waiting, crashes and other people's deletions. */
  predicate DrainsOnly(step: Step) {
    step.StartDrain? || step.Advance? || step.Tick? || step.Interrupt? || (step.Outside? && step.edit.Erase?)
  }

  ghost predicate Unattended(steps: seq<Step>) { forall i :: 0 <= i < |steps| ==> DrainsOnly(steps[i]) }

  lemma {:induction false} QuietSteps(s: State, steps: seq<Step>, key: ProjectionKey)
    requires Unattended(steps)
    ensures NeverResolves(s, steps, key)
    decreases |steps|
  {
    if steps != [] { QuietSteps(Next(s, steps[0]), steps[1..], key); }
  }

  /** Some such run leads from `s` to `t`. */
  ghost predicate Leads(s: State, t: State) { exists steps :: Unattended(steps) && Run(s, steps) == t }

  lemma LeadsThen(s: State, t: State, step: Step)
    requires Leads(s, t) && DrainsOnly(step)
    ensures Leads(s, Next(t, step))
  {
    var steps :| Unattended(steps) && Run(s, steps) == t;
    RunThen(s, steps, t, step);
    assert Unattended(steps + [step]);
  }

  lemma LeadsOn(s: State, t: State, u: State)
    requires Leads(s, t) && Leads(t, u)
    ensures Leads(s, u)
  {
    var a :| Unattended(a) && Run(s, a) == t;
    var b :| Unattended(b) && Run(t, b) == u;
    RunConcat(s, a, b);
    assert Unattended(a + b);
  }

  lemma LeadsNowhere(s: State)
    ensures Leads(s, s)
  {
    assert Unattended([]) && Run(s, []) == s;
  }

  /* ----- a pass over an outbox whose first slot somebody has emptied ----- */

  /** The pass has claimed its head, whose slot is empty. */
  ghost predicate Claimed(s: State, t: State, due: seq<OutboxEffect>)
    requires due != []
  {
    && t == State(t.cloud, MarkApplying(s.repo, due[0].id), s.now, Draining(due, Send), s.sent, s.reading)
    && due[0].mutation.slot !in t.cloud.remote
  }

  lemma ReachClaim(s: State, t: State, due: seq<OutboxEffect>) returns (u: State)
    requires Leads(s, t) && due != [] && t == State(t.cloud, s.repo, s.now, Draining(due, Pick), s.sent, s.reading)
    requires due[0].mutation.slot !in t.cloud.remote
    ensures Leads(s, u) && u == State(t.cloud, s.repo, s.now, Draining(due, Claim), s.sent, s.reading)
  {
    u := Next(t, Reading(Answer));
    LeadsThen(s, t, Reading(Answer));
    if u.at.phase.AdoptRead? {
      LeadsThen(s, u, Reading(Answer));
      u := Next(u, Reading(Answer));
    }
  }

  lemma ReachSend(s: State, due: seq<OutboxEffect>) returns (u: State)
    requires s.at.Idle? && IsDueList(s.repo.effects, s.now, due) && due != []
    ensures Leads(s, u) && Claimed(s, u, due)
  {
    u := BeginPass(s, due);
    u := ReachClaim(s, u, due);
    u := Claims(s, u, due);
  }

  lemma BeginPass(s: State, due: seq<OutboxEffect>) returns (u: State)
    requires s.at.Idle? && IsDueList(s.repo.effects, s.now, due) && due != []
    ensures Leads(s, u) && u == State(u.cloud, s.repo, s.now, Draining(due, Pick), s.sent, s.reading)
    ensures due[0].mutation.slot !in u.cloud.remote
  {
    LeadsNowhere(s);
    var erase := Outside(due[0].mutation.slot, Erase);
    LeadsThen(s, s, erase);
    u := Next(s, erase);
    LeadsThen(s, u, StartDrain(due));
    u := Next(u, StartDrain(due));
  }

  lemma Claims(s: State, t: State, due: seq<OutboxEffect>) returns (u: State)
    requires Leads(s, t) && due != [] && t == State(t.cloud, s.repo, s.now, Draining(due, Claim), s.sent, s.reading)
    requires due[0].mutation.slot !in t.cloud.remote
    ensures Leads(s, u) && Claimed(s, u, due)
  {
    LeadsThen(s, t, Reading(Answer));
    u := Next(t, Reading(Answer));
  }

  /** The head is refused and stands back. */
  lemma HeadPostponed(s: State, due: seq<OutboxEffect>) returns (t: State)
    requires s.at.Idle? && IsDueList(s.repo.effects, s.now, due) && due != [] && Sendable(due[0].mutation)
    ensures Leads(s, t)
    ensures t == State(t.cloud, ScheduleRetry(MarkApplying(s.repo, due[0].id), due[0].id, s.now + 300), s.now, Idle,
                       s.sent + [due[0]], s.reading)
  {
    t := HeadRefused(s, due);
    LeadsThen(s, t, Reading(Answer));
    t := Next(t, Reading(Answer));
  }

  lemma HeadRefused(s: State, due: seq<OutboxEffect>) returns (t: State)
    requires s.at.Idle? && IsDueList(s.repo.effects, s.now, due) && due != [] && Sendable(due[0].mutation)
    ensures Leads(s, t)
    ensures t == State(t.cloud, MarkApplying(s.repo, due[0].id), s.now, Draining(due, Postpone(s.now + 300)),
                       s.sent + [due[0]], s.reading)
  {
    t := ReachSend(s, due);
    LeadsThen(s, t, Reading(REFUSED));
    t := Next(t, Reading(REFUSED));
  }

  /** Nothing is recorded for the copy, or a projection that is not frozen. */
  predicate Thawed(s: State, key: ProjectionKey) {
    key in s.repo.projections ==> !Frozen(s.repo.projections[key])
  }

  lemma Saved(s: State, t: State, due: seq<OutboxEffect>, rev: Option<nat>) returns (u: State)
    requires Leads(s, t) && due != [] && t.at == Draining(due, SaveFinish(rev, false)) && Sendable(due[0].mutation)
    ensures Leads(s, u) && u == State(t.cloud, Finish(t.repo, due[0], rev), t.now, Draining(due, Settle(false)), t.sent, t.reading)
    ensures Thawed(u, due[0].key)
  {
    LeadsThen(s, t, Reading(Answer));
    u := Next(t, Reading(Answer));
  }

  lemma DeletionLands(s: State, due: seq<OutboxEffect>) returns (t: State)
    requires s.at.Idle? && IsDueList(s.repo.effects, s.now, due) && due != [] && due[0].mutation.op.Delete?
    ensures Leads(s, t) && Thawed(t, due[0].key)
  {
    t := ReachSend(s, due);
    LeadsThen(s, t, Reading(Answer));
    t := Next(t, Reading(Answer));
    assert t.at == Draining(due, SaveFinish(None, false));
    t := Saved(s, t, due, None);
  }

  lemma CreationLands(s: State, due: seq<OutboxEffect>) returns (t: State)
    requires s.at.Idle? && IsDueList(s.repo.effects, s.now, due) && due != []
    requires due[0].mutation.op.Create? && Sendable(due[0].mutation)
    ensures Leads(s, t) && Thawed(t, due[0].key) && Recorded(t, due[0])
    ensures t.now == s.now && t.repo.effects == MarkApplying(s.repo, due[0].id).effects
    ensures t.repo.byIdempotencyKey == s.repo.byIdempotencyKey
  {
    t := ReachSend(s, due);
    LeadsThen(s, t, Reading(Answer));
    t := Next(t, Reading(Answer));
    t := CreationVerified(s, t, due);
  }

  /** The slot shows the effect's copy under its markers, and the projection records it with its revision. */
  predicate Recorded(s: State, e: OutboxEffect) {
    var m := e.mutation;
    && m.desired.Some? && m.slot in s.cloud.remote && IsOwned(s.cloud.remote[m.slot], m.policy, m.slot.eventId)
    && s.cloud.remote[m.slot].rev < s.cloud.nextRev
    && Lookup(s.repo.projections, e.key) ==
       Some(StoredProjection(e.key, m.slot, Digest(m.desired.value), Some(s.cloud.remote[m.slot].rev), None, false))
  }

  lemma CreationVerified(s: State, t: State, due: seq<OutboxEffect>) returns (u: State)
    requires Leads(s, t) && due != [] && t.at == Draining(due, Verify)
    requires due[0].mutation.op.Create? && Sendable(due[0].mutation)
    requires var m := due[0].mutation;
             && m.slot in t.cloud.remote && IsOwned(t.cloud.remote[m.slot], m.policy, m.slot.eventId)
             && t.cloud.remote[m.slot].rev < t.cloud.nextRev
    ensures Leads(s, u) && Thawed(u, due[0].key) && Recorded(u, due[0])
    ensures u.now == t.now && u.repo.effects == t.repo.effects && u.repo.byIdempotencyKey == t.repo.byIdempotencyKey
  {
    LeadsThen(s, t, Reading(Answer));
    u := Next(t, Reading(Answer));
    var rev := Some(t.cloud.remote[due[0].mutation.slot].rev);
    assert u.at == Draining(due, SaveFinish(rev, false));
    u := Saved(s, u, due, rev);
  }

  /** An update finds its slot empty and becomes a create. */
  lemma UpdateRewritten(s: State, due: seq<OutboxEffect>) returns (t: State)
    requires s.at.Idle? && IsDueList(s.repo.effects, s.now, due) && due != []
    requires due[0].mutation.op.Update? && Sendable(due[0].mutation)
    ensures Leads(s, t) && t.at.Idle? && t.now == s.now
    ensures t.repo == ReviseEffect(MarkApplying(s.repo, due[0].id), due[0].id, AsCreate(due[0].mutation), s.now)
  {
    t := ReachSend(s, due);
    LeadsThen(s, t, Reading(Answer));
    t := Next(t, Reading(Answer));
    assert t.at == Draining(due, Rewrite(AsCreate(due[0].mutation)));
    LeadsThen(s, t, Reading(Answer));
    t := Next(t, Reading(Answer));
  }

  /* ----- sooner or later the effect comes to the head ----- */

  /** The unfinished effects that come before `id` in the outbox. */
  function Ahead(effects: map<nat, OutboxEffect>, id: nat): set<nat>
    requires id in effects
  {
    set x | x in effects && x != id && Unfinished(effects[x].state) && NotAfter(effects[x], effects[id])
  }

  /** The unfinished updates of the copy. */
  function Updates(effects: map<nat, OutboxEffect>, key: ProjectionKey): set<nat> {
    set x | x in effects && Unfinished(effects[x].state) && effects[x].key == key && effects[x].mutation.op.Update?
  }

  /** Postponing the head of the queue moves it behind `id`. */
  lemma PostponeShortens(r: Repository, now: nat, id: nat, head: nat)
    requires RepositoryOk(r) && id in r.effects && head in r.effects
    requires r.effects[id].nextAttemptAt <= now && head in Ahead(r.effects, id)
    ensures var q := ScheduleRetry(MarkApplying(r, head), head, now + 300);
            && id in q.effects && q.effects[id] == r.effects[id]
            && Ahead(q.effects, id) < Ahead(r.effects, id)
            && (r.effects[head].key != r.effects[id].key ==>
                  Updates(q.effects, r.effects[id].key) == Updates(r.effects, r.effects[id].key))
  {
    assert EffectOk(r, head);
  }

  lemma RewriteShortens(r: Repository, now: nat, head: nat)
    requires RepositoryOk(r) && head in r.effects && Unfinished(r.effects[head].state) && r.effects[head].mutation.op.Update?
    ensures var q := ReviseEffect(MarkApplying(r, head), head, AsCreate(r.effects[head].mutation), now);
            && head in q.effects && Unfinished(q.effects[head].state) && q.effects[head].key == r.effects[head].key
            && Updates(q.effects, r.effects[head].key) < Updates(r.effects, r.effects[head].key)
  {
    var q := ReviseEffect(MarkApplying(r, head), head, AsCreate(r.effects[head].mutation), now);
    var key := r.effects[head].key;
    assert EffectOk(r, head);
    assert head in Updates(r.effects, key) && head !in Updates(q.effects, key);
    assert Updates(q.effects, key) <= Updates(r.effects, key);
  }

  lemma IdsOk(r: Repository)
    requires RepositoryOk(r)
    ensures IdsMatch(r.effects)
  {
    forall x | x in r.effects ensures r.effects[x].id == x { assert EffectOk(r, x); }
  }

  lemma LeadsConsistent(s: State, t: State)
    requires Consistent(s) && Leads(s, t)
    ensures Consistent(t)
  {
    var steps :| Unattended(steps) && Run(s, steps) == t;
    RunKeepsConsistent(s, steps);
  }

  /** What a pass achieves: the copy thaws, or an effect of another copy steps back, or an update of this one
      becomes a create. */
  ghost predicate Nearer(s: State, id: nat, t: State, next: nat)
    requires id in s.repo.effects
  {
    var key := s.repo.effects[id].key;
    || Thawed(t, key)
    || (&& t.at.Idle? && next in t.repo.effects && Unfinished(t.repo.effects[next].state)
        && t.repo.effects[next].key == key
        && (|| Updates(t.repo.effects, key) < Updates(s.repo.effects, key)
            || (&& next == id && Updates(t.repo.effects, key) == Updates(s.repo.effects, key)
                && Ahead(t.repo.effects, id) < Ahead(s.repo.effects, id))))
  }

  lemma OtherStepsBack(s: State, id: nat, due: seq<OutboxEffect>) returns (t: State)
    requires Consistent(s) && s.at.Idle? && id in s.repo.effects && IsDue(s.repo.effects[id], s.now)
    requires IsDueList(s.repo.effects, s.now, due) && due != [] && NotAfter(due[0], s.repo.effects[id])
    requires due[0].key != s.repo.effects[id].key && Sendable(due[0].mutation)
    ensures Leads(s, t) && Nearer(s, id, t, id)
  {
    t := HeadPostponed(s, due);
    PostponeShortens(s.repo, s.now, id, due[0].id);
  }

  lemma OwnIsRewritten(s: State, id: nat, due: seq<OutboxEffect>) returns (t: State)
    requires Consistent(s) && s.at.Idle? && id in s.repo.effects
    requires IsDueList(s.repo.effects, s.now, due) && due != [] && due[0].key == s.repo.effects[id].key
    requires due[0].mutation.op.Update? && Sendable(due[0].mutation)
    ensures Leads(s, t) && Nearer(s, id, t, due[0].id)
  {
    t := UpdateRewritten(s, due);
    RewriteShortens(s.repo, s.now, due[0].id);
  }

  lemma PassOverHead(s: State, id: nat) returns (t: State, next: nat)
    requires Consistent(s) && s.at.Idle? && id in s.repo.effects && IsDue(s.repo.effects[id], s.now)
    ensures Leads(s, t) && Nearer(s, id, t, next)
  {
    IdsOk(s.repo);
    var due := DueListExists(s.repo.effects, s.now);
    HeadComesFirst(s.repo.effects, s.now, due, id);
    var head := due[0];
    assert EffectOk(s.repo, head.id);
    next := id;
    if head.key != s.repo.effects[id].key {
      t := OtherStepsBack(s, id, due);
    } else if head.mutation.op.Delete? {
      t := DeletionLands(s, due);
    } else if head.mutation.op.Create? {
      t := CreationLands(s, due);
    } else {
      t := OwnIsRewritten(s, id, due);
      next := head.id;
    }
  }

  /** The same after waiting until `id` is due. */
  lemma WaitAndPass(s: State, id: nat) returns (t: State, next: nat)
    requires Consistent(s) && s.at.Idle? && id in s.repo.effects && Unfinished(s.repo.effects[id].state)
    ensures Leads(s, t) && Nearer(s, id, t, next)
  {
    var e := s.repo.effects[id];
    var wait := Tick(if e.nextAttemptAt <= s.now then s.now else e.nextAttemptAt);
    LeadsNowhere(s);
    LeadsThen(s, s, wait);
    LeadsConsistent(s, Next(s, wait));
    t, next := PassOverHead(Next(s, wait), id);
    LeadsOn(s, Next(s, wait), t);
  }

  /** From any idle state with an unfinished effect for a copy some run ends with the copy thawed, its
      projection replaced or dropped, without anybody resolving a notice. */
  lemma {:induction false} UnfinishedThaws(s: State, id: nat) returns (t: State)
    requires Consistent(s) && s.at.Idle? && id in s.repo.effects && Unfinished(s.repo.effects[id].state)
    ensures Leads(s, t) && Thawed(t, s.repo.effects[id].key)
    decreases |Updates(s.repo.effects, s.repo.effects[id].key)|, |Ahead(s.repo.effects, id)|
  {
    var key := s.repo.effects[id].key;
    var u, next := WaitAndPass(s, id);
    if Thawed(u, key) {
      t := u;
    } else {
      if Updates(u.repo.effects, key) < Updates(s.repo.effects, key) {
        SubsetSmaller(Updates(u.repo.effects, key), Updates(s.repo.effects, key));
      } else {
        SubsetSmaller(Ahead(u.repo.effects, id), Ahead(s.repo.effects, id));
      }
      LeadsConsistent(s, u);
      t := UnfinishedThaws(u, next);
      LeadsOn(s, u, t);
    }
  }

  /* ----- the exact condition ----- */

  /** No run without a resolution changes what is recorded for the copy. */
  ghost predicate RecordKept(s: State, key: ProjectionKey) {
    forall steps :: NeverResolves(s, steps, key) ==>
      Lookup(Run(s, steps).repo.projections, key) == Lookup(s.repo.projections, key)
  }

  /** ... nor sends anything for it. */
  ghost predicate FrozenInEveryRun(s: State, key: ProjectionKey) {
    forall steps :: NeverResolves(s, steps, key) ==> LeftAlone(s, Run(s, steps), key)
  }

  lemma NotKept(s: State, t: State, key: ProjectionKey)
    requires Leads(s, t) && Thawed(t, key) && !Thawed(s, key)
    ensures !RecordKept(s, key)
  {
    var steps :| Unattended(steps) && Run(s, steps) == t;
    QuietSteps(s, steps, key);
  }

  /** The freeze holds in every run that does not resolve the notice, exactly when the outbox holds no
      unfinished effect for the copy; and otherwise some run replaces or drops the frozen projection itself. */
  lemma FreezeExactly(s: State, key: ProjectionKey)
    requires Consistent(s) && s.at.Idle?
    requires key in s.repo.projections && Frozen(s.repo.projections[key])
    ensures NothingUnfinished(s.repo, key) <==> RecordKept(s, key)
    ensures NothingUnfinished(s.repo, key) <==> FrozenInEveryRun(s, key)
  {
    if NothingUnfinished(s.repo, key) {
      forall steps | NeverResolves(s, steps, key) ensures LeftAlone(s, Run(s, steps), key) {
        RunLeavesAlone(s, steps, key);
      }
    } else {
      var id :| id in s.repo.effects && s.repo.effects[id].key == key && Unfinished(s.repo.effects[id].state);
      var t := UnfinishedThaws(s, id);
      NotKept(s, t, key);
    }
  }
}
