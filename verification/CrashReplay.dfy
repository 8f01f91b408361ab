/**
 Crash replay: cutting the drain of the outbox at any await, or losing the answer to a write, and
 draining again until nothing is left unfinished, ends where an undisturbed drain ends.
 */
module CrashReplay {
  import opened Options
  import opened SyncProtocol
  import opened OwnershipSafety

  /* ----- what one effect is bound to do ----- */

  /** The fate of an effect is fixed by what its slot holds when the draining starts. */
  datatype Fate = Writes | Adopts | Erases | Refused

  function FateOf(m: Mutation, r0: Option<RemoteEvent>): Fate {
    var owned := r0.Some? && IsOwned(r0.value, m.policy, m.slot.eventId);
    match m.op
    case Create => if r0.None? then Writes else if owned then Adopts else Refused
    case Update => if r0.None? || owned then Writes else Refused
    case Delete => if r0.None? || owned then Erases else Refused
  }

  predicate IsWritten(m: Mutation, r: Option<RemoteEvent>) {
    r.Some? && m.desired.Some? && r.value == Written(m, m.desired.value, r.value.rev)
  }

  predicate SlotOnTheWay(m: Mutation, r0: Option<RemoteEvent>, r: Option<RemoteEvent>) {
    match FateOf(m, r0)
    case Writes => r == r0 || IsWritten(m, r)
    case Erases => r == r0 || r.None?
    case _ => r == r0
  }

  predicate SlotFinal(m: Mutation, r0: Option<RemoteEvent>, r: Option<RemoteEvent>) {
    match FateOf(m, r0)
    case Writes => IsWritten(m, r)
    case Erases => r.None?
    case _ => r == r0
  }

  /** The recorded projection names the copy, its fingerprint and its current revision. */
  predicate ProjectionFinal(e0: OutboxEffect, r0: Option<RemoteEvent>, p0: Option<StoredProjection>,
                            r: Option<RemoteEvent>, p: Option<StoredProjection>)
  {
    var m := e0.mutation;
    match FateOf(m, r0)
    case Refused => p == p0
    case Erases => p.None?
    case _ =>
      && r.Some? && m.desired.Some?
      && p == Some(StoredProjection(e0.key, m.slot, Digest(m.desired.value), Some(r.value.rev), None, false))
  }

  /** The mutation is the original one, up to its revision guard and a fall-back from update to create. */
  predicate SameIntent(m0: Mutation, r0: Option<RemoteEvent>, m: Mutation) {
    && m.slot == m0.slot && m.policy == m0.policy && m.desired == m0.desired
    && (m.op == m0.op || (m0.op.Update? && m.op.Create? && r0.None?))
  }

  /** How far one effect has got: `e0`, `r0`, `p0` are effect, slot and projection at the start. */
  predicate Tracks(e0: OutboxEffect, r0: Option<RemoteEvent>, p0: Option<StoredProjection>,
                   e: OutboxEffect, r: Option<RemoteEvent>, p: Option<StoredProjection>)
  {
    && e.id == e0.id && e.key == e0.key
    && SameIntent(e0.mutation, r0, e.mutation)
    && SlotOnTheWay(e0.mutation, r0, r)
    && (FateOf(e0.mutation, r0).Refused? ==> p == p0)
    && (e.state.Quarantined? ==> FateOf(e0.mutation, r0).Refused?)
    && (e.state.Succeeded? ==>
          SlotFinal(e0.mutation, r0, r) && ProjectionFinal(e0, r0, p0, r, p) && !FateOf(e0.mutation, r0).Refused?)
  }

  /** What the coordinator's position in the drain says about the effect it is working on. */
  predicate PhaseTracks(e0: OutboxEffect, r0: Option<RemoteEvent>, p0: Option<StoredProjection>,
                        phase: Phase, r: Option<RemoteEvent>, p: Option<StoredProjection>)
  {
    var m0 := e0.mutation;
    var fate := FateOf(m0, r0);
    match phase
    case Verify => IsWritten(m0, r) && fate.Writes?
    case SaveFinish(rev, _) =>
      && !fate.Refused? && SlotFinal(m0, r0, r)
      && (!fate.Erases? ==> r.Some? && rev == Some(r.value.rev))
    case Settle(_) => !fate.Refused? && SlotFinal(m0, r0, r) && ProjectionFinal(e0, r0, p0, r, p)
    case Rewrite(m) => SameIntent(m0, r0, m)
    case ParkQuarantined => fate.Refused?
    case _ => true
  }

  /* ----- the whole outbox ----- */

  predicate Open(s0: State, id: nat) { id in s0.repo.effects && Unfinished(s0.repo.effects[id].state) }

  function SlotAt(s: State, e: OutboxEffect): Option<RemoteEvent> { Lookup(s.cloud.remote, e.mutation.slot) }

  function ProjectionAt(s: State, e: OutboxEffect): Option<StoredProjection> { Lookup(s.repo.projections, e.key) }

  /** At most one unfinished effect for a copy; nothing is being done. */
  ghost predicate Ready(s: State) {
    && s.at.Idle? && Safe(s)
    && (forall id :: id in s.repo.effects ==>
          s.repo.effects[id].id == id && Sendable(s.repo.effects[id].mutation))
    && (forall a, b :: Open(s, a) && Open(s, b) && a != b ==>
          && s.repo.effects[a].mutation.slot != s.repo.effects[b].mutation.slot
          && s.repo.effects[a].key != s.repo.effects[b].key)
  }

  ghost predicate EffectTracks(s0: State, s: State, id: nat)
    requires Open(s0, id) && id in s.repo.effects
  {
    var e0 := s0.repo.effects[id];
    Tracks(e0, SlotAt(s0, e0), ProjectionAt(s0, e0), s.repo.effects[id], SlotAt(s, e0), ProjectionAt(s, e0))
  }

  ghost predicate SlotConcerned(s0: State, slot: Slot) {
    exists id :: Open(s0, id) && s0.repo.effects[id].mutation.slot == slot
  }

  ghost predicate KeyConcerned(s0: State, key: ProjectionKey) {
    exists id :: Open(s0, id) && s0.repo.effects[id].key == key
  }

  /** An entry of the drain's list is a snapshot of a still unfinished effect. */
  predicate Current(s0: State, s: State, e: OutboxEffect) {
    && Open(s0, e.id) && e.id in s.repo.effects
    && Unfinished(s.repo.effects[e.id].state)
    && s.repo.effects[e.id].mutation == e.mutation && s.repo.effects[e.id].key == e.key
  }

  ghost predicate QueueCurrent(s0: State, s: State, queue: seq<OutboxEffect>) {
    && (forall i :: 0 <= i < |queue| ==> Current(s0, s, queue[i]))
    && (forall i, j :: 0 <= i < j < |queue| ==> queue[i].id != queue[j].id)
  }

  ghost predicate HeadTracks(s0: State, s: State, head: OutboxEffect, phase: Phase)
    requires Open(s0, head.id)
  {
    var e0 := s0.repo.effects[head.id];
    && (phase.AdoptRead? ==> head.mutation.op.Create?)
    && PhaseTracks(e0, SlotAt(s0, e0), ProjectionAt(s0, e0), phase, SlotAt(s, e0), ProjectionAt(s, e0))
  }

  ghost predicate AtTracks(s0: State, s: State) {
    match s.at
    case Idle => true
    case Draining(queue, phase) =>
      QueueCurrent(s0, s, queue) && (queue != [] ==> HeadTracks(s0, s, queue[0], phase))
    case _ => false
  }

  /** Everything but the position. */
  ghost predicate OutboxTracks(s0: State, s: State) {
    && s.repo.effects.Keys == s0.repo.effects.Keys
    && (forall id :: id in s0.repo.effects && !Open(s0, id) ==> s.repo.effects[id] == s0.repo.effects[id])
    && (forall id :: Open(s0, id) ==> EffectTracks(s0, s, id))
    && (forall slot :: !SlotConcerned(s0, slot) ==> Lookup(s.cloud.remote, slot) == Lookup(s0.cloud.remote, slot))
    && (forall key :: !KeyConcerned(s0, key) ==> Lookup(s.repo.projections, key) == Lookup(s0.repo.projections, key))
  }

  ghost predicate Replays(s0: State, s: State) { Safe(s) && OutboxTracks(s0, s) && AtTracks(s0, s) }

  /** Any failure of any call, whether or not a write landed, that does not misreport what the slot holds. */
  predicate Truthful(reply: Reply) { reply.Answer? || (!reply.error.NotFound? && !reply.error.OwnershipMismatch?) }

  /** Crashes, failing calls, lost answers and the passing of time are the only disturbances. */
  predicate DrainStep(step: Step) {
    match step
    case StartDrain(_) => true
    case Interrupt(_) => true
    case Tick(_) => true
    case Advance(c) => Truthful(c.reply)
    case _ => false
  }

  predicate DrainRun(steps: seq<Step>) { forall i :: 0 <= i < |steps| ==> DrainStep(steps[i]) }

  /* ----- one effect, one phase ----- */

  lemma AdoptTracks(c: Provider, e0: OutboxEffect, r0: Option<RemoteEvent>, p0: Option<StoredProjection>,
                    e: OutboxEffect, d: OutboxEffect, p: Option<StoredProjection>, now: nat)
    requires e.mutation == d.mutation && e.mutation.op.Create?
    requires Tracks(e0, r0, p0, d, Lookup(c.remote, e0.mutation.slot), p)
    ensures PhaseTracks(e0, r0, p0, AfterAdoptRead(c.remote, e, now, Answer), Lookup(c.remote, e0.mutation.slot), p)
  {
  }

  lemma VerifyTracks(c: Provider, e0: OutboxEffect, r0: Option<RemoteEvent>, p0: Option<StoredProjection>,
                     e: OutboxEffect, d: OutboxEffect, p: Option<StoredProjection>, now: nat)
    requires e.mutation == d.mutation
    requires Tracks(e0, r0, p0, d, Lookup(c.remote, e0.mutation.slot), p)
    requires PhaseTracks(e0, r0, p0, Verify, Lookup(c.remote, e0.mutation.slot), p)
    ensures PhaseTracks(e0, r0, p0, AfterVerify(c.remote, e, now, Answer), Lookup(c.remote, e0.mutation.slot), p)
  {
  }

  lemma RecoverTracks(c: Provider, e0: OutboxEffect, r0: Option<RemoteEvent>, p0: Option<StoredProjection>,
                      e: OutboxEffect, d: OutboxEffect, p: Option<StoredProjection>)
    requires e.mutation == d.mutation
    requires Tracks(e0, r0, p0, d, Lookup(c.remote, e0.mutation.slot), p)
    ensures var next := AfterRecoverRead(c.remote, e, Answer);
            next.Some? && PhaseTracks(e0, r0, p0, next.value, Lookup(c.remote, e0.mutation.slot), p)
  {
  }

  /** Sending, whether or not the provider carries the mutation out and whether or not the answer arrives. */
  lemma SendTracks(c: Provider, e0: OutboxEffect, r0: Option<RemoteEvent>, p0: Option<StoredProjection>,
                   e: OutboxEffect, d: OutboxEffect, p: Option<StoredProjection>, now: nat, reply: Reply)
    requires RevisionsUnique(c) && MutationSafe(c.seen, e.mutation) && Sendable(e0.mutation)
    requires e.mutation == d.mutation && Unfinished(d.state)
    requires Tracks(e0, r0, p0, d, Lookup(c.remote, e0.mutation.slot), p)
    requires Truthful(reply)
    ensures var c' := if Lands(e.mutation, reply) then CarryOut(c, e.mutation) else c;
            var r' := Lookup(c'.remote, e0.mutation.slot);
            && Tracks(e0, r0, p0, d, r', p)
            && PhaseTracks(e0, r0, p0, AfterSend(c.remote, e, now, reply), r', p)
  {
  }

  lemma FinishTracks(r: Repository, e0: OutboxEffect, r0: Option<RemoteEvent>, p0: Option<StoredProjection>,
                     e: OutboxEffect, d: OutboxEffect, now: Option<RemoteEvent>, rev: Option<nat>, stop: bool)
    requires e.mutation == d.mutation && e.key == d.key && Unfinished(d.state) && Sendable(e0.mutation)
    requires Tracks(e0, r0, p0, d, now, Lookup(r.projections, e0.key))
    requires PhaseTracks(e0, r0, p0, SaveFinish(rev, stop), now, Lookup(r.projections, e0.key))
    ensures var p := Lookup(Finish(r, e, rev).projections, e0.key);
            Tracks(e0, r0, p0, d, now, p) && PhaseTracks(e0, r0, p0, Settle(stop), now, p)
  {
  }

  /* ----- one step of the whole outbox ----- */

  /** Between `s` and `t` only effect `id`, its slot and its projection may have changed. */
  ghost predicate TouchesOnly(s0: State, s: State, t: State, id: nat)
    requires Open(s0, id)
  {
    var e0 := s0.repo.effects[id];
    && t.repo.effects.Keys == s.repo.effects.Keys
    && (forall x :: x in s.repo.effects && x != id ==> t.repo.effects[x] == s.repo.effects[x])
    && (forall slot :: slot != e0.mutation.slot ==> Lookup(t.cloud.remote, slot) == Lookup(s.cloud.remote, slot))
    && (forall key :: key != e0.key ==> Lookup(t.repo.projections, key) == Lookup(s.repo.projections, key))
  }

  lemma OthersUndisturbed(s0: State, s: State, t: State, id: nat)
    requires Ready(s0) && OutboxTracks(s0, s) && Open(s0, id)
    requires TouchesOnly(s0, s, t, id) && EffectTracks(s0, t, id)
    ensures OutboxTracks(s0, t)
  {
    forall x | Open(s0, x) ensures EffectTracks(s0, t, x) {
      if x != id { assert EffectTracks(s0, s, x); }
    }
    forall slot | !SlotConcerned(s0, slot)
      ensures Lookup(t.cloud.remote, slot) == Lookup(s0.cloud.remote, slot)
    {
      assert slot != s0.repo.effects[id].mutation.slot;
    }
    forall key | !KeyConcerned(s0, key)
      ensures Lookup(t.repo.projections, key) == Lookup(s0.repo.projections, key)
    {
      assert key != s0.repo.effects[id].key;
    }
  }

  lemma QueueUndisturbed(s0: State, s: State, t: State, queue: seq<OutboxEffect>)
    requires QueueCurrent(s0, s, queue) && queue != [] && TouchesOnly(s0, s, t, queue[0].id)
    ensures QueueCurrent(s0, t, queue[1..])
    ensures Current(s0, t, queue[0]) ==> QueueCurrent(s0, t, queue)
  {
  }

  /** The next entry of the list may be looked at in any state. */
  lemma PickTracks(s0: State, s: State, queue: seq<OutboxEffect>)
    requires QueueCurrent(s0, s, queue)
    ensures AtTracks(s0, s.(at := Draining(queue, Pick)))
  {
  }

  /** The effect at the head of the list, as one drain step finds it. */
  ghost predicate HeadReady(s0: State, s: State, e: OutboxEffect, phase: Phase) {
    && Current(s0, s, e)
    && EffectTracks(s0, s, e.id)
    && HeadTracks(s0, s, e, phase)
    && Sendable(s0.repo.effects[e.id].mutation)
    && s0.repo.effects[e.id].id == e.id
  }

  lemma DrainTouchesHead(s0: State, s: State, queue: seq<OutboxEffect>, phase: Phase, reply: Reply)
    requires queue != [] && HeadReady(s0, s, queue[0], phase)
    ensures TouchesOnly(s0, s, OnDrain(s, queue, phase, reply), queue[0].id)
  {
  }

  /** What a drain step makes of the effect it is working on. */
  ghost predicate HeadAdvances(s0: State, t: State, queue: seq<OutboxEffect>)
    requires queue != [] && Open(s0, queue[0].id)
  {
    && queue[0].id in t.repo.effects && EffectTracks(s0, t, queue[0].id)
    && (t.at.Idle? || t.at == Draining(queue[1..], Pick)
        || (t.at.Draining? && t.at.queue == queue && Current(s0, t, queue[0])
            && HeadTracks(s0, t, queue[0], t.at.phase)))
  }

  /** A read that fails leaves the effect for a later attempt. */
  lemma FailedReadTracks(s0: State, s: State, queue: seq<OutboxEffect>, phase: Phase, reply: Reply)
    requires queue != [] && HeadReady(s0, s, queue[0], phase)
    requires phase.Pick? || phase.AdoptRead? || phase.Verify? || phase.RecoverRead?
    requires Truthful(reply) && reply.Fault?
    ensures HeadAdvances(s0, OnDrain(s, queue, phase, reply), queue)
  {
  }

  lemma HeadReads(s0: State, s: State, queue: seq<OutboxEffect>, phase: Phase, reply: Reply)
    requires queue != [] && HeadReady(s0, s, queue[0], phase)
    requires phase.Pick? || phase.AdoptRead? || phase.Verify? || phase.RecoverRead?
    requires Truthful(reply)
    ensures HeadAdvances(s0, OnDrain(s, queue, phase, reply), queue)
  {
    if reply.Fault? {
      FailedReadTracks(s0, s, queue, phase, reply);
      return;
    }
    var e := queue[0];
    var d, e0 := s.repo.effects[e.id], s0.repo.effects[e.id];
    var r0, p0, p := SlotAt(s0, e0), ProjectionAt(s0, e0), ProjectionAt(s, e0);
    match phase
    case AdoptRead => AdoptTracks(s.cloud, e0, r0, p0, e, d, p, s.now);
    case Verify => VerifyTracks(s.cloud, e0, r0, p0, e, d, p, s.now);
    case RecoverRead => RecoverTracks(s.cloud, e0, r0, p0, e, d, p);
    case _ =>
  }

  lemma HeadSends(s0: State, s: State, queue: seq<OutboxEffect>, reply: Reply)
    requires queue != [] && HeadReady(s0, s, queue[0], Send)
    requires RevisionsUnique(s.cloud) && MutationSafe(s.cloud.seen, queue[0].mutation)
    requires Truthful(reply)
    ensures HeadAdvances(s0, OnDrain(s, queue, Send, reply), queue)
  {
    var e := queue[0];
    var d, e0 := s.repo.effects[e.id], s0.repo.effects[e.id];
    SendTracks(s.cloud, e0, SlotAt(s0, e0), ProjectionAt(s0, e0), e, d, ProjectionAt(s, e0), s.now, reply);
  }

  lemma HeadFinishes(s0: State, s: State, queue: seq<OutboxEffect>, rev: Option<nat>, stop: bool, reply: Reply)
    requires queue != [] && HeadReady(s0, s, queue[0], SaveFinish(rev, stop))
    ensures HeadAdvances(s0, OnDrain(s, queue, SaveFinish(rev, stop), reply), queue)
  {
    var e := queue[0];
    var d, e0 := s.repo.effects[e.id], s0.repo.effects[e.id];
    FinishTracks(s.repo, e0, SlotAt(s0, e0), ProjectionAt(s0, e0), e, d, SlotAt(s, e0), rev, stop);
  }

  lemma HeadMarks(s0: State, s: State, queue: seq<OutboxEffect>, phase: Phase, reply: Reply)
    requires queue != [] && HeadReady(s0, s, queue[0], phase)
    requires phase.Claim? || phase.Settle? || phase.Rewrite? || phase.ParkAmbiguous? || phase.ParkQuarantined?
          || phase.Postpone?
    ensures HeadAdvances(s0, OnDrain(s, queue, phase, reply), queue)
  {
  }

  lemma HeadStep(s0: State, s: State, queue: seq<OutboxEffect>, phase: Phase, reply: Reply)
    requires queue != [] && HeadReady(s0, s, queue[0], phase)
    requires RevisionsUnique(s.cloud) && MutationSafe(s.cloud.seen, queue[0].mutation)
    requires Truthful(reply)
    ensures HeadAdvances(s0, OnDrain(s, queue, phase, reply), queue)
  {
    match phase
    case Send => HeadSends(s0, s, queue, reply);
    case SaveFinish(rev, stop) => HeadFinishes(s0, s, queue, rev, stop, reply);
    case Pick => HeadReads(s0, s, queue, phase, reply);
    case AdoptRead => HeadReads(s0, s, queue, phase, reply);
    case Verify => HeadReads(s0, s, queue, phase, reply);
    case RecoverRead => HeadReads(s0, s, queue, phase, reply);
    case Claim => HeadMarks(s0, s, queue, phase, reply);
    case Settle(_) => HeadMarks(s0, s, queue, phase, reply);
    case Rewrite(_) => HeadMarks(s0, s, queue, phase, reply);
    case ParkAmbiguous => HeadMarks(s0, s, queue, phase, reply);
    case ParkQuarantined => HeadMarks(s0, s, queue, phase, reply);
    case Postpone(_) => HeadMarks(s0, s, queue, phase, reply);
  }

  lemma DrainReplays(s0: State, s: State, queue: seq<OutboxEffect>, phase: Phase, reply: Reply)
    requires Ready(s0) && Replays(s0, s) && s.at == Draining(queue, phase)
    requires Truthful(reply)
    ensures Replays(s0, OnDrain(s, queue, phase, reply))
  {
    DrainKeepsSafe(s, queue, phase, reply);
    if queue != [] {
      assert Current(s0, s, queue[0]);
      assert HeadReady(s0, s, queue[0], phase);
      var t := OnDrain(s, queue, phase, reply);
      DrainTouchesHead(s0, s, queue, phase, reply);
      HeadStep(s0, s, queue, phase, reply);
      OthersUndisturbed(s0, s, t, queue[0].id);
      QueueUndisturbed(s0, s, t, queue);
    }
  }

  lemma PassReplays(s0: State, s: State, due: seq<OutboxEffect>)
    requires Ready(s0) && Replays(s0, s) && IsDueList(s.repo.effects, s.now, due)
    ensures QueueCurrent(s0, s, due)
  {
  }

  /** Only the position and the clock have changed. */
  lemma MovedReplays(s0: State, s: State, t: State)
    requires Replays(s0, s) && Safe(t) && t.cloud == s.cloud && t.repo == s.repo && AtTracks(s0, t)
    ensures Replays(s0, t)
  {
    forall id | Open(s0, id) ensures EffectTracks(s0, t, id) { assert EffectTracks(s0, s, id); }
  }

  lemma StepReplays(s0: State, s: State, step: Step)
    requires Ready(s0) && Replays(s0, s) && DrainStep(step)
    ensures Replays(s0, Next(s, step))
  {
    StepKeepsSafe(s, step);
    if step.Advance? {
      if s.at.Draining? { DrainReplays(s0, s, s.at.queue, s.at.phase, step.choice.reply); }
    } else {
      PausedReplays(s0, s, step);
      MovedReplays(s0, s, Next(s, step));
    }
  }

  lemma PausedReplays(s0: State, s: State, step: Step)
    requires Ready(s0) && Replays(s0, s) && DrainStep(step) && !step.Advance?
    ensures var t := Next(s, step); t.cloud == s.cloud && t.repo == s.repo && AtTracks(s0, t)
  {
    if step.StartDrain? && s.at.Idle? && IsDueList(s.repo.effects, s.now, step.due) {
      PassReplays(s0, s, step.due);
      PickTracks(s0, s, step.due);
    }
  }

  /** The drain run `trace` leads from the ready state `s0` to `s`. */
  ghost predicate Reached(s0: State, trace: seq<Step>, s: State)
    decreases |trace|, 0
  {
    if trace == [] then Ready(s0) && s == s0
    else ReachedBy(s0, trace[..|trace| - 1], trace[|trace| - 1], s)
  }

  ghost predicate ReachedBy(s0: State, trace: seq<Step>, step: Step, s: State)
    decreases |trace|, 1
  {
    exists u :: Reached(s0, trace, u) && DrainStep(step) && s == Next(u, step)
  }

  lemma ReachedNext(s0: State, trace: seq<Step>, s: State, step: Step)
    requires Reached(s0, trace, s) && DrainStep(step)
    ensures Reached(s0, trace + [step], Next(s, step))
  {
    var longer := trace + [step];
    assert longer[..|longer| - 1] == trace && longer[|longer| - 1] == step;
  }

  lemma {:induction false} ReachedReplays(s0: State, trace: seq<Step>, s: State)
    requires Reached(s0, trace, s)
    ensures Ready(s0) && Replays(s0, s)
    decreases |trace|
  {
    if trace == [] {
      ReadyReplays(s0);
    } else {
      var last := |trace| - 1;
      assert ReachedBy(s0, trace[..last], trace[last], s);
      var u :| Reached(s0, trace[..last], u) && DrainStep(trace[last]) && s == Next(u, trace[last]);
      ReachedReplays(s0, trace[..last], u);
      StepReplays(s0, u, trace[last]);
    }
  }

  /** Being reached by `trace` is being where the run `trace` ends. */
  lemma {:induction false} ReachedByRun(s0: State, before: seq<Step>, s: State, rest: seq<Step>)
    requires Reached(s0, before, s) && DrainRun(rest)
    ensures Reached(s0, before + rest, Run(s, rest))
    decreases |rest|
  {
    if rest == [] {
      assert before + rest == before;
    } else {
      ReachedNext(s0, before, s, rest[0]);
      ReachedByRun(s0, before + [rest[0]], Next(s, rest[0]), rest[1..]);
      assert before + [rest[0]] + rest[1..] == before + rest;
    }
  }

  /* ----- where every drain ends ----- */

  ghost predicate NothingLeft(s: State) {
    s.at.Idle? && forall id :: id in s.repo.effects ==> !Unfinished(s.repo.effects[id].state)
  }

  /** What the destination calendars show, revisions aside. */
  function Contents(s: State): map<Slot, RemoteEvent> {
    map slot | slot in s.cloud.remote :: s.cloud.remote[slot].(rev := 0)
  }

  /** Which copies are recorded with which fingerprints and holds, revisions aside. */
  function Recorded(s: State): map<ProjectionKey, StoredProjection> {
    map key | key in s.repo.projections :: s.repo.projections[key].(rev := None)
  }

  /** Every copy the drain wrote or adopted is recorded with the revision the calendar shows now. */
  ghost predicate RevisionsCurrent(s0: State, s: State) {
    forall id :: Open(s0, id) && id in s.repo.effects && s.repo.effects[id].state.Succeeded? && !s0.repo.effects[id].mutation.op.Delete? ==>
      var e0 := s0.repo.effects[id];
      && e0.mutation.slot in s.cloud.remote && e0.key in s.repo.projections
      && s.repo.projections[e0.key].rev == Some(s.cloud.remote[e0.mutation.slot].rev)
  }

  ghost predicate SameStates(a: Repository, b: Repository) {
    && a.effects.Keys == b.effects.Keys
    && forall id :: id in a.effects ==> a.effects[id].state == b.effects[id].state
  }

  /** An effect that is through has left its slot and its projection as its fate prescribes. */
  lemma Through(s0: State, s: State, id: nat)
    requires Replays(s0, s) && NothingLeft(s) && Open(s0, id)
    ensures var e0 := s0.repo.effects[id];
            var r0, r := SlotAt(s0, e0), SlotAt(s, e0);
            && SlotFinal(e0.mutation, r0, r)
            && ProjectionFinal(e0, r0, ProjectionAt(s0, e0), r, ProjectionAt(s, e0))
    ensures s.repo.effects[id].state ==
            if FateOf(s0.repo.effects[id].mutation, SlotAt(s0, s0.repo.effects[id])).Refused? then Quarantined
            else Succeeded
  {
  }

  function Shown(r: Option<RemoteEvent>): Option<RemoteEvent> {
    if r.Some? then Some(r.value.(rev := 0)) else None
  }

  function Known(p: Option<StoredProjection>): Option<StoredProjection> {
    if p.Some? then Some(p.value.(rev := None)) else None
  }

  lemma SlotsAgree(s0: State, a: State, b: State, slot: Slot)
    requires Replays(s0, a) && Replays(s0, b) && NothingLeft(a) && NothingLeft(b)
    ensures Shown(Lookup(a.cloud.remote, slot)) == Shown(Lookup(b.cloud.remote, slot))
  {
    if SlotConcerned(s0, slot) {
      var id :| Open(s0, id) && s0.repo.effects[id].mutation.slot == slot;
      Through(s0, a, id);
      Through(s0, b, id);
    }
  }

  lemma KeysAgree(s0: State, a: State, b: State, key: ProjectionKey)
    requires Replays(s0, a) && Replays(s0, b) && NothingLeft(a) && NothingLeft(b)
    ensures Known(Lookup(a.repo.projections, key)) == Known(Lookup(b.repo.projections, key))
  {
    if KeyConcerned(s0, key) {
      var id :| Open(s0, id) && s0.repo.effects[id].key == key;
      Through(s0, a, id);
      Through(s0, b, id);
    }
  }

  lemma ContentsAgree(a: State, b: State)
    requires forall slot :: Shown(Lookup(a.cloud.remote, slot)) == Shown(Lookup(b.cloud.remote, slot))
    ensures Contents(a) == Contents(b)
  {
    forall slot ensures slot in a.cloud.remote <==> slot in b.cloud.remote {
      assert Shown(Lookup(a.cloud.remote, slot)) == Shown(Lookup(b.cloud.remote, slot));
    }
    forall slot | slot in a.cloud.remote ensures Contents(a)[slot] == Contents(b)[slot] {
      assert Shown(Lookup(a.cloud.remote, slot)) == Shown(Lookup(b.cloud.remote, slot));
    }
  }

  lemma RecordedAgree(a: State, b: State)
    requires forall key :: Known(Lookup(a.repo.projections, key)) == Known(Lookup(b.repo.projections, key))
    ensures Recorded(a) == Recorded(b)
  {
    forall key ensures key in a.repo.projections <==> key in b.repo.projections {
      assert Known(Lookup(a.repo.projections, key)) == Known(Lookup(b.repo.projections, key));
    }
    forall key | key in a.repo.projections ensures Recorded(a)[key] == Recorded(b)[key] {
      assert Known(Lookup(a.repo.projections, key)) == Known(Lookup(b.repo.projections, key));
    }
  }

  lemma StatesAgree(s0: State, a: State, b: State)
    requires Replays(s0, a) && Replays(s0, b) && NothingLeft(a) && NothingLeft(b)
    ensures SameStates(a.repo, b.repo)
  {
  }

  lemma EndsAgree(s0: State, a: State, b: State)
    requires Replays(s0, a) && Replays(s0, b) && NothingLeft(a) && NothingLeft(b)
    ensures Contents(a) == Contents(b) && Recorded(a) == Recorded(b) && SameStates(a.repo, b.repo)
  {
    forall slot { SlotsAgree(s0, a, b, slot); }
    ContentsAgree(a, b);
    forall key { KeysAgree(s0, a, b, key); }
    RecordedAgree(a, b);
    StatesAgree(s0, a, b);
  }

  /** However the draining is cut and resumed, and whichever answers are lost, once nothing is left
      unfinished the calendars, the recorded copies and the outcome of every effect are the same. */
  lemma DrainsAgree(s0: State, cut: seq<Step>, uncut: seq<Step>)
    requires Ready(s0) && DrainRun(cut) && DrainRun(uncut)
    requires NothingLeft(Run(s0, cut)) && NothingLeft(Run(s0, uncut))
    ensures Contents(Run(s0, cut)) == Contents(Run(s0, uncut))
    ensures Recorded(Run(s0, cut)) == Recorded(Run(s0, uncut))
    ensures SameStates(Run(s0, cut).repo, Run(s0, uncut).repo)
    ensures RevisionsCurrent(s0, Run(s0, cut)) && RevisionsCurrent(s0, Run(s0, uncut))
  {
    assert Reached(s0, [], s0);
    ReachedByRun(s0, [], s0, cut);
    ReachedByRun(s0, [], s0, uncut);
    assert [] + cut == cut && [] + uncut == uncut;
    ReachedAgree(s0, cut, Run(s0, cut), uncut, Run(s0, uncut));
  }

  lemma ReachedAgree(s0: State, cut: seq<Step>, a: State, uncut: seq<Step>, b: State)
    requires Reached(s0, cut, a) && Reached(s0, uncut, b) && NothingLeft(a) && NothingLeft(b)
    ensures Contents(a) == Contents(b) && Recorded(a) == Recorded(b) && SameStates(a.repo, b.repo)
    ensures RevisionsCurrent(s0, a) && RevisionsCurrent(s0, b)
  {
    ReachedReplays(s0, cut, a);
    ReachedReplays(s0, uncut, b);
    EndsAgree(s0, a, b);
    OutcomeCurrent(s0, a);
    OutcomeCurrent(s0, b);
  }

  lemma ReadyReplays(s0: State)
    requires Ready(s0)
    ensures Replays(s0, s0)
  {
  }

  lemma OutcomeCurrent(s0: State, s: State)
    requires Ready(s0) && Replays(s0, s)
    ensures RevisionsCurrent(s0, s)
  {
    forall id | Open(s0, id) && id in s.repo.effects && s.repo.effects[id].state.Succeeded? && !s0.repo.effects[id].mutation.op.Delete?
      ensures var e0 := s0.repo.effects[id];
              && e0.mutation.slot in s.cloud.remote && e0.key in s.repo.projections
              && s.repo.projections[e0.key].rev == Some(s.cloud.remote[e0.mutation.slot].rev)
    {
      assert EffectTracks(s0, s, id);
    }
  }
}
