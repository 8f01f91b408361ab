/**
 The Mac edition's synchronisation protocol as a state machine.

 One step is one `await` of the coordinator: a repository operation or a provider call, together
 with the local computation up to the next await.  Everything the coordinator does not decide is
 carried by the step: the policy decision, provider faults, clock ticks, crashes and lifecycle
 changes between awaits, and edits other people make to the destination calendars.  `Next` is
 total: a step that is not enabled leaves the state alone.
 */
module SyncProtocol {
  import opened Options

  /* ----- destination calendars ----- */

  datatype CalendarEndpoint = CalendarEndpoint(account: string, calendar: string)

  /** Where a copy lives: a calendar of one account, and an event id in it. */
  datatype Slot = Slot(endpoint: CalendarEndpoint, eventId: string)

  datatype DesiredCopy = DesiredCopy(
    summary: string, details: Option<string>, location: Option<string>,
    start: int, end: int, allDay: bool, free: bool)

  /** The SHA-256 fingerprint of a copy. The digest is taken to be injective, so it names its copy. */
  datatype Digest = Digest(of: DesiredCopy)

  datatype RemoteEvent = RemoteEvent(
    rev: nat, managed: bool, managedPolicy: Option<string>, managedProjection: Option<string>,
    content: DesiredCopy)

  predicate IsOwned(event: RemoteEvent, policy: string, projection: string) {
    && event.managed
    && event.managedPolicy == Some(policy)
    && event.managedProjection == Some(projection)
  }

  /** A revision the provider once handed out, and the event that carried it. */
  datatype Sighting = Sighting(slot: Slot, event: RemoteEvent)

  datatype Operation = Create | Update | Delete

  datatype Mutation = Mutation(
    op: Operation, policy: string, slot: Slot, expected: Option<nat>, desired: Option<DesiredCopy>)

  datatype ProviderError =
    | Unauthorized | Forbidden | QuotaLimited | CursorExpired | Conflict | NotFound | Offline
    | MalformedResponse | Transient | Ambiguous | OwnershipMismatch

  /* ----- the repository ----- */

  datatype ProjectionKey = ProjectionKey(policy: string, sourceEvent: string, occurrence: Option<string>)

  datatype Hold = EditHold | DeleteHold

  datatype StoredProjection = StoredProjection(
    key: ProjectionKey, slot: Slot, digest: Digest, rev: Option<nat>, hold: Option<Hold>, detached: bool)

  predicate Frozen(p: StoredProjection) { p.detached || p.hold.Some? }

  datatype EffectState = Pending | Applying | AmbiguousResult | Quarantined | Succeeded

  predicate Unfinished(state: EffectState) { state.Pending? || state.Applying? || state.AmbiguousResult? }

  datatype IdempotencyKey = IdempotencyKey(
    op: Operation, slot: Slot, policyRevision: nat, sourceRevision: string, digest: Digest)

  datatype OutboxEffect = OutboxEffect(
    id: nat, idempotencyKey: IdempotencyKey, key: ProjectionKey, mutation: Mutation,
    state: EffectState, attempts: nat, nextAttemptAt: nat, createdAt: nat)

  datatype NoticeKind = CopyEditReverted | CopyDeleteRestored | CopyEditHeld | CopyDeleteHeld

  predicate CarriesDecision(kind: NoticeKind) { kind.CopyEditHeld? || kind.CopyDeleteHeld? }

  datatype NoticeStatus = Unread | Acknowledged | Resolved

  datatype Resolution = Restore | KeepAndDetach

  datatype Notice = Notice(id: nat, key: ProjectionKey, kind: NoticeKind, status: NoticeStatus)

  /* ----- policies and source events ----- */

  datatype EditResponse = HoldForReview | RestoreAndNotify | RestoreQuietly

  datatype Policy = Policy(
    id: string, revision: nat, destination: CalendarEndpoint, onEdit: EditResponse, onDelete: EditResponse)

  datatype SourceEvent = SourceEvent(id: string, occurrence: Option<string>, rev: Option<string>)

  datatype Decision = Omit | CopyAs(desired: DesiredCopy) | Remove

  datatype Job = Job(event: SourceEvent, policy: Policy)

  function KeyOf(job: Job): ProjectionKey {
    ProjectionKey(job.policy.id, job.event.id, job.event.occurrence)
  }

  /* ----- the coordinator's position between two awaits ----- */

  datatype Phase =
    | Pick
    | AdoptRead
    | Claim
    | Send
    | Verify
    | SaveFinish(rev: Option<nat>, stop: bool)
    | Settle(stop: bool)
    | RecoverRead
    | Rewrite(mutation: Mutation)
    | ParkAmbiguous
    | ParkQuarantined
    | Postpone(at: nat)

  datatype Position =
    | Idle
    | LoadProjection(job: Job)
    | ReadForCopy(job: Job, projection: StoredProjection, desired: DesiredCopy)
    | ReadForDeletion(job: Job, projection: StoredProjection)
    | SaveHold(projection: StoredProjection, kind: NoticeKind)
    | RecordNotice(key: ProjectionKey, kind: NoticeKind, next: Option<OutboxEffect>)
    | Queue(effect: OutboxEffect, resolving: Option<Notice>)
    | DropProjection(key: ProjectionKey, resolving: Option<Notice>)
    | SaveReleased(notice: Notice, projection: StoredProjection, action: Resolution)
    | RestoreRead(notice: Notice, projection: StoredProjection)
    | MarkResolved(notice: Notice)
    | Draining(queue: seq<OutboxEffect>, phase: Phase)

  /** A mutation the provider carried out, with what it found in the slot. */
  datatype Accepted = Accepted(mutation: Mutation, before: Option<RemoteEvent>)

  /** The destination calendars. `seen` and `accepted` are history: every revision handed out, and
      every mutation carried out. */
  datatype Provider = Provider(
    remote: map<Slot, RemoteEvent>, nextRev: nat, seen: map<nat, Sighting>, accepted: seq<Accepted>)

  /** What survives a crash on the Mac. */
  datatype Repository = Repository(
    projections: map<ProjectionKey, StoredProjection>,
    notices: map<nat, Notice>,
    effects: map<nat, OutboxEffect>,
    byIdempotencyKey: map<IdempotencyKey, nat>,
    nextId: nat)

  /** `sent` is history: the effects whose mutation went out to the provider. `reading` holds the notices that
      an acknowledgement has read as unread and not yet written back. */
  datatype State = State(
    cloud: Provider, repo: Repository, now: nat, at: Position, sent: seq<OutboxEffect>, reading: multiset<nat>)

  /* ----- steps ----- */

  datatype Reply = Answer | Fault(error: ProviderError, landed: bool)

  datatype Choice = Choice(
    decision: Decision, eventId: string, policy: Option<Policy>, event: Option<SourceEvent>, reply: Reply)

  datatype Edit = Put(managed: bool, policy: Option<string>, projection: Option<string>, content: DesiredCopy) | Erase

  datatype Step =
    | StartReconcile(job: Job)
    | StartResolve(noticeId: nat, action: Resolution)
    | StartDrain(due: seq<OutboxEffect>)
    | Advance(choice: Choice)
    | Interrupt(restart: bool)
    | ReadNotice(noticeId: nat)
    | Acknowledge(noticeId: nat)
    | Tick(now: nat)
    | Outside(slot: Slot, edit: Edit)

  function Lookup<K, V>(m: map<K, V>, k: K): Option<V> { if k in m then Some(m[k]) else None }

  /* ----- the provider ----- */

  function PutEvent(c: Provider, slot: Slot, event: RemoteEvent): Provider {
    Provider(c.remote[slot := event], c.nextRev + 1, c.seen[event.rev := Sighting(slot, event)], c.accepted)
  }

  function Written(m: Mutation, desired: DesiredCopy, rev: nat): RemoteEvent {
    RemoteEvent(rev, true, Some(m.policy), Some(m.slot.eventId), desired)
  }

  /** If-Match is honoured when a revision is sent, and only then; a create needs an empty slot. */
  predicate Accepts(remote: map<Slot, RemoteEvent>, m: Mutation) {
    if m.op.Create? then m.desired.Some? && m.slot !in remote
    else
      && (m.op.Update? ==> m.desired.Some?)
      && m.slot in remote
      && (m.expected.Some? ==> remote[m.slot].rev == m.expected.value)
  }

  function CarryOut(c: Provider, m: Mutation): Provider {
    if !Accepts(c.remote, m) then c
    else
      var logged := c.(accepted := c.accepted + [Accepted(m, Lookup(c.remote, m.slot))]);
      if m.op.Delete? then logged.(remote := c.remote - {m.slot})
      else PutEvent(logged, m.slot, Written(m, m.desired.value, c.nextRev))
  }

  /** The error the Google adapter reports once the provider has answered, if any. */
  function AnswerTo(remote: map<Slot, RemoteEvent>, m: Mutation): Option<ProviderError> {
    if Accepts(remote, m) then None
    else if m.op.Create? || m.slot in remote then Some(Conflict)
    else if m.op.Delete? then None          // 404 on DELETE counts as success
    else Some(NotFound)
  }

  function Outsider(c: Provider, slot: Slot, edit: Edit): Provider {
    match edit
    case Erase => c.(remote := c.remote - {slot})
    case Put(managed, policy, projection, content) =>
      PutEvent(c, slot, RemoteEvent(c.nextRev, managed, policy, projection, content))
  }

  /* ----- the repository ----- */

  function SaveProjection(r: Repository, p: StoredProjection): Repository {
    r.(projections := r.projections[p.key := p])
  }

  function DeleteProjection(r: Repository, key: ProjectionKey): Repository {
    r.(projections := r.projections - {key})
  }

  function SetEffect(r: Repository, effect: OutboxEffect): Repository {
    r.(effects := r.effects[effect.id := effect])
  }

  function MarkState(r: Repository, id: nat, state: EffectState): Repository {
    if id in r.effects then SetEffect(r, r.effects[id].(id := id, state := state)) else r
  }

  function MarkApplying(r: Repository, id: nat): Repository {
    if id in r.effects then
      SetEffect(r, r.effects[id].(id := id, state := Applying, attempts := r.effects[id].attempts + 1))
    else r
  }

  function ScheduleRetry(r: Repository, id: nat, at: nat): Repository {
    if id in r.effects then SetEffect(r, r.effects[id].(id := id, state := Pending, nextAttemptAt := at)) else r
  }

  function ReviseEffect(r: Repository, id: nat, m: Mutation, at: nat): Repository {
    if id in r.effects then
      SetEffect(r, r.effects[id].(id := id, mutation := m, state := Pending, nextAttemptAt := at))
    else r
  }

  /** Re-issuing an intent replaces a completed effect and is dropped while one is still open. */
  function EnqueueEffect(r: Repository, effect: OutboxEffect): Repository {
    var earlier := Lookup(r.byIdempotencyKey, effect.idempotencyKey);
    if earlier.Some? && earlier.value in r.effects && !r.effects[earlier.value].state.Succeeded? then r
    else
      var kept := if earlier.Some? then r.effects - {earlier.value} else r.effects;
      r.(effects := kept[r.nextId := effect.(id := r.nextId)],
         byIdempotencyKey := r.byIdempotencyKey[effect.idempotencyKey := r.nextId],
         nextId := r.nextId + 1)
  }

  function AddNotice(r: Repository, key: ProjectionKey, kind: NoticeKind): Repository {
    r.(notices := r.notices[r.nextId := Notice(r.nextId, key, kind, Unread)], nextId := r.nextId + 1)
  }

  function SetNotice(r: Repository, notice: Notice, status: NoticeStatus): Repository {
    r.(notices := r.notices[notice.id := notice.(status := status)])
  }

  predicate IsDue(effect: OutboxEffect, now: nat) { Unfinished(effect.state) && effect.nextAttemptAt <= now }

  predicate NotAfter(a: OutboxEffect, b: OutboxEffect) {
    a.nextAttemptAt < b.nextAttemptAt || (a.nextAttemptAt == b.nextAttemptAt && a.createdAt <= b.createdAt)
  }

  const DRAIN_LIMIT := 100

  /** `due` is a possible answer of the repository's query for due effects. */
  ghost predicate IsDueList(effects: map<nat, OutboxEffect>, now: nat, due: seq<OutboxEffect>) {
    && |due| <= DRAIN_LIMIT
    && (forall i :: 0 <= i < |due| ==>
          due[i].id in effects && effects[due[i].id] == due[i] && IsDue(due[i], now))
    && (forall i, j :: 0 <= i < j < |due| ==> due[i].id != due[j].id && NotAfter(due[i], due[j]))
    && (forall id :: id in effects && IsDue(effects[id], now) && effects[id] !in due ==>
          |due| == DRAIN_LIMIT && forall i :: 0 <= i < |due| ==> NotAfter(due[i], effects[id]))
  }

  function NewEffect(now: nat, op: Operation, policy: Policy, sourceRev: Option<string>, key: ProjectionKey,
                     slot: Slot, expected: Option<nat>, desired: Option<DesiredCopy>, digest: Digest): OutboxEffect
  {
    var source := if sourceRev.Some? then sourceRev.value else "unversioned";
    OutboxEffect(0, IdempotencyKey(op, slot, policy.revision, source, digest), key,
                 Mutation(op, policy.id, slot, expected, desired), Pending, 0, now, now)
  }

  /* ----- reconcile: where each read leads ----- */

  function AfterProjection(found: Option<StoredProjection>, now: nat, job: Job, c: Choice): Position {
    if found.Some? && Frozen(found.value) then Idle
    else if found.Some? && found.value.slot.endpoint != job.policy.destination then
      ReadForDeletion(job, found.value)
    else
      match c.decision
      case Omit => Idle
      case Remove => if found.Some? then ReadForDeletion(job, found.value) else Idle
      case CopyAs(desired) =>
        if found.Some? then ReadForCopy(job, found.value, desired)
        else
          Queue(NewEffect(now, Create, job.policy, job.event.rev, KeyOf(job),
                          Slot(job.policy.destination, c.eventId), None, Some(desired), Digest(desired)), None)
  }

  function AfterMissing(now: nat, job: Job, p: StoredProjection, desired: DesiredCopy): Position {
    var create := NewEffect(now, Create, job.policy, job.event.rev, KeyOf(job),
                            Slot(job.policy.destination, p.slot.eventId), None, Some(desired), Digest(desired));
    match job.policy.onDelete
    case HoldForReview => SaveHold(p.(hold := Some(DeleteHold)), CopyDeleteHeld)
    case RestoreAndNotify => RecordNotice(KeyOf(job), CopyDeleteRestored, Some(create))
    case RestoreQuietly => Queue(create, None)
  }

  function AfterOwned(observed: RemoteEvent, now: nat, job: Job, p: StoredProjection, desired: DesiredCopy): Position {
    var update := NewEffect(now, Update, job.policy, job.event.rev, KeyOf(job),
                            Slot(job.policy.destination, p.slot.eventId),
                            Some(observed.rev), Some(desired), Digest(desired));
    if p.rev.Some? && p.rev != Some(observed.rev) then
      match job.policy.onEdit
      case HoldForReview => SaveHold(p.(hold := Some(EditHold)), CopyEditHeld)
      case RestoreAndNotify => RecordNotice(KeyOf(job), CopyEditReverted, Some(update))
      case RestoreQuietly => Queue(update, None)
    else if p.digest == Digest(desired) then Idle
    else Queue(update, None)
  }

  function AfterCopyRead(remote: map<Slot, RemoteEvent>, now: nat, job: Job, p: StoredProjection,
                         desired: DesiredCopy, c: Choice): Position
  {
    if c.reply.Fault? then Idle
    else if p.slot !in remote then AfterMissing(now, job, p, desired)
    else if !IsOwned(remote[p.slot], job.policy.id, p.slot.eventId) then Idle
    else AfterOwned(remote[p.slot], now, job, p, desired)
  }

  function AfterDeletionRead(remote: map<Slot, RemoteEvent>, now: nat, job: Job, p: StoredProjection, c: Choice): Position {
    if c.reply.Fault? then Idle
    else if p.slot !in remote then DropProjection(KeyOf(job), None)
    else if !IsOwned(remote[p.slot], job.policy.id, p.slot.eventId) then Idle
    else
      Queue(NewEffect(now, Delete, job.policy, job.event.rev, KeyOf(job), p.slot,
                      Some(remote[p.slot].rev), None, p.digest), None)
  }

  /* ----- notice resolution ----- */

  function BeginResolve(r: Repository, id: nat, action: Resolution): Position {
    if id !in r.notices then Idle
    else
      var notice := r.notices[id];
      if !CarriesDecision(notice.kind) || notice.status.Resolved? || notice.key !in r.projections then Idle
      else
        var p := r.projections[notice.key];
        if p.hold.None? || p.detached then Idle
        else SaveReleased(notice, p.(hold := None, detached := action.KeepAndDetach?), action)
  }

  function AfterRestoreRead(remote: map<Slot, RemoteEvent>, now: nat, notice: Notice, p: StoredProjection, c: Choice): Position {
    var found := Lookup(remote, p.slot);
    if c.policy.None? || c.policy.value.id != notice.key.policy || c.reply.Fault? then Idle
    else if found.Some? && !IsOwned(found.value, c.policy.value.id, p.slot.eventId) then Idle
    else if c.event.Some? && c.decision.CopyAs? then
      var desired := c.decision.desired;
      Queue(NewEffect(now, if found.None? then Create else Update, c.policy.value, c.event.value.rev,
                      notice.key, p.slot, if found.Some? then Some(found.value.rev) else None,
                      Some(desired), Digest(desired)), Some(notice))
    else if found.None? then DropProjection(notice.key, Some(notice))
    else
      Queue(NewEffect(now, Delete, c.policy.value, if c.event.Some? then c.event.value.rev else None,
                      notice.key, p.slot, Some(found.value.rev), None, p.digest), Some(notice))
  }

  function AfterWrite(resolving: Option<Notice>): Position {
    if resolving.Some? then MarkResolved(resolving.value) else Idle
  }

  /* ----- draining the outbox ----- */

  function Backoff(attempts: nat): nat {
    if attempts == 0 then 10 else if attempts == 1 then 20 else if attempts == 2 then 40
    else if attempts == 3 then 80 else if attempts == 4 then 160 else 300
  }

  function AsCreate(m: Mutation): Mutation { m.(op := Create, expected := None) }

  /** The drain's error switch. */
  function OnError(effect: OutboxEffect, now: nat, error: ProviderError): Phase {
    match error
    case Ambiguous => ParkAmbiguous
    case OwnershipMismatch => ParkQuarantined
    case Conflict => RecoverRead
    case NotFound =>
      if effect.mutation.op.Delete? then SaveFinish(None, false)
      else if effect.mutation.op.Update? then Rewrite(AsCreate(effect.mutation))
      else Postpone(now + Backoff(effect.attempts))
    case Unauthorized => Postpone(now + 300)
    case Forbidden => Postpone(now + 300)
    case _ => Postpone(now + Backoff(effect.attempts))
  }

  function AfterPick(effect: OutboxEffect): Phase {
    if effect.mutation.op.Create? && (effect.state.AmbiguousResult? || effect.state.Applying?) then AdoptRead
    else Claim
  }

  function AfterAdoptRead(remote: map<Slot, RemoteEvent>, effect: OutboxEffect, now: nat, reply: Reply): Phase {
    var m := effect.mutation;
    if reply.Fault? then OnError(effect, now, reply.error)
    else if m.slot !in remote then Claim
    else if !IsOwned(remote[m.slot], m.policy, m.slot.eventId) then ParkQuarantined
    else SaveFinish(Some(remote[m.slot].rev), false)
  }

  /** A create or update without a desired copy fails before anything is sent. */
  predicate Sendable(m: Mutation) { m.op.Delete? || m.desired.Some? }

  function AfterSend(remote: map<Slot, RemoteEvent>, effect: OutboxEffect, now: nat, reply: Reply): Phase {
    var m := effect.mutation;
    if !Sendable(m) then OnError(effect, now, MalformedResponse)
    else if reply.Fault? then OnError(effect, now, reply.error)
    else
      match AnswerTo(remote, m)
      case Some(error) => OnError(effect, now, error)
      case None => if m.op.Delete? then SaveFinish(None, false) else Verify
  }

  predicate Lands(m: Mutation, reply: Reply) { Sendable(m) && (reply.Fault? ==> reply.landed) }

  function AfterVerify(remote: map<Slot, RemoteEvent>, effect: OutboxEffect, now: nat, reply: Reply): Phase {
    var m := effect.mutation;
    if reply.Fault? then OnError(effect, now, reply.error)
    else if m.slot !in remote then ParkAmbiguous
    else if !IsOwned(remote[m.slot], m.policy, m.slot.eventId) then ParkQuarantined
    else SaveFinish(Some(remote[m.slot].rev), false)
  }

  /** Conflict recovery; `None` when the recovery read itself fails and the pass ends. */
  function AfterRecoverRead(remote: map<Slot, RemoteEvent>, effect: OutboxEffect, reply: Reply): Option<Phase> {
    var m := effect.mutation;
    if reply.Fault? then if reply.error.OwnershipMismatch? then Some(ParkQuarantined) else None
    else if m.slot !in remote then
      if m.op.Delete? then Some(SaveFinish(None, true)) else Some(Rewrite(AsCreate(m)))
    else if !IsOwned(remote[m.slot], m.policy, m.slot.eventId) then Some(ParkQuarantined)
    else if m.op.Create? then Some(SaveFinish(Some(remote[m.slot].rev), true))
    else Some(Rewrite(m.(expected := Some(remote[m.slot].rev))))
  }

  function Finish(r: Repository, effect: OutboxEffect, rev: Option<nat>): Repository {
    var m := effect.mutation;
    if m.op.Delete? then DeleteProjection(r, effect.key)
    else if m.desired.None? then r
    else SaveProjection(r, StoredProjection(effect.key, m.slot, Digest(m.desired.value), rev, None, false))
  }

  function OnDrain(s: State, queue: seq<OutboxEffect>, phase: Phase, reply: Reply): State {
    if queue == [] then s.(at := Idle)
    else
      var e := queue[0];
      var remote := s.cloud.remote;
      match phase
      case Pick => s.(at := Draining(queue, AfterPick(e)))
      case AdoptRead => s.(at := Draining(queue, AfterAdoptRead(remote, e, s.now, reply)))
      case Claim => s.(repo := MarkApplying(s.repo, e.id), at := Draining(queue, Send))
      case Send =>
        State(if Lands(e.mutation, reply) then CarryOut(s.cloud, e.mutation) else s.cloud, s.repo, s.now,
              Draining(queue, AfterSend(remote, e, s.now, reply)),
              if Sendable(e.mutation) then s.sent + [e] else s.sent, s.reading)
      case Verify => s.(at := Draining(queue, AfterVerify(remote, e, s.now, reply)))
      case SaveFinish(rev, stop) =>
        s.(repo := Finish(s.repo, e, rev),
           at := if Sendable(e.mutation) then Draining(queue, Settle(stop))
                 else if stop then Idle else Draining(queue[1..], Pick))
      case Settle(stop) =>
        s.(repo := MarkState(s.repo, e.id, Succeeded), at := if stop then Idle else Draining(queue[1..], Pick))
      case RecoverRead =>
        var next := AfterRecoverRead(remote, e, reply);
        s.(at := if next.Some? then Draining(queue, next.value) else Idle)
      case Rewrite(m) => s.(repo := ReviseEffect(s.repo, e.id, m, s.now), at := Idle)
      case ParkAmbiguous => s.(repo := MarkState(s.repo, e.id, AmbiguousResult), at := Idle)
      case ParkQuarantined => s.(repo := MarkState(s.repo, e.id, Quarantined), at := Draining(queue[1..], Pick))
      case Postpone(t) => s.(repo := ScheduleRetry(s.repo, e.id, t), at := Idle)
  }

  /* ----- the whole machine ----- */

  function Proceed(s: State, c: Choice): State {
    match s.at
    case Idle => s
    case LoadProjection(job) =>
      s.(at := AfterProjection(Lookup(s.repo.projections, KeyOf(job)), s.now, job, c))
    case ReadForCopy(job, p, desired) => s.(at := AfterCopyRead(s.cloud.remote, s.now, job, p, desired, c))
    case ReadForDeletion(job, p) => s.(at := AfterDeletionRead(s.cloud.remote, s.now, job, p, c))
    case SaveHold(p, kind) => s.(repo := SaveProjection(s.repo, p), at := RecordNotice(p.key, kind, None))
    case RecordNotice(key, kind, next) =>
      s.(repo := AddNotice(s.repo, key, kind), at := if next.Some? then Queue(next.value, None) else Idle)
    case Queue(effect, resolving) => s.(repo := EnqueueEffect(s.repo, effect), at := AfterWrite(resolving))
    case DropProjection(key, resolving) => s.(repo := DeleteProjection(s.repo, key), at := AfterWrite(resolving))
    case SaveReleased(notice, p, action) =>
      s.(repo := SaveProjection(s.repo, p),
         at := if action.Restore? then RestoreRead(notice, p) else MarkResolved(notice))
    case RestoreRead(notice, p) => s.(at := AfterRestoreRead(s.cloud.remote, s.now, notice, p, c))
    case MarkResolved(notice) => s.(repo := SetNotice(s.repo, notice, Resolved), at := Idle)
    case Draining(queue, phase) => OnDrain(s, queue, phase, c.reply)
  }

  /** Acknowledging reads a notice and, if it is unread, writes it back later, outside the run slot. An interruption
      ends what the coordinator is doing; a restart also forgets the acknowledgements under way. */
  ghost function Next(s: State, step: Step): State {
    match step
    case StartReconcile(job) => if s.at.Idle? then s.(at := LoadProjection(job)) else s
    case StartResolve(id, action) => if s.at.Idle? then s.(at := BeginResolve(s.repo, id, action)) else s
    case StartDrain(due) =>
      if s.at.Idle? && IsDueList(s.repo.effects, s.now, due) then s.(at := Draining(due, Pick)) else s
    case Advance(choice) => Proceed(s, choice)
    case Interrupt(restart) => s.(at := Idle, reading := if restart then multiset{} else s.reading)
    case ReadNotice(id) =>
      if id in s.repo.notices && s.repo.notices[id].status.Unread? then s.(reading := s.reading + multiset{id}) else s
    case Acknowledge(id) =>
      if id in s.reading && id in s.repo.notices then
        s.(repo := SetNotice(s.repo, s.repo.notices[id].(id := id), Acknowledged), reading := s.reading - multiset{id})
      else s
    case Tick(now) => if s.now <= now then s.(now := now) else s
    case Outside(slot, edit) => s.(cloud := Outsider(s.cloud, slot, edit))
  }

  ghost function Run(s: State, steps: seq<Step>): State
    decreases |steps|
  {
    if steps == [] then s else Run(Next(s, steps[0]), steps[1..])
  }

  lemma RunThen(s: State, steps: seq<Step>, t: State, step: Step)
    requires Run(s, steps) == t
    ensures Run(s, steps + [step]) == Next(t, step)
  {
    RunConcat(s, steps, [step]);
    assert [step][1..] == [];
    assert Run(t, [step]) == Run(Next(t, step), []);
  }

  lemma {:induction false} RunConcat(s: State, a: seq<Step>, b: seq<Step>)
    ensures Run(s, a + b) == Run(Run(s, a), b)
    decreases |a|
  {
    if a == [] {
      assert a + b == b;
    } else {
      assert (a + b)[0] == a[0] && (a + b)[1..] == a[1..] + b;
      RunConcat(Next(s, a[0]), a[1..], b);
    }
  }
}
