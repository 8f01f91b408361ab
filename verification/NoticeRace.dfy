/**
 Acknowledging a notice and resolving it are not serialised: an acknowledgement that has read the notice before
 the resolution writes it back after it, and the notice is open again.
 */
module NoticeRace {
  import opened Options
  import opened SyncProtocol
  import opened OwnershipSafety
  import opened HoldLanding
  import HeldBehind
  import RepairPass

  predicate IsResolved(s: State, id: nat) { id in s.repo.notices && s.repo.notices[id].status.Resolved? }

  ghost predicate StaysResolved(s: State, id: nat) { forall steps :: IsResolved(Run(s, steps), id) }

  lemma ProceedKeepsResolved(s: State, c: Choice, id: nat)
    requires IsResolved(s, id) && id < s.repo.nextId
    ensures var t := Proceed(s, c); IsResolved(t, id) && id < t.repo.nextId && t.reading == s.reading
  {
  }

  lemma StepKeepsResolved(s: State, step: Step, id: nat)
    requires IsResolved(s, id) && id < s.repo.nextId && id !in s.reading
    ensures var t := Next(s, step); IsResolved(t, id) && id < t.repo.nextId && id !in t.reading
  {
    if step.Advance? { ProceedKeepsResolved(s, step.choice, id); }
  }

  lemma {:induction false} RunKeepsResolved(s: State, steps: seq<Step>, id: nat)
    requires IsResolved(s, id) && id < s.repo.nextId && id !in s.reading
    ensures IsResolved(Run(s, steps), id)
    decreases |steps|
  {
    if steps != [] {
      StepKeepsResolved(s, steps[0], id);
      RunKeepsResolved(Next(s, steps[0]), steps[1..], id);
    }
  }

  /** A resolved notice stays resolved in every run exactly when no acknowledgement of it is under way. */
  lemma ResolvedExactly(s: State, id: nat)
    requires IsResolved(s, id) && id < s.repo.nextId
    ensures StaysResolved(s, id) <==> id !in s.reading
  {
    if id in s.reading {
      assert !IsResolved(Next(s, Acknowledge(id)), id);
      assert Run(s, [Acknowledge(id)]) == Run(Next(s, Acknowledge(id)), []);
    } else {
      forall steps ensures IsResolved(Run(s, steps), id) { RunKeepsResolved(s, steps, id); }
    }
  }

  /** With nothing in between, acknowledging marks an unread notice and leaves every other one alone. */
  lemma AcknowledgedExactly(s: State, id: nat)
    requires id in s.repo.notices && s.repo.notices[id].id == id && s.reading == multiset{}
    ensures var t := Next(Next(s, ReadNotice(id)), Acknowledge(id));
            t == if s.repo.notices[id].status != Unread then s
                 else s.(repo := s.repo.(notices := s.repo.notices[id := s.repo.notices[id].(status := Acknowledged)]))
  {
    var t := Next(Next(s, ReadNotice(id)), Acknowledge(id));
    assert t.reading == s.reading;
  }

  /* ----- the race happens ----- */

  ghost predicate Comes(s: State) { exists steps :: Run(HeldBehind.NOTHING, steps) == s }

  lemma ComesNext(s: State, step: Step)
    requires Comes(s)
    ensures Comes(Next(s, step))
  {
    var steps :| Run(HeldBehind.NOTHING, steps) == s;
    RunThen(HeldBehind.NOTHING, steps, s, step);
  }

  /** The notice is read, and only then resolved by keeping the change. */
  lemma ReadThenResolved(s: State, id: nat, notice: Notice) returns (t: State)
    requires Comes(s) && s.at.Idle? && Lookup(s.repo.notices, id) == Some(notice) && id < s.repo.nextId
    requires notice.id == id && notice.status.Unread? && CarriesDecision(notice.kind)
    requires notice.key in s.repo.projections
    requires var held := s.repo.projections[notice.key]; held.hold.Some? && !held.detached
    ensures Comes(t) && IsResolved(t, id) && id < t.repo.nextId && id in t.reading
  {
    ComesNext(s, ReadNotice(id));
    t := Next(s, ReadNotice(id));
    ComesNext(t, StartResolve(id, KeepAndDetach));
    t := Next(t, StartResolve(id, KeepAndDetach));
    assert t.at.SaveReleased? && t.at.notice == notice;
    ComesNext(t, Reading(Answer));
    t := Next(t, Reading(Answer));
    assert t.at == MarkResolved(notice);
    ComesNext(t, Reading(Answer));
    t := Next(t, Reading(Answer));
  }

  /** From an empty repository, for every event copied under a policy that holds edits for review, some run
      resolves a notice and then leaves it open again. */
  lemma ResolutionUndone(job: Job, c: Choice, desired: DesiredCopy) returns (steps: seq<Step>, id: nat)
    requires RepairPass.Decides(c, desired) && job.policy.onEdit.HoldForReview?
    ensures Initial(HeldBehind.NOTHING) && IsResolved(Run(HeldBehind.NOTHING, steps), id)
    ensures !IsResolved(Next(Run(HeldBehind.NOTHING, steps), Acknowledge(id)), id)
  {
    var t := HeldBehind.CreateInterrupted(job, c, desired);
    var u, p := HeldBehind.EditedAfter(t, job, c, desired);
    var v := HeldBehind.HoldIt(u, job, c, desired, p);
    id := u.repo.nextId;
    var w := ReadThenResolved(v, id, v.repo.notices[id]);
    steps :| Run(HeldBehind.NOTHING, steps) == w;
  }
}
