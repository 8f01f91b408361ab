/**
 Wherever a drain was cut, undisturbed draining finishes the job: every state a disturbed drain can
 reach has a continuation, with every provider call answered, that leaves nothing unfinished.
 */
module DrainCompletes {
  import opened Options
  import opened SyncProtocol
  import opened OwnershipSafety
  import opened CrashReplay
  import opened DueEffects
  import opened FiniteSets

  /** Sending the mutation as it stands is refused although the slot is empty or holds the owned copy;
      the drain rewrites it first. */
  predicate NeedsRewrite(remote: map<Slot, RemoteEvent>, m: Mutation) {
    if m.slot !in remote then m.op.Update?
    else
      && !m.op.Create?
      && m.expected != Some(remote[m.slot].rev)
      && IsOwned(remote[m.slot], m.policy, m.slot.eventId)
  }

  function Rank(phase: Phase): nat {
    match phase
    case Pick => 9
    case AdoptRead => 8
    case Claim => 7
    case Send => 6
    case RecoverRead => 5
    case Verify => 4
    case SaveFinish(_, _) => 3
    case Settle(_) => 2
    case _ => 1
  }

  const ANSWERED := Advance(Choice(Omit, "", None, None, Answer))

  /** What the phase says, relative to the calendars `cloud0` the effect was picked in. */
  ghost predicate PhaseSincePick(cloud0: Provider, cloud: Provider, m: Mutation, phase: Phase) {
    && (Rank(phase) >= 5 || phase.Rewrite? ==> cloud == cloud0)
    && (phase.RecoverRead? ==>
          m.slot in cloud.remote && (m.op.Create? || m.expected != Some(cloud.remote[m.slot].rev)))
    && (phase.Rewrite? ==> NeedsRewrite(cloud.remote, m) && !NeedsRewrite(cloud.remote, phase.mutation))
    && !phase.ParkAmbiguous? && !phase.Postpone?
  }

  /** The effect is through, or it is rewritten so that its next attempt goes through. */
  ghost predicate Advanced(cloud0: Provider, m: Mutation, t: State, id: nat) {
    && id in t.repo.effects
    && (!Unfinished(t.repo.effects[id].state)
        || (&& NeedsRewrite(cloud0.remote, m) && t.cloud == cloud0
            && !NeedsRewrite(cloud0.remote, t.repo.effects[id].mutation)))
  }

  lemma AnsweredSend(c: Provider, e: OutboxEffect, now: nat)
    requires Sendable(e.mutation) && MutationSafe(c.seen, e.mutation)
    ensures var next := AfterSend(c.remote, e, now, Answer);
            PhaseSincePick(c, CarryOut(c, e.mutation), e.mutation, next) && Rank(next) < 6
  {
  }

  lemma AnsweredReads(cloud0: Provider, c: Provider, e: OutboxEffect, now: nat)
    ensures c == cloud0 ==>
              var next := AfterAdoptRead(c.remote, e, now, Answer);
              PhaseSincePick(cloud0, c, e.mutation, next) && Rank(next) < 8
    ensures IsWritten(e.mutation, Lookup(c.remote, e.mutation.slot)) ==>
              var next := AfterVerify(c.remote, e, now, Answer);
              PhaseSincePick(cloud0, c, e.mutation, next) && Rank(next) < 4
    ensures PhaseSincePick(cloud0, c, e.mutation, RecoverRead) ==>
              var next := AfterRecoverRead(c.remote, e, Answer);
              next.Some? && PhaseSincePick(cloud0, c, e.mutation, next.value) && Rank(next.value) < 5
  {
  }

  /** One answered step keeps the relation to the calendars the effect was picked in, or completes it. */
  lemma StepSincePick(s0: State, cloud0: Provider, s: State, queue: seq<OutboxEffect>, phase: Phase)
    requires queue != [] && HeadReady(s0, s, queue[0], phase)
    requires MutationSafe(s.cloud.seen, queue[0].mutation)
    requires PhaseSincePick(cloud0, s.cloud, queue[0].mutation, phase)
    ensures var t := OnDrain(s, queue, phase, Answer);
            if t.at.Draining? && t.at.queue == queue
            then PhaseSincePick(cloud0, t.cloud, queue[0].mutation, t.at.phase) && Rank(t.at.phase) < Rank(phase)
            else Advanced(cloud0, queue[0].mutation, t, queue[0].id)
                 && (t.at.Idle? || t.at == Draining(queue[1..], Pick))
  {
    var e := queue[0];
    var e0 := s0.repo.effects[e.id];
    assert Tracks(e0, SlotAt(s0, e0), ProjectionAt(s0, e0), s.repo.effects[e.id], SlotAt(s, e0), ProjectionAt(s, e0));
    assert Sendable(e.mutation);
    assert |queue[1..]| < |queue|;
    AnsweredReads(cloud0, s.cloud, e, s.now);
    if phase.Send? {
      AnsweredSend(s.cloud, e, s.now);
    } else if phase.Verify? {
      assert IsWritten(e.mutation, SlotAt(s, e0));
    } else if !phase.AdoptRead? && !phase.RecoverRead? {
      MarkSincePick(s0, cloud0, s, queue, phase);
    }
  }

  lemma MarkSincePick(s0: State, cloud0: Provider, s: State, queue: seq<OutboxEffect>, phase: Phase)
    requires queue != [] && HeadReady(s0, s, queue[0], phase) && Sendable(queue[0].mutation)
    requires PhaseSincePick(cloud0, s.cloud, queue[0].mutation, phase)
    requires !phase.Send? && !phase.Verify? && !phase.AdoptRead? && !phase.RecoverRead?
    ensures var t := OnDrain(s, queue, phase, Answer);
            if phase.Pick? || phase.Claim? || phase.SaveFinish?
            then t.at.Draining? && t.at.queue == queue && Rank(t.at.phase) < Rank(phase)
                 && PhaseSincePick(cloud0, t.cloud, queue[0].mutation, t.at.phase)
            else Advanced(cloud0, queue[0].mutation, t, queue[0].id)
                 && (t.at.Idle? || t.at == Draining(queue[1..], Pick))
  {
  }

  /* ----- answered awaits ----- */

  /** Some disturbed drain from the ready state `s0` leads to `s`. */
  ghost predicate Comes(s0: State, s: State) { exists trace :: Reached(s0, trace, s) }

  lemma ComesNext(s0: State, s: State, step: Step)
    requires Comes(s0, s) && DrainStep(step)
    ensures Comes(s0, Next(s, step))
  {
    var trace :| Reached(s0, trace, s);
    ReachedNext(s0, trace, s, step);
  }

  lemma ComesReplays(s0: State, s: State)
    requires Comes(s0, s)
    ensures Ready(s0) && Replays(s0, s)
  {
    var trace :| Reached(s0, trace, s);
    ReachedReplays(s0, trace, s);
  }

  function Copies(step: Step, n: nat): seq<Step> { seq(n, _ => step) }

  /** The step, taken `n` times, leads from `s` to `t`. */
  ghost predicate Repeats(s: State, step: Step, n: nat, t: State) { Run(s, Copies(step, n)) == t }

  lemma RepeatsJoin(s: State, step: Step, m: nat, u: State, n: nat, t: State)
    requires Repeats(s, step, m, u) && Repeats(u, step, n, t)
    ensures Repeats(s, step, m + n, t)
  {
    assert Copies(step, m) + Copies(step, n) == Copies(step, m + n);
    RunConcat(s, Copies(step, m), Copies(step, n));
  }

  lemma RepeatsOne(s: State, step: Step)
    ensures Repeats(s, step, 1, Next(s, step))
  {
    assert [] + [step] == Copies(step, 1);
    RunThen(s, [], s, step);
  }

  lemma HeadIsReady(s0: State, s: State, queue: seq<OutboxEffect>, phase: Phase)
    requires Comes(s0, s) && s.at == Draining(queue, phase) && queue != []
    ensures HeadReady(s0, s, queue[0], phase) && MutationSafe(s.cloud.seen, queue[0].mutation)
  {
    ComesReplays(s0, s);
    assert Current(s0, s, queue[0]);
  }

  /* ----- measure ----- */

  function Left(s: State): set<nat> {
    set id | id in s.repo.effects && Unfinished(s.repo.effects[id].state)
  }

  function ToRewrite(s: State): set<nat> {
    set id | id in s.repo.effects && Unfinished(s.repo.effects[id].state)
             && NeedsRewrite(s.cloud.remote, s.repo.effects[id].mutation)
  }

  /** What is left to do apart from `id`. */
  ghost predicate SameElsewhere(s: State, t: State, id: nat) {
    Left(t) - {id} == Left(s) - {id} && ToRewrite(t) - {id} == ToRewrite(s) - {id}
  }

  /** No other unfinished effect shares the slot of `id`. */
  lemma SlotsStayApart(s0: State, s: State, id: nat, x: nat)
    requires Comes(s0, s) && Open(s0, id) && x in Left(s) && x != id
    ensures s.repo.effects[x].mutation.slot != s0.repo.effects[id].mutation.slot
  {
    ComesReplays(s0, s);
    assert Open(s0, x) && EffectTracks(s0, s, x);
  }

  lemma OthersKept(s0: State, s: State, t: State, id: nat)
    requires Comes(s0, s) && Open(s0, id) && TouchesOnly(s0, s, t, id)
    ensures SameElsewhere(s, t, id)
  {
    assert forall x :: x != id ==> (x in Left(t) <==> x in Left(s));
    forall x | x in Left(s) && x != id ensures x in ToRewrite(t) <==> x in ToRewrite(s) {
      SlotsStayApart(s0, s, id, x);
      var slot := s.repo.effects[x].mutation.slot;
      assert Lookup(t.cloud.remote, slot) == Lookup(s.cloud.remote, slot);
    }
  }

  /** What is still to be done: complete an effect, and rewrite it before if need be. */
  function Work(s: State): nat { |Left(s)| + |ToRewrite(s)| }

  /** Completing or rewriting one effect brings the end closer. */
  lemma WorkDrops(s: State, t: State, id: nat)
    requires id in Left(s) && SameElsewhere(s, t, id) && Advanced(s.cloud, s.repo.effects[id].mutation, t, id)
    ensures Work(t) < Work(s)
  {
    assert forall x :: x in Left(t) && x != id ==> x in Left(t) - {id};
    assert forall x :: x in ToRewrite(t) && x != id ==> x in ToRewrite(t) - {id};
    assert Left(t) <= Left(s) && ToRewrite(t) <= ToRewrite(s);
    SubsetAtMost(Left(t), Left(s));
    SubsetAtMost(ToRewrite(t), ToRewrite(s));
    if id in Left(t) {
      assert id in ToRewrite(s) && id !in ToRewrite(t);
      SubsetSmaller(ToRewrite(t), ToRewrite(s));
    } else {
      SubsetSmaller(Left(t), Left(s));
    }
  }

  lemma IdsStayPut(s0: State, s: State)
    requires Comes(s0, s)
    ensures IdsMatch(s.repo.effects)
  {
    ComesReplays(s0, s);
    forall x | x in s.repo.effects ensures s.repo.effects[x].id == x {
      if Open(s0, x) { assert EffectTracks(s0, s, x); }
    }
  }

  /* ----- one effect ----- */

  /** One answered step of the effect at the head of the list. */
  lemma AnsweredStep(s0: State, cloud0: Provider, s: State, queue: seq<OutboxEffect>, phase: Phase)
    returns (next: Option<Phase>, t: State)
    requires Comes(s0, s) && s.at == Draining(queue, phase) && queue != []
    requires PhaseSincePick(cloud0, s.cloud, queue[0].mutation, phase)
    ensures Repeats(s, ANSWERED, 1, t) && Comes(s0, t) && SameElsewhere(s, t, queue[0].id)
    ensures if next.Some?
            then t.at == Draining(queue, next.value) && Rank(next.value) < Rank(phase)
                 && PhaseSincePick(cloud0, t.cloud, queue[0].mutation, next.value)
            else Advanced(cloud0, queue[0].mutation, t, queue[0].id)
                 && (t.at.Idle? || t.at == Draining(queue[1..], Pick))
  {
    t := OnDrain(s, queue, phase, Answer);
    HeadIsReady(s0, s, queue, phase);
    StepSincePick(s0, cloud0, s, queue, phase);
    DrainTouchesHead(s0, s, queue, phase, Answer);
    OthersKept(s0, s, t, queue[0].id);
    ComesNext(s0, s, ANSWERED);
    RepeatsOne(s, ANSWERED);
    next := if t.at.Draining? && t.at.queue == queue then Some(t.at.phase) else None;
  }

  /** Answered throughout, the effect at the head of the list is completed or rewritten, and the pass goes on
      with the next one or ends. */
  lemma {:induction false} FinishHead(s0: State, cloud0: Provider, s: State, queue: seq<OutboxEffect>, phase: Phase)
    returns (n: nat, t: State)
    requires Comes(s0, s) && s.at == Draining(queue, phase) && queue != []
    requires PhaseSincePick(cloud0, s.cloud, queue[0].mutation, phase)
    ensures n <= Rank(phase) && Repeats(s, ANSWERED, n, t) && Comes(s0, t)
    ensures t.at.Idle? || t.at == Draining(queue[1..], Pick)
    ensures SameElsewhere(s, t, queue[0].id) && Advanced(cloud0, queue[0].mutation, t, queue[0].id)
    decreases Rank(phase)
  {
    var next;
    next, t := AnsweredStep(s0, cloud0, s, queue, phase);
    n := 1;
    if next.Some? {
      var m, u := FinishHead(s0, cloud0, t, queue, next.value);
      RepeatsJoin(s, ANSWERED, 1, t, m, u);
      n, t := 1 + m, u;
    }
  }

  /* ----- one pass ----- */

  /** Any pass over the due effects: wait, query, and go on until the list is worked off. */
  datatype Pass = Pass(now: nat, due: seq<OutboxEffect>)

  /** The query may answer `p.due` at that time, and answers something. */
  ghost predicate Productive(s: State, p: Pass) {
    s.at.Idle? && s.now <= p.now && IsDueList(s.repo.effects, p.now, p.due) && p.due != []
  }

  /** An effect takes at most nine awaits; what is left over finds the coordinator idle. */
  function Awaits(p: Pass): nat { 9 * |p.due| + 1 }

  function StepsOf(p: Pass): seq<Step> { [Tick(p.now), StartDrain(p.due)] + Copies(ANSWERED, Awaits(p)) }

  /** A pass that has only just got to an effect has not touched it. */
  lemma PassStarted(s0: State, s: State, due: seq<OutboxEffect>)
    requires due != [] && s.at == Draining(due, Pick) && HeadReady(s0, s, due[0], Pick)
    ensures due[0].id in Left(s) && s.repo.effects[due[0].id].mutation == due[0].mutation
    ensures PhaseSincePick(s.cloud, s.cloud, due[0].mutation, Pick)
  {
  }

  lemma HeadThrough(s0: State, s: State, queue: seq<OutboxEffect>) returns (n: nat, t: State)
    requires Comes(s0, s) && s.at == Draining(queue, Pick) && queue != []
    ensures n <= 9 && Repeats(s, ANSWERED, n, t) && Comes(s0, t) && Work(t) < Work(s)
    ensures t.at.Idle? || t.at == Draining(queue[1..], Pick)
  {
    HeadIsReady(s0, s, queue, Pick);
    PassStarted(s0, s, queue);
    n, t := FinishHead(s0, s.cloud, s, queue, Pick);
    WorkDrops(s, t, queue[0].id);
  }

  lemma {:induction false} IdleStays(s: State, n: nat)
    requires s.at.Idle?
    ensures Repeats(s, ANSWERED, n, s)
    decreases n
  {
    if n > 0 {
      IdleStays(s, n - 1);
      assert Next(s, ANSWERED) == s;
      RepeatsOne(s, ANSWERED);
      RepeatsJoin(s, ANSWERED, n - 1, s, 1, s);
    }
  }

  /** Answered throughout, a pass gets to all its effects or ends before, with less and less to do. */
  lemma {:induction false} RunsOut(s0: State, s: State, queue: seq<OutboxEffect>) returns (n: nat, t: State)
    requires Comes(s0, s) && s.at == Draining(queue, Pick) && queue != []
    ensures n <= 9 * |queue| && Repeats(s, ANSWERED, n, t) && Comes(s0, t) && Work(t) < Work(s)
    ensures t.at.Idle? || t.at == Draining([], Pick)
    decreases |queue|
  {
    n, t := HeadThrough(s0, s, queue);
    if !t.at.Idle? && |queue| > 1 {
      var m, u := RunsOut(s0, t, queue[1..]);
      n, t := Further(s0, s, n, t, m, u);
    }
  }

  lemma Further(s0: State, s: State, m: nat, t: State, n: nat, u: State) returns (k: nat, v: State)
    requires Repeats(s, ANSWERED, m, t) && Repeats(t, ANSWERED, n, u) && Work(t) < Work(s) && Work(u) < Work(t)
    ensures k == m + n && v == u && Repeats(s, ANSWERED, k, v) && Work(v) < Work(s)
  {
    RepeatsJoin(s, ANSWERED, m, t, n, u);
    k, v := m + n, u;
  }

  /** Whatever the query answers, an answered pass comes to its end and leaves less to do. */
  lemma EveryPassHelps(s0: State, s: State, p: Pass) returns (t: State)
    requires Comes(s0, s) && Productive(s, p)
    ensures t == Run(s, StepsOf(p)) && Comes(s0, t) && t.at.Idle? && Work(t) < Work(s)
  {
    var s1 := PassBegins(s0, s, p);
    var n;
    n, t := RunsOut(s0, s1, p.due);
    t := ThenIdle(s0, s1, n, t, Awaits(p));
    PassIsRun(s, p, s1, t);
  }

  /** The await after the last effect ends the pass; any further one finds nothing to do. */
  lemma ThenIdle(s0: State, s: State, m: nat, u: State, n: nat) returns (t: State)
    requires Repeats(s, ANSWERED, m, u) && Comes(s0, u) && m < n && (u.at.Idle? || u.at == Draining([], Pick))
    ensures Repeats(s, ANSWERED, n, t) && Comes(s0, t) && t.at.Idle? && Work(t) == Work(u)
  {
    t := State(u.cloud, u.repo, u.now, Idle, u.sent, u.reading);
    assert Next(u, ANSWERED) == t;
    ComesNext(s0, u, ANSWERED);
    assert Left(t) == Left(u) && ToRewrite(t) == ToRewrite(u);
    RepeatsOne(u, ANSWERED);
    RepeatsJoin(s, ANSWERED, m, u, 1, t);
    IdleStays(t, n - m - 1);
    RepeatsJoin(s, ANSWERED, m + 1, t, n - m - 1, t);
  }

  lemma PassIsRun(s: State, p: Pass, s1: State, t: State)
    requires s1 == Run(s, [Tick(p.now), StartDrain(p.due)]) && Repeats(s1, ANSWERED, Awaits(p), t)
    ensures t == Run(s, StepsOf(p))
  {
    RunConcat(s, [Tick(p.now), StartDrain(p.due)], Copies(ANSWERED, Awaits(p)));
  }

  lemma PassBegins(s0: State, s: State, p: Pass) returns (t: State)
    requires Comes(s0, s) && Productive(s, p)
    ensures t == Run(s, [Tick(p.now), StartDrain(p.due)]) && t.at == Draining(p.due, Pick)
    ensures Comes(s0, t) && Work(t) == Work(s)
  {
    t := State(s.cloud, s.repo, p.now, Draining(p.due, Pick), s.sent, s.reading);
    var s1 := Next(s, Tick(p.now));
    assert [Tick(p.now), StartDrain(p.due)][1..] == [StartDrain(p.due)];
    assert Run(s1, [StartDrain(p.due)]) == Run(Next(s1, StartDrain(p.due)), []);
    ComesNext(s0, s, Tick(p.now));
    ComesNext(s0, Next(s, Tick(p.now)), StartDrain(p.due));
    assert Left(t) == Left(s) && ToRewrite(t) == ToRewrite(s);
  }

  /* ----- whole drains ----- */

  function AllSteps(passes: seq<Pass>): seq<Step> {
    if passes == [] then [] else StepsOf(passes[0]) + AllSteps(passes[1..])
  }

  /** Passes one after the other lead from `s` to `t`, each finding something due, each answered throughout. */
  ghost predicate Drains(s: State, passes: seq<Pass>, t: State)
    decreases |passes|
  {
    if passes == [] then t == s
    else Productive(s, passes[0]) && Drains(Run(s, StepsOf(passes[0])), passes[1..], t)
  }

  lemma {:induction false} DrainIsRun(s: State, passes: seq<Pass>, t: State)
    requires Drains(s, passes, t)
    ensures t == Run(s, AllSteps(passes))
    decreases |passes|
  {
    if passes != [] {
      DrainIsRun(Run(s, StepsOf(passes[0])), passes[1..], t);
      RunConcat(s, StepsOf(passes[0]), AllSteps(passes[1..]));
    }
  }

  /** Every drain is finite: it has no more passes than there is work. */
  lemma {:induction false} EveryDrainIsFinite(s0: State, s: State, passes: seq<Pass>, t: State)
    requires Comes(s0, s) && s.at.Idle? && Drains(s, passes, t)
    ensures Comes(s0, t) && t.at.Idle? && |passes| + Work(t) <= Work(s)
    decreases |passes|
  {
    if passes != [] {
      var u := EveryPassHelps(s0, s, passes[0]);
      EveryDrainIsFinite(s0, u, passes[1..], t);
    }
  }

  /** However long one waits, nothing becomes due any more. */
  ghost predicate Exhausted(s: State) { forall p :: !Productive(s, p) }

  /** Any drain that is carried on until nothing becomes due any more. */
  ghost predicate FullDrain(s: State, passes: seq<Pass>, t: State) { Drains(s, passes, t) && Exhausted(t) }

  lemma NextPass(s0: State, s: State, id: nat) returns (p: Pass)
    requires Comes(s0, s) && s.at.Idle? && id in Left(s)
    ensures Productive(s, p)
  {
    var e := s.repo.effects[id];
    var now := if e.nextAttemptAt <= s.now then s.now else e.nextAttemptAt;
    IdsStayPut(s0, s);
    var due := DueListExists(s.repo.effects, now);
    HeadComesFirst(s.repo.effects, now, due, id);
    p := Pass(now, due);
  }

  /** A drain stops for good only when every effect is through. */
  lemma ExhaustedIsDone(s0: State, s: State)
    requires Comes(s0, s) && s.at.Idle? && Exhausted(s)
    ensures NothingLeft(s)
  {
    forall id | id in s.repo.effects ensures !Unfinished(s.repo.effects[id].state) {
      if id in Left(s) { var p := NextPass(s0, s, id); }
    }
  }

  /** From every idle state a disturbed drain can reach, some drain runs until it is exhausted. */
  lemma {:induction false} DrainExists(s0: State, s: State) returns (passes: seq<Pass>, t: State)
    requires Comes(s0, s) && s.at.Idle?
    ensures FullDrain(s, passes, t)
    decreases Work(s)
  {
    if p :| Productive(s, p) {
      var u := EveryPassHelps(s0, s, p);
      var rest;
      rest, t := DrainExists(s0, u);
      passes := [p] + rest;
      assert passes[0] == p && passes[1..] == rest;
    } else {
      passes, t := [], s;
    }
  }

  /** The app starts again where the drain was cut. */
  ghost function Restarted(s0: State, cut: seq<Step>): State { Next(Run(s0, cut), Interrupt(true)) }

  lemma RestartComes(s0: State, cut: seq<Step>)
    requires Ready(s0) && DrainRun(cut)
    ensures Comes(s0, s0) && Comes(s0, Restarted(s0, cut)) && Restarted(s0, cut).at.Idle?
  {
    assert Reached(s0, [], s0);
    ReachedByRun(s0, [], s0, cut);
    ComesNext(s0, Run(s0, cut), Interrupt(true));
  }

  /** After every cut some drain runs to its end, and none has more passes than twice the number of
      unfinished effects. */
  lemma Completes(s0: State, cut: seq<Step>) returns (resumed: seq<Pass>, a: State)
    requires Ready(s0) && DrainRun(cut)
    ensures FullDrain(Restarted(s0, cut), resumed, a)
    ensures forall passes, t :: Drains(Restarted(s0, cut), passes, t) ==> |passes| <= 2 * |Left(Restarted(s0, cut))|
  {
    RestartComes(s0, cut);
    var s := Restarted(s0, cut);
    resumed, a := DrainExists(s0, s);
    forall passes, t | Drains(s, passes, t) ensures |passes| <= 2 * |Left(s)| {
      EveryDrainIsFinite(s0, s, passes, t);
      SubsetAtMost(ToRewrite(s), Left(s));
    }
  }

  /** Cut the drain anywhere and as often as you like, and let the app start again: every full drain from
      there ends with the same calendars and the same recorded copies as every full drain that was never cut. */
  lemma CutDrainRecovers(s0: State, cut: seq<Step>, resumed: seq<Pass>, a: State, straight: seq<Pass>, b: State)
    requires Ready(s0) && DrainRun(cut)
    requires FullDrain(Restarted(s0, cut), resumed, a) && FullDrain(s0, straight, b)
    ensures a == Run(Restarted(s0, cut), AllSteps(resumed)) && b == Run(s0, AllSteps(straight))
    ensures NothingLeft(a) && NothingLeft(b)
    ensures Contents(a) == Contents(b) && Recorded(a) == Recorded(b) && SameStates(a.repo, b.repo)
    ensures RevisionsCurrent(s0, a) && RevisionsCurrent(s0, b)
  {
    RestartComes(s0, cut);
    FullDrainEnds(s0, Restarted(s0, cut), resumed, a);
    FullDrainEnds(s0, s0, straight, b);
    var toA :| Reached(s0, toA, a);
    var toB :| Reached(s0, toB, b);
    ReachedAgree(s0, toA, a, toB, b);
  }

  lemma FullDrainEnds(s0: State, s: State, passes: seq<Pass>, t: State)
    requires Comes(s0, s) && s.at.Idle? && FullDrain(s, passes, t)
    ensures Comes(s0, t) && NothingLeft(t) && t == Run(s, AllSteps(passes))
  {
    EveryDrainIsFinite(s0, s, passes, t);
    ExhaustedIsDone(s0, t);
    DrainIsRun(s, passes, t);
  }
}
