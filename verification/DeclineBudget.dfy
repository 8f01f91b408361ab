/**
 The rolling budget: over every run, no 24-hour window of one provider calendar holds more than
 twenty recorded declines, and the declines of the last 24 hours together with the ones still
 pending never exceed twenty.
 */
module DeclineBudget {
  import opened Options
  import opened ConflictResponse
  import opened FiniteSets

  const BUDGET: nat := MAX_AUTOMATIC_DECLINES_PER_24_HOURS

  /** Recorded declines of one provider calendar in the 24 hours from `w`, both ends included. */
  function DayFrom(rules: map<nat, Rule>, facts: seq<Fact>, identity: string, w: int): nat {
    CountWithin(rules, facts, identity, w, w + DAY)
  }

  /** The pending actions of one provider calendar. */
  ghost function PendingOf(s: Store, identity: string): set<ActionKey> {
    set key | key in s.actions && s.actions[key].status.Pending?
              && key.rule in s.rules && s.rules[key.rule].identity == identity
  }

  ghost predicate WellKept(s: Store) {
    && (forall key :: key in s.actions ==> key.rule in s.rules)
    && (forall r :: r in s.rules ==> r < s.nextRule)
    && (forall i :: 0 <= i < |s.facts| ==> s.facts[i].at <= s.clock && s.facts[i].action.rule in s.rules)
  }

  /** At most one rule that is not deleted answers for a provider calendar. */
  ghost predicate OneLiveRule(s: Store) {
    forall a, b :: a in s.rules && b in s.rules && a != b && !s.rules[a].status.Deleted? && !s.rules[b].status.Deleted?
      ==> s.rules[a].identity != s.rules[b].identity
  }

  ghost predicate PendingUnderActive(s: Store) {
    forall key :: key in s.actions && s.actions[key].status.Pending? ==>
      key.rule in s.rules && s.rules[key.rule].status.Active?
  }

  ghost predicate WithinBudget(s: Store) {
    && (forall identity ::
          |PendingOf(s, identity)| + CountSince(s.rules, s.facts, identity, s.clock - DAY) <= BUDGET)
    && (forall identity, w :: DayFrom(s.rules, s.facts, identity, w) <= BUDGET)
  }

  ghost predicate Inv(s: Store) { WellKept(s) && OneLiveRule(s) && PendingUnderActive(s) && WithinBudget(s) }

  /* ----- counting ----- */

  lemma {:induction false} CountShrinks(rules: map<nat, Rule>, facts: seq<Fact>, identity: string, since: int, later: int)
    requires since <= later
    ensures CountSince(rules, facts, identity, later) <= CountSince(rules, facts, identity, since)
  {
    if facts != [] { CountShrinks(rules, facts[..|facts| - 1], identity, since, later); }
  }

  lemma {:induction false} WindowAtMost(rules: map<nat, Rule>, facts: seq<Fact>, identity: string, w: int, until: int, since: int)
    requires since <= w
    ensures CountWithin(rules, facts, identity, w, until) <= CountSince(rules, facts, identity, since)
  {
    if facts != [] { WindowAtMost(rules, facts[..|facts| - 1], identity, w, until, since); }
  }

  /** Only the provider identity of a rule matters for counting. */
  ghost predicate SameIdentities(a: map<nat, Rule>, b: map<nat, Rule>, facts: seq<Fact>) {
    forall i :: 0 <= i < |facts| ==>
      && facts[i].action.rule in a && facts[i].action.rule in b
      && a[facts[i].action.rule].identity == b[facts[i].action.rule].identity
  }

  lemma {:induction false} CountsAgree(a: map<nat, Rule>, b: map<nat, Rule>, facts: seq<Fact>, identity: string, x: int, y: int)
    requires SameIdentities(a, b, facts)
    ensures CountSince(a, facts, identity, x) == CountSince(b, facts, identity, x)
    ensures CountWithin(a, facts, identity, x, y) == CountWithin(b, facts, identity, x, y)
  {
    if facts != [] { CountsAgree(a, b, facts[..|facts| - 1], identity, x, y); }
  }

  /* ----- the reconcile loop ----- */

  /** The keys the loop has dealt with that are now pending. */
  ghost function PendingIn(t: Tally): set<ActionKey> {
    set key | key in t.current && key in t.actions && t.actions[key].status.Pending?
  }

  /** What holds after each turn of the loop. */
  ghost predicate TallyOk(existing: map<ActionKey, Action>, rule: nat, used: nat, t: Tally) {
    && t.reserved == used + t.pending
    && (t.pending > 0 ==> t.reserved <= BUDGET)
    && |PendingIn(t)| <= t.pending
    && (forall key :: key in t.current ==> key.rule == rule && key in t.actions)
    && (forall key :: key !in t.current ==>
          ((key in t.actions <==> key in existing) && (key in existing ==> t.actions[key] == existing[key])))
  }

  lemma ConsiderOk(existing: map<ActionKey, Action>, pass: Pass, used: nat, t: Tally, conflict: Conflict)
    requires TallyOk(existing, pass.rule, used, t)
    ensures TallyOk(existing, pass.rule, used, Consider(existing, pass, t, conflict))
  {
    var key := ActionKey(pass.rule, conflict.invitation.observation);
    if AlreadyApplied(existing, pass, conflict) {
      if key in t.current { assert t.current + {key} == t.current; } else { AppliedOk(existing, pass.rule, used, t, key); }
    } else {
      var pending := Guarded(conflict.invitation) && t.reserved < BUDGET;
      RewrittenPending(t, Consider(existing, pass, t, conflict), key, IntendedAction(pass, conflict, pending));
    }
  }

  /** An applied row that is left as it is. */
  lemma AppliedOk(existing: map<ActionKey, Action>, rule: nat, used: nat, t: Tally, key: ActionKey)
    requires TallyOk(existing, rule, used, t) && key.rule == rule && key !in t.current
    requires key in existing && existing[key].status.Applied?
    ensures TallyOk(existing, rule, used, t.(current := t.current + {key}))
  {
    assert t.actions[key] == existing[key];
    assert PendingIn(t.(current := t.current + {key})) == PendingIn(t);
  }

  /** A row that is rewritten adds at most itself to the pending ones. */
  lemma RewrittenPending(t: Tally, u: Tally, key: ActionKey, action: Action)
    requires u.actions == t.actions[key := action] && u.current == t.current + {key}
    ensures |PendingIn(u)| <= |PendingIn(t)| + if action.status.Pending? then 1 else 0
  {
    var more := if action.status.Pending? then {key} else {};
    assert PendingIn(u) <= PendingIn(t) + more;
    SubsetAtMost(PendingIn(u), PendingIn(t) + more);
  }

  lemma {:induction false} ConsiderAllOk(existing: map<ActionKey, Action>, pass: Pass, used: nat, conflicts: seq<Conflict>)
    ensures TallyOk(existing, pass.rule, used, ConsiderAll(existing, pass, StartTally(existing, used), conflicts))
  {
    var start := StartTally(existing, used);
    if conflicts == [] {
      assert PendingIn(start) == {};
    } else {
      var n := |conflicts| - 1;
      ConsiderAllOk(existing, pass, used, conflicts[..n]);
      ConsiderOk(existing, pass, used, ConsiderAll(existing, pass, start, conflicts[..n]), conflicts[n]);
    }
  }

  /* ----- every transaction keeps the invariant ----- */

  lemma WindowsCarry(s: Store, t: Store)
    requires WithinBudget(s) && t.facts == s.facts && SameIdentities(s.rules, t.rules, s.facts)
    ensures forall identity, w :: DayFrom(t.rules, t.facts, identity, w) <= BUDGET
  {
    forall identity, w ensures DayFrom(t.rules, t.facts, identity, w) <= BUDGET {
      CountsAgree(s.rules, t.rules, s.facts, identity, w, w + DAY);
      assert DayFrom(s.rules, s.facts, identity, w) <= BUDGET;
    }
  }

  /** Changing anything but identities and pending statuses cannot break the budget. */
  lemma BudgetCarries(s: Store, t: Store)
    requires WellKept(s) && WithinBudget(s)
    requires t.facts == s.facts && s.clock <= t.clock && SameIdentities(s.rules, t.rules, s.facts)
    requires forall identity :: PendingOf(t, identity) <= PendingOf(s, identity)
    ensures WithinBudget(t)
  {
    forall identity
      ensures |PendingOf(t, identity)| + CountSince(t.rules, t.facts, identity, t.clock - DAY) <= BUDGET
    {
      SubsetAtMost(PendingOf(t, identity), PendingOf(s, identity));
      CountsAgree(s.rules, t.rules, s.facts, identity, t.clock - DAY, 0);
      CountShrinks(s.rules, s.facts, identity, s.clock - DAY, t.clock - DAY);
    }
    WindowsCarry(s, t);
  }

  lemma ReconcileKept(s: Store, pass: Pass, conflicts: seq<Conflict>, now: int)
    requires WellKept(s) && OneLiveRule(s) && PendingUnderActive(s) && LiveAt(s, pass.rule, pass.revision)
    ensures var u := Reconciled(s, pass, conflicts, now);
            && WellKept(u) && OneLiveRule(u) && PendingUnderActive(u)
            && SameIdentities(s.rules, u.rules, s.facts)
  {
    var used := CountSince(s.rules, s.facts, s.rules[pass.rule].identity, now - DAY);
    ConsiderAllOk(s.actions, pass, used, conflicts);
  }

  /** After a reconcile the calendar's pending actions are those the loop reserved; other calendars keep theirs. */
  lemma ReconcilePending(s: Store, pass: Pass, conflicts: seq<Conflict>, now: int, identity: string)
    requires WellKept(s) && OneLiveRule(s) && PendingUnderActive(s) && LiveAt(s, pass.rule, pass.revision)
    ensures var used := CountSince(s.rules, s.facts, s.rules[pass.rule].identity, now - DAY);
            var n := |PendingOf(Reconciled(s, pass, conflicts, now), identity)|;
            if identity == s.rules[pass.rule].identity then n > 0 ==> used + n <= BUDGET
            else n <= |PendingOf(s, identity)|
  {
    var used := CountSince(s.rules, s.facts, s.rules[pass.rule].identity, now - DAY);
    var t := ConsiderAll(s.actions, pass, StartTally(s.actions, used), conflicts);
    ConsiderAllOk(s.actions, pass, used, conflicts);
    var u := Reconciled(s, pass, conflicts, now);
    if identity == s.rules[pass.rule].identity {
      assert PendingOf(u, identity) <= PendingIn(t);
      SubsetAtMost(PendingOf(u, identity), PendingIn(t));
    } else {
      SubsetAtMost(PendingOf(u, identity), PendingOf(s, identity));
    }
  }

  lemma ReconcileTrailing(s: Store, pass: Pass, conflicts: seq<Conflict>, now: int, identity: string)
    requires Inv(s) && now <= s.clock && LiveAt(s, pass.rule, pass.revision)
    requires SameIdentities(s.rules, Reconciled(s, pass, conflicts, now).rules, s.facts)
    ensures var u := Reconciled(s, pass, conflicts, now);
            |PendingOf(u, identity)| + CountSince(u.rules, u.facts, identity, u.clock - DAY) <= BUDGET
  {
    var u := Reconciled(s, pass, conflicts, now);
    ReconcilePending(s, pass, conflicts, now, identity);
    CountsAgree(s.rules, u.rules, s.facts, identity, s.clock - DAY, 0);
    CountShrinks(s.rules, s.facts, identity, now - DAY, s.clock - DAY);
    assert |PendingOf(s, identity)| + CountSince(s.rules, s.facts, identity, s.clock - DAY) <= BUDGET;
  }

  /** The reservation taken by the loop covers the declines that may still follow. */
  lemma ReconcileKeepsInv(s: Store, pass: Pass, conflicts: seq<Conflict>, now: int)
    requires Inv(s) && now <= s.clock
    ensures Inv(Reconciled(s, pass, conflicts, now))
  {
    if LiveAt(s, pass.rule, pass.revision) {
      var u := Reconciled(s, pass, conflicts, now);
      ReconcileKept(s, pass, conflicts, now);
      forall identity
        ensures |PendingOf(u, identity)| + CountSince(u.rules, u.facts, identity, u.clock - DAY) <= BUDGET
      {
        ReconcileTrailing(s, pass, conflicts, now, identity);
      }
      WindowsCarry(s, u);
    }
  }

  /** A verified decline of `identity` turns one reservation into one fact... */
  lemma DeclineKeepsTrailing(s: Store, t: Store, key: ActionKey, identity: string)
    requires Inv(s) && key in s.actions && s.actions[key].status.Pending?
    requires t.facts == s.facts + [Fact(key, s.clock)] && t.clock == s.clock
    requires SameIdentities(s.rules, t.rules, t.facts)
    requires PendingOf(t, identity) == PendingOf(s, identity) - {key}
    ensures |PendingOf(t, identity)| + CountSince(t.rules, t.facts, identity, t.clock - DAY) <= BUDGET
  {
    assert t.facts[..|t.facts| - 1] == s.facts;
    CountsAgree(s.rules, t.rules, s.facts, identity, s.clock - DAY, 0);
    assert |PendingOf(s, identity)| + CountSince(s.rules, s.facts, identity, s.clock - DAY) <= BUDGET;
    assert t.facts[|t.facts| - 1] == Fact(key, s.clock);
    if identity == s.rules[key.rule].identity { assert key in PendingOf(s, identity); }
  }

  /** ... and every 24 hours that contain the new fact lie inside the trailing window. */
  lemma DeclineKeepsWindows(s: Store, t: Store, key: ActionKey, identity: string, w: int)
    requires Inv(s) && key in s.actions && s.actions[key].status.Pending?
    requires t.facts == s.facts + [Fact(key, s.clock)]
    requires SameIdentities(s.rules, t.rules, t.facts)
    ensures DayFrom(t.rules, t.facts, identity, w) <= BUDGET
  {
    assert t.facts[..|t.facts| - 1] == s.facts;
    assert t.facts[|t.facts| - 1] == Fact(key, s.clock);
    CountsAgree(s.rules, t.rules, s.facts, identity, w, w + DAY);
    assert DayFrom(s.rules, s.facts, identity, w) <= BUDGET;
    if identity == s.rules[key.rule].identity && w <= s.clock <= w + DAY {
      assert key in PendingOf(s, identity);
      WindowAtMost(s.rules, s.facts, identity, w, w + DAY, s.clock - DAY);
    }
  }

  /** Bookkeeping survives a change of rule and action columns, new facts being stamped now. */
  lemma KeptWell(s: Store, t: Store)
    requires WellKept(s) && OneLiveRule(s) && PendingUnderActive(s)
    requires t.actions.Keys == s.actions.Keys && t.rules.Keys == s.rules.Keys && t.nextRule == s.nextRule
    requires t.clock == s.clock && s.facts <= t.facts
    requires forall i :: |s.facts| <= i < |t.facts| ==> t.facts[i].at == s.clock && t.facts[i].action.rule in t.rules
    requires forall r :: r in s.rules ==>
               t.rules[r].identity == s.rules[r].identity && (s.rules[r].status.Deleted? ==> t.rules[r].status.Deleted?)
    requires forall key :: key in t.actions && t.actions[key].status.Pending? ==>
               s.actions[key].status.Pending? && t.rules[key.rule].status == s.rules[key.rule].status
    ensures WellKept(t) && OneLiveRule(t) && PendingUnderActive(t)
    ensures forall identity :: PendingOf(t, identity) <= PendingOf(s, identity)
    ensures SameIdentities(s.rules, t.rules, s.facts) && SameIdentities(s.rules, t.rules, t.facts)
  {
  }

  lemma DeclineKeepsBudget(s: Store, t: Store, key: ActionKey)
    requires Inv(s) && key in s.actions && s.actions[key].status.Pending?
    requires t.facts == s.facts + [Fact(key, s.clock)] && t.clock == s.clock
    requires SameIdentities(s.rules, t.rules, t.facts)
    requires forall identity :: PendingOf(t, identity) == PendingOf(s, identity) - {key}
    ensures WithinBudget(t)
  {
    forall identity
      ensures |PendingOf(t, identity)| + CountSince(t.rules, t.facts, identity, t.clock - DAY) <= BUDGET
    {
      DeclineKeepsTrailing(s, t, key, identity);
    }
    forall identity, w ensures DayFrom(t.rules, t.facts, identity, w) <= BUDGET {
      DeclineKeepsWindows(s, t, key, identity, w);
    }
  }

  /** Applying one action either records nothing or turns a pending action into a fact stamped now. */
  lemma ApplyRecords(s: Store, key: ActionKey, basis: string, verdict: Verdict)
    ensures var t := ApplyTo(s, key, basis, verdict);
            || t.facts == s.facts
            || (&& key in s.actions && s.actions[key].status.Pending? && t.facts == s.facts + [Fact(key, s.clock)]
                && forall identity :: PendingOf(t, identity) == PendingOf(s, identity) - {key})
  {
  }

  /** Applying rewrites at most one action row, which is pending no more, one rule's error code and one fact. */
  lemma ApplyTables(s: Store, key: ActionKey, basis: string, verdict: Verdict) returns (action: Action, code: Option<string>)
    ensures var t := ApplyTo(s, key, basis, verdict);
            || t == s
            || (&& key in s.actions && key.rule in s.rules && !action.status.Pending?
                && t == Store(s.rules[key.rule := s.rules[key.rule].(errorCode := code)], s.actions[key := action],
                              t.facts, s.clock, s.nextRule)
                && (t.facts == s.facts || t.facts == s.facts + [Fact(key, s.clock)]))
  {
    var t := ApplyTo(s, key, basis, verdict);
    action := if key in t.actions then t.actions[key] else Action(0, "", "", None, "", Held, None);
    code := if key.rule in t.rules then t.rules[key.rule].errorCode else None;
    if t != s && t.rules == s.rules { assert s.rules[key.rule := s.rules[key.rule]] == s.rules; }
  }

  lemma ApplyKept(s: Store, key: ActionKey, basis: string, verdict: Verdict)
    requires WellKept(s) && OneLiveRule(s) && PendingUnderActive(s)
    ensures var t := ApplyTo(s, key, basis, verdict);
            && WellKept(t) && OneLiveRule(t) && PendingUnderActive(t) && t.clock == s.clock
            && SameIdentities(s.rules, t.rules, s.facts) && SameIdentities(s.rules, t.rules, t.facts)
            && (forall identity :: PendingOf(t, identity) <= PendingOf(s, identity))
  {
    var action, code := ApplyTables(s, key, basis, verdict);
    KeptWell(s, ApplyTo(s, key, basis, verdict));
  }

  lemma ApplyKeepsInv(s: Store, key: ActionKey, basis: string, verdict: Verdict)
    requires Inv(s)
    ensures Inv(ApplyTo(s, key, basis, verdict))
  {
    var t := ApplyTo(s, key, basis, verdict);
    ApplyKept(s, key, basis, verdict);
    if t.facts == s.facts {
      BudgetCarries(s, t);
    } else {
      ApplyRecords(s, key, basis, verdict);
      DeclineKeepsBudget(s, t, key);
    }
  }

  lemma FailKeepsInv(s: Store, rule: nat, code: string)
    requires Inv(s)
    ensures Inv(Failed(s, rule, code))
  {
    KeptWell(s, Failed(s, rule, code));
    BudgetCarries(s, Failed(s, rule, code));
  }

  lemma PauseKeepsInv(s: Store, rule: nat, paused: bool)
    requires Inv(s)
    ensures Inv(PauseSet(s, rule, paused))
  {
    KeptWell(s, PauseSet(s, rule, paused));
    BudgetCarries(s, PauseSet(s, rule, paused));
  }

  lemma RemoveKeepsInv(s: Store, rule: nat)
    requires Inv(s)
    ensures Inv(Removed(s, rule))
  {
    KeptWell(s, Removed(s, rule));
    BudgetCarries(s, Removed(s, rule));
  }

  lemma ActivateKeepsInv(s: Store, identity: string)
    requires Inv(s)
    ensures Inv(Activated(s, identity))
  {
    var t := Activated(s, identity);
    assert forall id :: PendingOf(t, id) <= PendingOf(s, id);
    BudgetCarries(s, t);
  }

  lemma StepKeepsInv(s: Store, step: Step)
    requires Inv(s)
    ensures Inv(Next(s, step))
  {
    match step
    case Reconcile(pass, conflicts, now) => if now <= s.clock { ReconcileKeepsInv(s, pass, conflicts, now); }
    case Apply(key, basis, verdict) => ApplyKeepsInv(s, key, basis, verdict);
    case Fail(rule, code) => FailKeepsInv(s, rule, code);
    case SetPaused(rule, paused) => PauseKeepsInv(s, rule, paused);
    case Remove(rule) => RemoveKeepsInv(s, rule);
    case Activate(identity) => ActivateKeepsInv(s, identity);
    case Tick(clock) =>
      var t := Next(s, step);
      assert forall identity :: PendingOf(t, identity) <= PendingOf(s, identity);
      BudgetCarries(s, t);
  }

  lemma {:induction false} RunKeepsInv(s: Store, steps: seq<Step>)
    requires Inv(s)
    ensures Inv(Run(s, steps))
    decreases |steps|
  {
    if steps != [] {
      StepKeepsInv(s, steps[0]);
      RunKeepsInv(Next(s, steps[0]), steps[1..]);
    }
  }

  function EmptyStore(clock: int): Store { Store(map[], map[], [], clock, 0) }

  /** Every run from an empty store: twenty declines in any 24 hours at most, the pending ones
      reserved on top of the last 24 hours, and pending actions only under active rules. */
  lemma BudgetInEveryRun(clock: int, steps: seq<Step>)
    ensures var s := Run(EmptyStore(clock), steps);
            && (forall identity, w :: DayFrom(s.rules, s.facts, identity, w) <= 20)
            && (forall identity ::
                  |PendingOf(s, identity)| + CountSince(s.rules, s.facts, identity, s.clock - DAY) <= 20)
            && PendingUnderActive(s) && OneLiveRule(s)
  {
    var s := EmptyStore(clock);
    assert Inv(s) by {
      forall identity ensures PendingOf(s, identity) == {} { }
    }
    RunKeepsInv(s, steps);
  }

  /* ----- deleted rules stay deleted, facts stay facts ----- */

  lemma {:induction false} DeletedForGood(s: Store, steps: seq<Step>, rule: nat)
    requires rule in s.rules && rule < s.nextRule
    ensures var t := Run(s, steps);
            && rule in t.rules && rule < t.nextRule && t.rules[rule].identity == s.rules[rule].identity
            && (s.rules[rule].status.Deleted? ==> t.rules[rule].status.Deleted?)
            && s.facts <= t.facts
    decreases |steps|
  {
    if steps != [] { DeletedForGood(Next(s, steps[0]), steps[1..], rule); }
  }

  /* ----- the preview is the loop's split in closed form ----- */

  lemma {:induction false} LoopMatchesClosedForm(existing: map<ActionKey, Action>, pass: Pass, used: nat, conflicts: seq<Conflict>)
    requires forall key :: key in existing ==> key.rule != pass.rule
    ensures var t := ConsiderAll(existing, pass, StartTally(existing, used), conflicts);
            var guarded := |conflicts| - Unguarded(conflicts);
            var remaining := Positive(BUDGET - used);
            && t.pending == (if guarded <= remaining then guarded else remaining)
            && t.budgetHeld == Positive(guarded - remaining)
            && t.held == Unguarded(conflicts) + t.budgetHeld
            && t.reserved == used + t.pending
  {
    if conflicts != [] {
      var n := |conflicts| - 1;
      LoopMatchesClosedForm(existing, pass, used, conflicts[..n]);
    }
  }

  /** For a rule without earlier actions the first reconcile holds exactly what the preview announced. */
  lemma PreviewForetells(existing: map<ActionKey, Action>, pass: Pass, used: nat, invitations: seq<Invitation>, busy: seq<Busy>)
    requires forall key :: key in existing ==> key.rule != pass.rule
    ensures var t := ConsiderAll(existing, pass, StartTally(existing, used), Conflicts(invitations, busy));
            var preview := PreviewOf(invitations, busy, used);
            && t.held == preview.held && t.budgetHeld == preview.budgetHeld
            && t.pending == preview.conflicts - preview.held
  {
    LoopMatchesClosedForm(existing, pass, used, Conflicts(invitations, busy));
  }
}
