/**
 What the responder's transactions do to each action row, and what every run keeps about rows: why a row is held
 or superseded, and that an applied row has its decline on record.
 */
module ResponderRows {
  import opened Options
  import opened ConflictResponse
  import opened DeclineBudget
  import opened ClashingInvitations

  const REVISION_MISSING := "work_revision_missing"
  const BUDGET_EXCEEDED := "automatic_decline_budget_exceeded"
  const COMMENT_LOST := "decline_comment_not_retained"
  const CONFLICT_GONE := "conflict_no_longer_present"

  /* ----- recorded declines ----- */

  /** The places of the declines of one provider calendar that were recorded at `since` or later. */
  function DeclinedSince(rules: map<nat, Rule>, facts: seq<Fact>, identity: string, since: int): set<nat> {
    set i: nat | i < |facts| && since <= facts[i].at && facts[i].action.rule in rules
                 && rules[facts[i].action.rule].identity == identity
  }

  lemma {:induction false} DeclinesAreCounted(rules: map<nat, Rule>, facts: seq<Fact>, identity: string, since: int)
    ensures CountSince(rules, facts, identity, since) == |DeclinedSince(rules, facts, identity, since)|
    decreases |facts|
  {
    if facts == [] {
      assert DeclinedSince(rules, facts, identity, since) == {};
    } else {
      var n := |facts| - 1;
      DeclinesAreCounted(rules, facts[..n], identity, since);
      var more := if since <= facts[n].at && facts[n].action.rule in rules && rules[facts[n].action.rule].identity == identity
                  then {n} else {};
      assert DeclinedSince(rules, facts, identity, since) == DeclinedSince(rules, facts[..n], identity, since) + more;
    }
  }

  /** The places of the declines recorded from `since` to `until`, both included. */
  function DeclinedWithin(rules: map<nat, Rule>, facts: seq<Fact>, identity: string, since: int, until: int): set<nat> {
    set i: nat | i < |facts| && since <= facts[i].at <= until && facts[i].action.rule in rules
                 && rules[facts[i].action.rule].identity == identity
  }

  lemma {:induction false} WindowIsCounted(rules: map<nat, Rule>, facts: seq<Fact>, identity: string, since: int, until: int)
    ensures CountWithin(rules, facts, identity, since, until) == |DeclinedWithin(rules, facts, identity, since, until)|
    decreases |facts|
  {
    if facts == [] {
      assert DeclinedWithin(rules, facts, identity, since, until) == {};
    } else {
      var n := |facts| - 1;
      WindowIsCounted(rules, facts[..n], identity, since, until);
      var more := if since <= facts[n].at <= until && facts[n].action.rule in rules
                     && rules[facts[n].action.rule].identity == identity
                  then {n} else {};
      assert DeclinedWithin(rules, facts, identity, since, until) == DeclinedWithin(rules, facts[..n], identity, since, until) + more;
    }
  }

  /** In every run no 24 hours of one provider calendar hold more than twenty recorded declines, and those of the last
      24 hours together with the pending rows are never more than twenty. */
  lemma NeverMoreThanTwenty(clock: int, steps: seq<Step>, identity: string, since: int)
    ensures var s := Run(EmptyStore(clock), steps);
            && |DeclinedWithin(s.rules, s.facts, identity, since, since + 86_400_000)| <= 20
            && |DeclinedSince(s.rules, s.facts, identity, s.clock - 86_400_000)| + |PendingOf(s, identity)| <= 20
  {
    var s := Run(EmptyStore(clock), steps);
    BudgetInEveryRun(clock, steps);
    assert DayFrom(s.rules, s.facts, identity, since) <= 20;
    WindowIsCounted(s.rules, s.facts, identity, since, since + 86_400_000);
    DeclinesAreCounted(s.rules, s.facts, identity, s.clock - 86_400_000);
  }

  /* ----- reconcile ----- */

  function KeyFor(pass: Pass, conflict: Conflict): ActionKey { ActionKey(pass.rule, conflict.invitation.observation) }

  /** The same invitation was declined before, at this revision, for the same overlap and with the same message. */
  predicate AnsweredBefore(existing: map<ActionKey, Action>, pass: Pass, conflict: Conflict) {
    var key := KeyFor(pass, conflict);
    && key in existing
    && existing[key] == Action(pass.revision, conflict.invitation.observationHash, pass.basisOf(conflict),
                               existing[key].expectedRevision, pass.message, Applied, existing[key].errorCode)
  }

  /** The conflicts before the `n`-th that ask for one of the day's declines. */
  function Asking(existing: map<ActionKey, Action>, pass: Pass, conflicts: seq<Conflict>, n: nat): set<nat>
    requires n <= |conflicts|
  {
    set j: nat | j < n && WithRevision(conflicts[j].invitation) && !AnsweredBefore(existing, pass, conflicts[j])
  }

  /** The row of the `i`-th conflict after the pass: left alone if it was answered, pending if the invitation has a
      revision and the budget reaches that far, and held with the reason otherwise. */
  predicate RowIs(existing: map<ActionKey, Action>, pass: Pass, used: nat, conflicts: seq<Conflict>, i: nat,
                  actions: map<ActionKey, Action>)
    requires i < |conflicts|
  {
    var key, inv := KeyFor(pass, conflicts[i]), conflicts[i].invitation;
    && key in actions
    && (if AnsweredBefore(existing, pass, conflicts[i]) then actions[key] == existing[key]
        else
          var inTime := WithRevision(inv) && used + |Asking(existing, pass, conflicts, i)| < 20;
          actions[key] ==
            Action(pass.revision, inv.observationHash, pass.basisOf(conflicts[i]), inv.remoteRevision, pass.message,
                   if inTime then Pending else Held,
                   if inTime then None else Some(if WithRevision(inv) then BUDGET_EXCEEDED else REVISION_MISSING)))
  }

  predicate DistinctInvitations(conflicts: seq<Conflict>) {
    forall i, j :: 0 <= i < j < |conflicts| ==> conflicts[i].invitation.observation != conflicts[j].invitation.observation
  }

  function KeysOf(pass: Pass, conflicts: seq<Conflict>): set<ActionKey> {
    set i | 0 <= i < |conflicts| :: KeyFor(pass, conflicts[i])
  }

  lemma AppliedIsAnswered(existing: map<ActionKey, Action>, pass: Pass, conflict: Conflict)
    ensures AlreadyApplied(existing, pass, conflict) <==> AnsweredBefore(existing, pass, conflict)
  {
  }

  lemma AskingGrows(existing: map<ActionKey, Action>, pass: Pass, conflicts: seq<Conflict>, n: nat)
    requires n < |conflicts|
    ensures |Asking(existing, pass, conflicts, n + 1)| == |Asking(existing, pass, conflicts, n)|
            + if WithRevision(conflicts[n].invitation) && !AnsweredBefore(existing, pass, conflicts[n]) then 1 else 0
  {
    var more := if WithRevision(conflicts[n].invitation) && !AnsweredBefore(existing, pass, conflicts[n]) then {n} else {};
    assert Asking(existing, pass, conflicts, n + 1) == Asking(existing, pass, conflicts, n) + more;
  }

  lemma AskingPrefix(existing: map<ActionKey, Action>, pass: Pass, conflicts: seq<Conflict>, m: nat, n: nat)
    requires m <= n <= |conflicts|
    ensures Asking(existing, pass, conflicts[..n], m) == Asking(existing, pass, conflicts, m)
  {
  }

  /** The budget counter never runs past twenty, unless it started there. */
  lemma {:induction false} ReservedIs(existing: map<ActionKey, Action>, pass: Pass, used: nat, conflicts: seq<Conflict>)
    ensures var t, asking := ConsiderAll(existing, pass, StartTally(existing, used), conflicts),
                             |Asking(existing, pass, conflicts, |conflicts|)|;
            t.reserved == if used >= 20 then used else if used + asking <= 20 then used + asking else 20
    decreases |conflicts|
  {
    if conflicts == [] {
      assert Asking(existing, pass, conflicts, 0) == {};
    } else {
      var n := |conflicts| - 1;
      ReservedIs(existing, pass, used, conflicts[..n]);
      AskingPrefix(existing, pass, conflicts, n, n);
      AskingGrows(existing, pass, conflicts, n);
      AppliedIsAnswered(existing, pass, conflicts[n]);
    }
  }

  lemma {:induction false} RowsAre(existing: map<ActionKey, Action>, pass: Pass, used: nat, conflicts: seq<Conflict>)
    requires DistinctInvitations(conflicts)
    ensures var t := ConsiderAll(existing, pass, StartTally(existing, used), conflicts);
            forall i: nat :: i < |conflicts| ==> RowIs(existing, pass, used, conflicts, i, t.actions)
    decreases |conflicts|
  {
    if conflicts != [] {
      var n := |conflicts| - 1;
      var before := ConsiderAll(existing, pass, StartTally(existing, used), conflicts[..n]);
      var t := ConsiderAll(existing, pass, StartTally(existing, used), conflicts);
      RowsAre(existing, pass, used, conflicts[..n]);
      ConsiderAllOk(existing, pass, used, conflicts[..n]);
      CurrentIs(existing, pass, used, conflicts[..n]);
      forall i: nat | i < |conflicts| ensures RowIs(existing, pass, used, conflicts, i, t.actions) {
        AskingPrefix(existing, pass, conflicts, i, n);
        if i < n {
          assert RowIs(existing, pass, used, conflicts[..n], i, before.actions) && KeyFor(pass, conflicts[i]) != KeyFor(pass, conflicts[n]);
        } else {
          LastRowIs(existing, pass, used, conflicts);
        }
      }
    }
  }

  lemma LastRowIs(existing: map<ActionKey, Action>, pass: Pass, used: nat, conflicts: seq<Conflict>)
    requires DistinctInvitations(conflicts) && conflicts != []
    ensures var t := ConsiderAll(existing, pass, StartTally(existing, used), conflicts);
            RowIs(existing, pass, used, conflicts, |conflicts| - 1, t.actions)
  {
    var n := |conflicts| - 1;
    ReservedIs(existing, pass, used, conflicts[..n]);
    AskingPrefix(existing, pass, conflicts, n, n);
    AppliedIsAnswered(existing, pass, conflicts[n]);
    ConsiderAllOk(existing, pass, used, conflicts[..n]);
    CurrentIs(existing, pass, used, conflicts[..n]);
    assert KeyFor(pass, conflicts[n]) !in KeysOf(pass, conflicts[..n]);
  }

  lemma {:induction false} CurrentIs(existing: map<ActionKey, Action>, pass: Pass, used: nat, conflicts: seq<Conflict>)
    ensures ConsiderAll(existing, pass, StartTally(existing, used), conflicts).current == KeysOf(pass, conflicts)
    decreases |conflicts|
  {
    if conflicts != [] {
      var n := |conflicts| - 1;
      CurrentIs(existing, pass, used, conflicts[..n]);
      assert KeysOf(pass, conflicts) == KeysOf(pass, conflicts[..n]) + {KeyFor(pass, conflicts[n])};
    }
  }

  function UsedToday(s: Store, pass: Pass, now: int): nat
    requires pass.rule in s.rules
  {
    CountSince(s.rules, s.facts, s.rules[pass.rule].identity, now - 86_400_000)
  }

  /** Reconciling a live rule gives each conflicting invitation its row. */
  lemma ReconciledRows(s: Store, pass: Pass, conflicts: seq<Conflict>, now: int)
    requires LiveAt(s, pass.rule, pass.revision) && DistinctInvitations(conflicts)
    ensures var t := Reconciled(s, pass, conflicts, now);
            forall i: nat :: i < |conflicts| ==> RowIs(s.actions, pass, UsedToday(s, pass, now), conflicts, i, t.actions)
  {
    var used, t := UsedToday(s, pass, now), Reconciled(s, pass, conflicts, now);
    var tally := ConsiderAll(s.actions, pass, StartTally(s.actions, used), conflicts);
    RowsAre(s.actions, pass, used, conflicts);
    CurrentIs(s.actions, pass, used, conflicts);
    forall i: nat | i < |conflicts| ensures RowIs(s.actions, pass, used, conflicts, i, t.actions) {
      assert RowIs(s.actions, pass, used, conflicts, i, tally.actions) && KeyFor(pass, conflicts[i]) in tally.current;
    }
  }

  predicate StillOpen(action: Action) { action.status == Pending || action.status == Held }

  /** A row after a transaction that gives up the rows of one rule that are still open. */
  predicate GivenUp(before: Action, after: Action, code: string) {
    if StillOpen(before) then after == before.(status := Superseded, errorCode := Some(code)) else after == before
  }

  /** Rows of the rule whose conflict is gone are superseded if they were open; all other rows stay. */
  lemma ReconciledOthers(s: Store, pass: Pass, conflicts: seq<Conflict>, now: int, key: ActionKey)
    requires LiveAt(s, pass.rule, pass.revision) && key !in KeysOf(pass, conflicts)
    ensures var t := Reconciled(s, pass, conflicts, now);
            && (key in t.actions <==> key in s.actions)
            && (key in s.actions ==>
                  if key.rule == pass.rule then GivenUp(s.actions[key], t.actions[key], CONFLICT_GONE)
                  else t.actions[key] == s.actions[key])
  {
    var used := UsedToday(s, pass, now);
    CurrentIs(s.actions, pass, used, conflicts);
    ConsiderAllOk(s.actions, pass, used, conflicts);
  }

  /** The `i`-th conflict is one that the budget does not reach, or one without a revision. */
  predicate OverBudget(s: Store, pass: Pass, used: nat, conflicts: seq<Conflict>, i: nat)
    requires i < |conflicts|
  {
    && !AnsweredBefore(s.actions, pass, conflicts[i]) && WithRevision(conflicts[i].invitation)
    && used + |Asking(s.actions, pass, conflicts, i)| >= 20
  }

  predicate Unguardable(s: Store, pass: Pass, conflicts: seq<Conflict>, i: nat)
    requires i < |conflicts|
  {
    !AnsweredBefore(s.actions, pass, conflicts[i]) && !WithRevision(conflicts[i].invitation)
  }

  ghost predicate SomeOverBudget(s: Store, pass: Pass, used: nat, conflicts: seq<Conflict>) {
    exists i: nat :: i < |conflicts| && OverBudget(s, pass, used, conflicts, i)
  }

  ghost predicate SomeUnguardable(s: Store, pass: Pass, conflicts: seq<Conflict>) {
    exists i: nat :: i < |conflicts| && Unguardable(s, pass, conflicts, i)
  }

  lemma {:induction false} BudgetHeldCounts(s: Store, pass: Pass, used: nat, conflicts: seq<Conflict>)
    ensures var t := ConsiderAll(s.actions, pass, StartTally(s.actions, used), conflicts);
            t.budgetHeld > 0 <==> SomeOverBudget(s, pass, used, conflicts)
    decreases |conflicts|
  {
    if conflicts != [] {
      var n := |conflicts| - 1;
      BudgetHeldCounts(s, pass, used, conflicts[..n]);
      ReservedIs(s.actions, pass, used, conflicts[..n]);
      AskingPrefix(s.actions, pass, conflicts, n, n);
      AppliedIsAnswered(s.actions, pass, conflicts[n]);
      OverBudgetSplits(s, pass, used, conflicts);
    }
  }

  lemma OverBudgetSplits(s: Store, pass: Pass, used: nat, conflicts: seq<Conflict>)
    requires conflicts != []
    ensures var n := |conflicts| - 1;
            SomeOverBudget(s, pass, used, conflicts) <==>
            SomeOverBudget(s, pass, used, conflicts[..n]) || OverBudget(s, pass, used, conflicts, n)
  {
    var n := |conflicts| - 1;
    forall i: nat | i < n ensures OverBudget(s, pass, used, conflicts[..n], i) <==> OverBudget(s, pass, used, conflicts, i) {
      AskingPrefix(s.actions, pass, conflicts, i, n);
    }
  }

  lemma {:induction false} UnguardableCounts(s: Store, pass: Pass, used: nat, conflicts: seq<Conflict>)
    ensures var t := ConsiderAll(s.actions, pass, StartTally(s.actions, used), conflicts);
            (t.held > t.budgetHeld <==> SomeUnguardable(s, pass, conflicts)) && t.held >= t.budgetHeld
    decreases |conflicts|
  {
    if conflicts != [] {
      var n := |conflicts| - 1;
      UnguardableCounts(s, pass, used, conflicts[..n]);
      AppliedIsAnswered(s.actions, pass, conflicts[n]);
      assert forall i: nat :: i < n ==> (Unguardable(s, pass, conflicts[..n], i) <==> Unguardable(s, pass, conflicts, i));
      assert SomeUnguardable(s, pass, conflicts) <==>
             SomeUnguardable(s, pass, conflicts[..n]) || Unguardable(s, pass, conflicts, n);
    }
  }

  /** The rule complains of the budget, else of a missing revision, else of an earlier lost comment; nothing but its
      complaint and the rows changes. */
  lemma ReconciledCode(s: Store, pass: Pass, conflicts: seq<Conflict>, now: int)
    requires LiveAt(s, pass.rule, pass.revision)
    ensures var t, used := Reconciled(s, pass, conflicts, now), UsedToday(s, pass, now);
            var lost := exists key :: key in s.actions && key.rule == pass.rule && s.actions[key].status == Applied
                                      && s.actions[key].errorCode == Some(COMMENT_LOST);
            && t == Store(s.rules[pass.rule := s.rules[pass.rule].(errorCode := t.rules[pass.rule].errorCode)],
                          t.actions, s.facts, s.clock, s.nextRule)
            && t.rules[pass.rule].errorCode ==
                 if SomeOverBudget(s, pass, used, conflicts) then Some(BUDGET_EXCEEDED)
                 else if SomeUnguardable(s, pass, conflicts) then Some(REVISION_MISSING)
                 else if lost then Some(COMMENT_LOST)
                 else None
  {
    BudgetHeldCounts(s, pass, UsedToday(s, pass, now), conflicts);
    UnguardableCounts(s, pass, UsedToday(s, pass, now), conflicts);
  }

  /* ----- apply ----- */

  /** The row is still the one the job was made for, and its rule still stands. */
  predicate Applicable(s: Store, key: ActionKey, basis: string) {
    && key in s.actions && key.rule in s.rules
    && s.actions[key].status == Pending && s.actions[key].basis == basis
    && s.rules[key.rule].status == Active && s.actions[key].ruleRevision == s.rules[key.rule].revision
  }

  function WithRow(s: Store, key: ActionKey, status: ActionStatus, code: Option<string>): map<ActionKey, Action>
    requires key in s.actions
  {
    s.actions[key := s.actions[key].(status := status, errorCode := code)]
  }

  function WithComplaint(s: Store, rule: nat, code: Option<string>): map<nat, Rule>
    requires rule in s.rules
  {
    s.rules[rule := s.rules[rule].(errorCode := code)]
  }

  /** Applying changes anything only for a row that is still applicable; then it declines and puts the decline on
      record, or holds or gives up the row, as the checks and the provider say. */
  lemma AppliedExactly(s: Store, key: ActionKey, basis: string, verdict: Verdict)
    ensures var t := ApplyTo(s, key, basis, verdict);
            if !Applicable(s, key, basis) then t == s
            else
              match verdict
              case Abandon => t == s
              case HoldOnly(code) => t == s.(actions := WithRow(s, key, Held, Some(code)))
              case HoldAndMark(code) =>
                t == s.(actions := WithRow(s, key, Held, Some(code)), rules := WithComplaint(s, key.rule, Some(code)))
              case Withdraw(code) => t == s.(actions := WithRow(s, key, Superseded, Some(code)))
              case Declined(retained) =>
                var complaint := if retained then None else Some(COMMENT_LOST);
                t == s.(actions := WithRow(s, key, Applied, complaint), rules := WithComplaint(s, key.rule, complaint),
                        facts := s.facts + [Fact(key, s.clock)])
  {
  }

  /* ----- the lifecycle of a rule ----- */

  /** A rule is activated, active and at its first revision, exactly if no live rule answers for the calendar. */
  lemma ActivatedExactly(s: Store, identity: string)
    ensures var t := Activated(s, identity);
            var taken := exists r :: r in s.rules && s.rules[r].identity == identity && s.rules[r].status != Deleted;
            && (taken ==> t == s)
            && (!taken ==> t == s.(rules := s.rules[s.nextRule := Rule(identity, Active, 1, None)], nextRule := s.nextRule + 1))
  {
  }

  /** Pausing holds the pending rows and resuming makes the rule active again but leaves the rows held. */
  lemma PausedAndResumed(s: Store, rule: nat)
    requires rule in s.rules && s.rules[rule].status != Deleted
    ensures var t := PauseSet(s, rule, true); var u := PauseSet(t, rule, false);
            && t.rules == s.rules[rule := s.rules[rule].(status := Paused, errorCode := None)]
            && u.rules == s.rules[rule := s.rules[rule].(status := Active, errorCode := None)]
            && u.actions == t.actions && t.actions.Keys == s.actions.Keys
            && u.facts == t.facts == s.facts && u.clock == t.clock == s.clock && u.nextRule == t.nextRule == s.nextRule
            && forall key :: key in s.actions ==>
                 t.actions[key] == if key.rule == rule && s.actions[key].status == Pending
                                   then s.actions[key].(status := Held, errorCode := Some("rule_paused"))
                                   else s.actions[key]
  {
  }

  /** A deleted rule has given up all its open rows; nothing else changes. */
  lemma RemovedExactly(s: Store, rule: nat)
    requires rule in s.rules && s.rules[rule].status != Deleted
    ensures var t := Removed(s, rule);
            && t == Store(s.rules[rule := s.rules[rule].(status := Deleted, errorCode := None)], t.actions, s.facts, s.clock, s.nextRule)
            && t.actions.Keys == s.actions.Keys
            && forall key :: key in s.actions ==>
                 if key.rule == rule then GivenUp(s.actions[key], t.actions[key], "rule_deleted")
                 else t.actions[key] == s.actions[key]
  {
  }

  /** A failed evaluation marks the active rule and holds its pending rows with the same code. */
  lemma FailedExactly(s: Store, rule: nat, code: string)
    requires rule in s.rules && s.rules[rule].status == Active
    ensures var t := Failed(s, rule, code);
            && t == Store(s.rules[rule := s.rules[rule].(errorCode := Some(code))], t.actions, s.facts, s.clock, s.nextRule)
            && t.actions.Keys == s.actions.Keys
            && forall key :: key in s.actions ==>
                 t.actions[key] == if key.rule == rule && s.actions[key].status == Pending
                                   then s.actions[key].(status := Held, errorCode := Some(code))
                                   else s.actions[key]
  {
  }

  /** A rule that is not active, or for the others deleted or unknown, is left alone. */
  lemma LeftAlone(s: Store, rule: nat, paused: bool, code: string)
    ensures rule !in s.rules || s.rules[rule].status == Deleted ==> PauseSet(s, rule, paused) == s && Removed(s, rule) == s
    ensures rule !in s.rules || s.rules[rule].status != Active ==> Failed(s, rule, code) == s
  {
  }

  /* ----- what every run keeps about rows ----- */

  ghost predicate OnRecord(facts: seq<Fact>, key: ActionKey) { exists i :: 0 <= i < |facts| && facts[i].action == key }

  /** A pending row carries no complaint and a revision to guard the decline; a held or superseded one says why; an
      applied one has its decline on record and at most complains about the comment; and deleted rules have no open
      rows. */
  ghost predicate RowOk(s: Store, key: ActionKey)
    requires key in s.actions
  {
    var action := s.actions[key];
    && key.rule in s.rules
    && (s.rules[key.rule].status == Deleted ==> !StillOpen(action))
    && (action.status == Pending ==> action.errorCode == None && action.expectedRevision.Some? && action.expectedRevision != Some(""))
    && (action.status == Held || action.status == Superseded ==> action.errorCode.Some?)
    && (action.status == Applied ==> OnRecord(s.facts, key) && action.errorCode in {None, Some(COMMENT_LOST)})
  }

  ghost predicate RowsOk(s: Store) { forall key :: key in s.actions ==> RowOk(s, key) }

  lemma {:induction false} TallyRowsOk(s: Store, pass: Pass, used: nat, conflicts: seq<Conflict>)
    requires RowsOk(s) && LiveAt(s, pass.rule, pass.revision)
    ensures RowsOk(s.(actions := ConsiderAll(s.actions, pass, StartTally(s.actions, used), conflicts).actions))
    decreases |conflicts|
  {
    if conflicts != [] {
      var n := |conflicts| - 1;
      TallyRowsOk(s, pass, used, conflicts[..n]);
      var before := ConsiderAll(s.actions, pass, StartTally(s.actions, used), conflicts[..n]);
      var after := Consider(s.actions, pass, before, conflicts[n]);
      forall key | key in after.actions ensures RowOk(s.(actions := after.actions), key) {
        if key in before.actions { assert RowOk(s.(actions := before.actions), key); }
      }
    }
  }

  lemma ReconcileKeepsRows(s: Store, pass: Pass, conflicts: seq<Conflict>, now: int)
    requires RowsOk(s)
    ensures RowsOk(Reconciled(s, pass, conflicts, now))
  {
    if LiveAt(s, pass.rule, pass.revision) {
      var used, t := UsedToday(s, pass, now), Reconciled(s, pass, conflicts, now);
      TallyRowsOk(s, pass, used, conflicts);
      var middle := s.(actions := ConsiderAll(s.actions, pass, StartTally(s.actions, used), conflicts).actions);
      forall key | key in t.actions ensures RowOk(t, key) { assert RowOk(middle, key); }
    }
  }

  lemma ApplyKeepsRows(s: Store, key: ActionKey, basis: string, verdict: Verdict)
    requires RowsOk(s)
    ensures RowsOk(ApplyTo(s, key, basis, verdict))
  {
    var t := ApplyTo(s, key, basis, verdict);
    if t.facts != s.facts { assert t.facts[|s.facts|].action == key; }
    forall k | k in t.actions ensures RowOk(t, k) {
      assert RowOk(s, k);
      if OnRecord(s.facts, k) {
        var i :| 0 <= i < |s.facts| && s.facts[i].action == k;
        assert t.facts[i].action == k;
      }
    }
  }

  lemma StepKeepsRows(s: Store, step: Step)
    requires RowsOk(s) && WellKept(s)
    ensures RowsOk(Next(s, step))
  {
    var t := Next(s, step);
    match step
    case Reconcile(pass, conflicts, now) => ReconcileKeepsRows(s, pass, conflicts, now);
    case Apply(key, basis, verdict) => ApplyKeepsRows(s, key, basis, verdict);
    case _ => forall key | key in t.actions ensures RowOk(t, key) { assert RowOk(s, key); }
  }

  /** In every run from an empty store every row is in order. */
  lemma {:induction false} RunKeepsRows(s: Store, steps: seq<Step>)
    requires RowsOk(s) && Inv(s)
    ensures RowsOk(Run(s, steps))
    decreases |steps|
  {
    if steps != [] {
      StepKeepsRows(s, steps[0]);
      RunKeepsInv(s, steps[..1]);
      assert Run(s, steps[..1]) == Run(Next(s, steps[0]), []) by { assert steps[..1][1..] == []; }
      RunKeepsRows(Next(s, steps[0]), steps[1..]);
    }
  }

  lemma RowsInEveryRun(clock: int, steps: seq<Step>)
    ensures RowsOk(Run(EmptyStore(clock), steps))
  {
    BudgetInEveryRun(clock, []);
    assert Run(EmptyStore(clock), []) == EmptyStore(clock);
    RunKeepsRows(EmptyStore(clock), steps);
  }
}
