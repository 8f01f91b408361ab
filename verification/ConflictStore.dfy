/** The responder's tables as they are changed in place, transaction by transaction. */
module ConflictStore {
  import opened Options
  import opened ConflictResponse
  import opened DeclineBudget

  class Tables {
    var rules: map<nat, Rule>
    var actions: map<ActionKey, Action>
    var facts: seq<Fact>
    var clock: int
    var nextRule: nat

    function Snapshot(): Store
      reads this
    {
      Store(rules, actions, facts, clock, nextRule)
    }

    constructor (clock: int)
      ensures Snapshot() == EmptyStore(clock) && Inv(Snapshot())
    {
      rules, actions, facts := map[], map[], [];
      this.clock, nextRule := clock, 0;
      new;
      BudgetInEveryRun(clock, []);
      assert Run(EmptyStore(clock), []) == EmptyStore(clock);
      assert Inv(Snapshot());
    }

    /** The loop over the conflicts: it reserves budget while it rewrites action rows. */
    method ConsiderConflicts(pass: Pass, conflicts: seq<Conflict>, used: nat)
      returns (current: set<ActionKey>, pendingCount: nat, heldCount: nat, budgetHeldCount: nat)
      modifies this`actions
      ensures ConsiderAll(old(actions), pass, StartTally(old(actions), used), conflicts)
           == Tally(actions, current, used + pendingCount, pendingCount, heldCount, budgetHeldCount)
    {
      var existing := actions;
      current, pendingCount, heldCount, budgetHeldCount := {}, 0, 0, 0;
      var automaticResponsesReserved := used;
      for i := 0 to |conflicts|
        invariant automaticResponsesReserved == used + pendingCount
        invariant ConsiderAll(existing, pass, StartTally(existing, used), conflicts[..i])
               == Tally(actions, current, automaticResponsesReserved, pendingCount, heldCount, budgetHeldCount)
      {
        var conflict := conflicts[i];
        var inv := conflict.invitation;
        var key := ActionKey(pass.rule, inv.observation);
        assert conflicts[..i + 1][..i] == conflicts[..i] && conflicts[..i + 1][i] == conflict;
        current := current + {key};
        if AlreadyApplied(existing, pass, conflict) {
          continue;
        }
        var budgetAvailable := automaticResponsesReserved < MAX_AUTOMATIC_DECLINES_PER_24_HOURS;
        var pending := Guarded(inv) && budgetAvailable;
        if pending {
          pendingCount := pendingCount + 1;
          automaticResponsesReserved := automaticResponsesReserved + 1;
        } else {
          heldCount := heldCount + 1;
          if Guarded(inv) { budgetHeldCount := budgetHeldCount + 1; }
        }
        actions := actions[key := IntendedAction(pass, conflict, pending)];
      }
      assert conflicts[..|conflicts|] == conflicts;
    }

    /** The reconcile transaction. */
    method ReconcileRule(pass: Pass, conflicts: seq<Conflict>, now: int)
      returns (pendingCount: nat, heldCount: nat)
      modifies this
      ensures Snapshot() == Reconciled(old(Snapshot()), pass, conflicts, now)
      ensures LiveAt(old(Snapshot()), pass.rule, pass.revision) ==>
                var used := CountSince(old(rules), old(facts), old(rules)[pass.rule].identity, now - DAY);
                var t := ConsiderAll(old(actions), pass, StartTally(old(actions), used), conflicts);
                pendingCount == t.pending && heldCount == t.held
      ensures old(Inv(Snapshot())) && now <= old(clock) ==> Inv(Snapshot())
    {
      if Inv(Snapshot()) && now <= clock { ReconcileKeepsInv(Snapshot(), pass, conflicts, now); }
      pendingCount, heldCount := 0, 0;
      if pass.rule !in rules || !rules[pass.rule].status.Active? || rules[pass.rule].revision != pass.revision {
        return;
      }
      var existing := actions;
      var used := CountSince(rules, facts, rules[pass.rule].identity, now - DAY);
      var current, budgetHeldCount;
      current, pendingCount, heldCount, budgetHeldCount := ConsiderConflicts(pass, conflicts, used);
      actions := SupersedeStale(actions, pass.rule, current);
      var code :=
        if budgetHeldCount > 0 then Some("automatic_decline_budget_exceeded")
        else if heldCount > 0 then Some("work_revision_missing")
        else if exists key :: key in existing && key.rule == pass.rule && existing[key].status.Applied?
                              && existing[key].errorCode == Some("decline_comment_not_retained")
          then Some("decline_comment_not_retained")
        else None;
      rules := rules[pass.rule := rules[pass.rule].(errorCode := code)];
    }

    /** The apply transaction once its checks and the provider have spoken. */
    method ApplyAction(key: ActionKey, basis: string, verdict: Verdict)
      modifies this
      ensures Snapshot() == ApplyTo(old(Snapshot()), key, basis, verdict)
      ensures old(Inv(Snapshot())) ==> Inv(Snapshot())
    {
      if Inv(Snapshot()) { ApplyKeepsInv(Snapshot(), key, basis, verdict); }
      if key !in actions || key.rule !in rules { return; }
      var action, rule := actions[key], rules[key.rule];
      if !action.status.Pending? || !rule.status.Active? || action.ruleRevision != rule.revision
         || action.basis != basis {
        return;
      }
      match verdict
      case Abandon =>
      case HoldOnly(code) =>
        actions := actions[key := action.(status := Held, errorCode := Some(code))];
      case HoldAndMark(code) =>
        actions := actions[key := action.(status := Held, errorCode := Some(code))];
        rules := rules[key.rule := rule.(errorCode := Some(code))];
      case Withdraw(code) =>
        actions := actions[key := action.(status := Superseded, errorCode := Some(code))];
      case Declined(retained) =>
        var warning := if retained then None else Some("decline_comment_not_retained");
        actions := actions[key := action.(status := Applied, errorCode := warning)];
        rules := rules[key.rule := rule.(errorCode := warning)];
        facts := facts + [Fact(key, clock)];
    }

    method PauseRule(rule: nat, paused: bool)
      modifies this
      ensures Snapshot() == PauseSet(old(Snapshot()), rule, paused)
      ensures old(Inv(Snapshot())) ==> Inv(Snapshot())
    {
      if Inv(Snapshot()) { PauseKeepsInv(Snapshot(), rule, paused); }
      if rule !in rules || rules[rule].status.Deleted? { return; }
      rules := rules[rule := rules[rule].(status := if paused then Paused else Active, errorCode := None)];
      if paused { actions := MovePending(actions, rule, "rule_paused"); }
    }

    method RemoveRule(rule: nat)
      modifies this
      ensures Snapshot() == Removed(old(Snapshot()), rule)
      ensures old(Inv(Snapshot())) ==> Inv(Snapshot())
    {
      if Inv(Snapshot()) { RemoveKeepsInv(Snapshot(), rule); }
      if rule !in rules || rules[rule].status.Deleted? { return; }
      actions := map key | key in actions ::
        if key.rule == rule && (actions[key].status.Pending? || actions[key].status.Held?)
        then actions[key].(status := Superseded, errorCode := Some("rule_deleted"))
        else actions[key];
      rules := rules[rule := rules[rule].(status := Deleted, errorCode := None)];
    }

    /** A failed reconcile takes the reservations back. */
    method RecordRuleFailure(rule: nat, code: string)
      modifies this
      ensures Snapshot() == Failed(old(Snapshot()), rule, code)
      ensures old(Inv(Snapshot())) ==> Inv(Snapshot())
    {
      if Inv(Snapshot()) { FailKeepsInv(Snapshot(), rule, code); }
      if rule !in rules || !rules[rule].status.Active? { return; }
      rules := rules[rule := rules[rule].(errorCode := Some(code))];
      actions := MovePending(actions, rule, code);
    }

    method ActivateRule(identity: string) returns (created: Option<nat>)
      modifies this
      ensures Snapshot() == Activated(old(Snapshot()), identity)
      ensures old(Inv(Snapshot())) ==> Inv(Snapshot())
      ensures created.None? <==>
                exists r :: r in old(rules) && old(rules)[r].identity == identity && !old(rules)[r].status.Deleted?
    {
      if Inv(Snapshot()) { ActivateKeepsInv(Snapshot(), identity); }
      if exists r :: r in rules && rules[r].identity == identity && !rules[r].status.Deleted? { return None; }
      created := Some(nextRule);
      rules := rules[nextRule := Rule(identity, Active, 1, None)];
      nextRule := nextRule + 1;
    }
  }
}
