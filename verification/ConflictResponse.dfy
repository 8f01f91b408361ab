/**
 The server's private-conflict responder: rules, per-invitation actions and the immutable facts that
 record declines. Each transaction is one function on the whole store; `ConflictStore` carries the
 transactions out in place. Row locks serialise the transactions of one rule, so a run is a sequence
 of them under one monotone clock.
 */
module ConflictResponse {
  import opened Options

  const DAY: int := 86_400_000
  const MAX_AUTOMATIC_DECLINES_PER_24_HOURS := 20

  /* ----- invitations and opaque busy time ----- */

  datatype Invitation = Invitation(
    observation: string, observationHash: string, remoteRevision: Option<string>, start: int, end: int)

  datatype Busy = Busy(calendar: string, start: int, end: int)

  predicate Overlap(leftStart: int, leftEnd: int, rightStart: int, rightEnd: int) {
    leftStart < leftEnd && rightStart < rightEnd && leftStart < rightEnd && rightStart < leftEnd
  }

  function Overlapping(inv: Invitation, busy: seq<Busy>): seq<Busy> {
    if busy == [] then []
    else
      var rest := Overlapping(inv, busy[1..]);
      if Overlap(inv.start, inv.end, busy[0].start, busy[0].end) then [busy[0]] + rest else rest
  }

  datatype Conflict = Conflict(invitation: Invitation, overlapping: seq<Busy>)

  function Conflicts(invitations: seq<Invitation>, busy: seq<Busy>): seq<Conflict> {
    if invitations == [] then []
    else
      var overlap := Overlapping(invitations[0], busy);
      var rest := Conflicts(invitations[1..], busy);
      if |overlap| > 0 then [Conflict(invitations[0], overlap)] + rest else rest
  }

  /** A missing or empty provider revision leaves the decline without a guard. */
  predicate Guarded(inv: Invitation) { inv.remoteRevision.Some? && inv.remoteRevision.value != "" }

  /* ----- rows ----- */

  datatype RuleStatus = Active | Paused | Deleted

  datatype Rule = Rule(identity: string, status: RuleStatus, revision: nat, errorCode: Option<string>)

  datatype ActionStatus = Pending | Held | Applied | Superseded

  /** The table has at most one row for a rule and an observation, and rows are never removed. */
  datatype ActionKey = ActionKey(rule: nat, observation: string)

  datatype Action = Action(
    ruleRevision: nat, observationHash: string, basis: string, expectedRevision: Option<string>,
    comment: string, status: ActionStatus, errorCode: Option<string>)

  /** "invitation_response.declined": appended, never changed. */
  datatype Fact = Fact(action: ActionKey, at: int)

  datatype Store = Store(rules: map<nat, Rule>, actions: map<ActionKey, Action>, facts: seq<Fact>, clock: int, nextRule: nat)

  /* ----- counting declines ----- */

  predicate Concerns(rules: map<nat, Rule>, fact: Fact, identity: string) {
    fact.action.rule in rules && rules[fact.action.rule].identity == identity
  }

  /** Recorded declines of one provider calendar with `since <= at <= until`. */
  function CountWithin(rules: map<nat, Rule>, facts: seq<Fact>, identity: string, since: int, until: int): nat {
    if facts == [] then 0
    else
      var last := facts[|facts| - 1];
      CountWithin(rules, facts[..|facts| - 1], identity, since, until)
      + if Concerns(rules, last, identity) && since <= last.at <= until then 1 else 0
  }

  /** `countRecentAppliedDeclines`: no upper bound on the time. */
  function CountSince(rules: map<nat, Rule>, facts: seq<Fact>, identity: string, since: int): nat {
    if facts == [] then 0
    else
      var last := facts[|facts| - 1];
      CountSince(rules, facts[..|facts| - 1], identity, since)
      + if Concerns(rules, last, identity) && since <= last.at then 1 else 0
  }

  /* ----- reconcile ----- */

  datatype Tally = Tally(
    actions: map<ActionKey, Action>, current: set<ActionKey>,
    reserved: nat, pending: nat, held: nat, budgetHeld: nat)

  /** What the rule asks for in this pass: its revision and message, and the basis hash of a conflict. */
  datatype Pass = Pass(rule: nat, revision: nat, message: string, basisOf: Conflict -> string)

  predicate AlreadyApplied(existing: map<ActionKey, Action>, pass: Pass, conflict: Conflict) {
    var key := ActionKey(pass.rule, conflict.invitation.observation);
    && key in existing
    && existing[key].status.Applied?
    && existing[key].ruleRevision == pass.revision
    && existing[key].observationHash == conflict.invitation.observationHash
    && existing[key].basis == pass.basisOf(conflict)
    && existing[key].comment == pass.message
  }

  function IntendedAction(pass: Pass, conflict: Conflict, pending: bool): Action {
    var inv := conflict.invitation;
    Action(pass.revision, inv.observationHash, pass.basisOf(conflict), inv.remoteRevision, pass.message,
           if pending then Pending else Held,
           if pending then None
           else if !Guarded(inv) then Some("work_revision_missing")
           else Some("automatic_decline_budget_exceeded"))
  }

  /** One turn of the loop over the conflicts. */
  function Consider(existing: map<ActionKey, Action>, pass: Pass, t: Tally, conflict: Conflict): Tally {
    var key := ActionKey(pass.rule, conflict.invitation.observation);
    if AlreadyApplied(existing, pass, conflict) then t.(current := t.current + {key})
    else
      var pending := Guarded(conflict.invitation) && t.reserved < MAX_AUTOMATIC_DECLINES_PER_24_HOURS;
      Tally(t.actions[key := IntendedAction(pass, conflict, pending)],
            t.current + {key},
            if pending then t.reserved + 1 else t.reserved,
            if pending then t.pending + 1 else t.pending,
            if pending then t.held else t.held + 1,
            if !pending && Guarded(conflict.invitation) then t.budgetHeld + 1 else t.budgetHeld)
  }

  function ConsiderAll(existing: map<ActionKey, Action>, pass: Pass, t: Tally, conflicts: seq<Conflict>): Tally {
    if conflicts == [] then t
    else
      var n := |conflicts| - 1;
      Consider(existing, pass, ConsiderAll(existing, pass, t, conflicts[..n]), conflicts[n])
  }

  function StartTally(actions: map<ActionKey, Action>, reserved: nat): Tally {
    Tally(actions, {}, reserved, 0, 0, 0)
  }

  predicate IsStale(key: ActionKey, action: Action, rule: nat, current: set<ActionKey>) {
    key.rule == rule && key !in current && (action.status.Pending? || action.status.Held?)
  }

  function SupersedeStale(actions: map<ActionKey, Action>, rule: nat, current: set<ActionKey>): map<ActionKey, Action> {
    map key | key in actions ::
      if IsStale(key, actions[key], rule, current)
      then actions[key].(status := Superseded, errorCode := Some("conflict_no_longer_present"))
      else actions[key]
  }

  function RuleCode(existing: map<ActionKey, Action>, rule: nat, t: Tally): Option<string> {
    if t.budgetHeld > 0 then Some("automatic_decline_budget_exceeded")
    else if t.held > 0 then Some("work_revision_missing")
    else if exists key :: key in existing && key.rule == rule && existing[key].status.Applied?
                          && existing[key].errorCode == Some("decline_comment_not_retained")
      then Some("decline_comment_not_retained")
    else None
  }

  predicate LiveAt(s: Store, rule: nat, revision: nat) {
    rule in s.rules && s.rules[rule].status.Active? && s.rules[rule].revision == revision
  }

  /** The second half of a reconcile job: `now` and the conflicts were taken before the transaction. */
  function Reconciled(s: Store, pass: Pass, conflicts: seq<Conflict>, now: int): Store {
    if !LiveAt(s, pass.rule, pass.revision) then s
    else
      var used := CountSince(s.rules, s.facts, s.rules[pass.rule].identity, now - DAY);
      var t := ConsiderAll(s.actions, pass, StartTally(s.actions, used), conflicts);
      s.(actions := SupersedeStale(t.actions, pass.rule, t.current),
         rules := s.rules[pass.rule := s.rules[pass.rule].(errorCode := RuleCode(s.actions, pass.rule, t))])
  }

  /* ----- apply ----- */

  /** What the checks inside the apply transaction and the provider found. */
  datatype Verdict =
    | Abandon                                  // retryable failure: the transaction rolls back
    | HoldOnly(code: string)
    | HoldAndMark(code: string)
    | Withdraw(code: string)
    | Declined(commentRetained: bool)

  function ApplyTo(s: Store, key: ActionKey, basis: string, verdict: Verdict): Store {
    if key !in s.actions || key.rule !in s.rules then s
    else
      var action := s.actions[key];
      var rule := s.rules[key.rule];
      if !action.status.Pending? || !rule.status.Active? || action.ruleRevision != rule.revision || action.basis != basis
      then s
      else
        match verdict
        case Abandon => s
        case HoldOnly(code) => s.(actions := s.actions[key := action.(status := Held, errorCode := Some(code))])
        case HoldAndMark(code) =>
          s.(actions := s.actions[key := action.(status := Held, errorCode := Some(code))],
             rules := s.rules[key.rule := rule.(errorCode := Some(code))])
        case Withdraw(code) =>
          s.(actions := s.actions[key := action.(status := Superseded, errorCode := Some(code))])
        case Declined(retained) =>
          var warning := if retained then None else Some("decline_comment_not_retained");
          s.(actions := s.actions[key := action.(status := Applied, errorCode := warning)],
             rules := s.rules[key.rule := rule.(errorCode := warning)],
             facts := s.facts + [Fact(key, s.clock)])
  }

  /* ----- rule lifecycle ----- */

  function MovePending(actions: map<ActionKey, Action>, rule: nat, code: string): map<ActionKey, Action> {
    map key | key in actions ::
      if key.rule == rule && actions[key].status.Pending?
      then actions[key].(status := Held, errorCode := Some(code))
      else actions[key]
  }

  /** `recordRuleFailure`. */
  function Failed(s: Store, rule: nat, code: string): Store {
    if rule !in s.rules || !s.rules[rule].status.Active? then s
    else
      s.(rules := s.rules[rule := s.rules[rule].(errorCode := Some(code))],
         actions := MovePending(s.actions, rule, code))
  }

  function PauseSet(s: Store, rule: nat, paused: bool): Store {
    if rule !in s.rules || s.rules[rule].status.Deleted? then s
    else
      s.(rules := s.rules[rule := s.rules[rule].(status := if paused then Paused else Active, errorCode := None)],
         actions := if paused then MovePending(s.actions, rule, "rule_paused") else s.actions)
  }

  function Removed(s: Store, rule: nat): Store {
    if rule !in s.rules || s.rules[rule].status.Deleted? then s
    else
      s.(rules := s.rules[rule := s.rules[rule].(status := Deleted, errorCode := None)],
         actions := map key | key in s.actions ::
           if key.rule == rule && (s.actions[key].status.Pending? || s.actions[key].status.Held?)
           then s.actions[key].(status := Superseded, errorCode := Some("rule_deleted"))
           else s.actions[key])
  }

  /** Activation is refused while another live rule answers for the same provider calendar. */
  function Activated(s: Store, identity: string): Store {
    if exists r :: r in s.rules && s.rules[r].identity == identity && !s.rules[r].status.Deleted? then s
    else s.(rules := s.rules[s.nextRule := Rule(identity, Active, 1, None)], nextRule := s.nextRule + 1)
  }

  /* ----- runs ----- */

  datatype Step =
    | Reconcile(pass: Pass, conflicts: seq<Conflict>, now: int)
    | Apply(key: ActionKey, basis: string, verdict: Verdict)
    | Fail(rule: nat, code: string)
    | SetPaused(rule: nat, paused: bool)
    | Remove(rule: nat)
    | Activate(identity: string)
    | Tick(clock: int)

  ghost function Next(s: Store, step: Step): Store {
    match step
    case Reconcile(pass, conflicts, now) => if now <= s.clock then Reconciled(s, pass, conflicts, now) else s
    case Apply(key, basis, verdict) => ApplyTo(s, key, basis, verdict)
    case Fail(rule, code) => Failed(s, rule, code)
    case SetPaused(rule, paused) => PauseSet(s, rule, paused)
    case Remove(rule) => Removed(s, rule)
    case Activate(identity) => Activated(s, identity)
    case Tick(clock) => if s.clock <= clock then s.(clock := clock) else s
  }

  ghost function Run(s: Store, steps: seq<Step>): Store
    decreases |steps|
  {
    if steps == [] then s else Run(Next(s, steps[0]), steps[1..])
  }

  /* ----- the preview's closed form ----- */

  function Unguarded(conflicts: seq<Conflict>): nat {
    if conflicts == [] then 0
    else
      var n := |conflicts| - 1;
      Unguarded(conflicts[..n]) + if Guarded(conflicts[n].invitation) then 0 else 1
  }

  datatype Preview = Preview(invitations: nat, conflicts: nat, held: nat, budgetHeld: nat)

  function Positive(n: int): nat { if n > 0 then n else 0 }

  function PreviewOf(invitations: seq<Invitation>, busy: seq<Busy>, used: nat): Preview {
    var conflicts := Conflicts(invitations, busy);
    var unguarded := Unguarded(conflicts);
    var remaining := Positive(MAX_AUTOMATIC_DECLINES_PER_24_HOURS - used);
    var overflow := Positive(|conflicts| - unguarded - remaining);
    Preview(|invitations|, |conflicts|, unguarded + overflow, overflow)
  }
}
