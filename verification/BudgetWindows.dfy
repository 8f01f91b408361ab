/**
 Which 24-hour windows the pending actions may be added to without exceeding the budget: exactly those that
 have not closed yet.
 */
module BudgetWindows {
  import opened Options
  import opened ConflictResponse
  import opened DeclineBudget

  /** Recorded declines of the window that started `lag` ago, plus pending actions, stay within the budget. */
  ghost predicate Within(s: Store, identity: string, lag: int) {
    DayFrom(s.rules, s.facts, identity, s.clock - lag) + |PendingOf(s, identity)| <= BUDGET
  }

  ghost predicate WithinInEveryRun(lag: int) {
    forall clock, steps, identity :: Within(Run(EmptyStore(clock), steps), identity, lag)
  }

  /** A window that has not yet closed lies inside the trailing one, so the reservation covers it. */
  lemma OpenWindows(clock: int, steps: seq<Step>, identity: string, lag: int)
    requires lag <= DAY
    ensures Within(Run(EmptyStore(clock), steps), identity, lag)
  {
    var s := Run(EmptyStore(clock), steps);
    BudgetInEveryRun(clock, steps);
    WindowAtMost(s.rules, s.facts, identity, s.clock - lag, s.clock - lag + DAY, s.clock - DAY);
  }

  /* ----- the run that fills a window and then reserves again ----- */

  ghost predicate Comes(s: Store) { exists steps :: Run(EmptyStore(0), steps) == s }

  lemma {:induction false} RunAppend(s: Store, steps: seq<Step>, step: Step)
    ensures Run(s, steps + [step]) == Next(Run(s, steps), step)
    decreases |steps|
  {
    if steps == [] {
      assert (steps + [step])[1..] == [];
    } else {
      assert (steps + [step])[1..] == steps[1..] + [step];
      RunAppend(Next(s, steps[0]), steps[1..], step);
    }
  }

  lemma ComesNext(s: Store, step: Step)
    requires Comes(s)
    ensures Comes(Next(s, step))
  {
    var steps :| Run(EmptyStore(0), steps) == s;
    RunAppend(EmptyStore(0), steps, step);
  }

  function Name(i: nat): (name: string)
    ensures |name| == i
  {
    if i == 0 then "" else Name(i - 1) + "x"
  }

  function Key(i: nat): ActionKey { ActionKey(0, Name(i)) }

  lemma KeysDiffer(i: nat, j: nat)
    requires i != j
    ensures Key(i) != Key(j)
  {
    assert |Name(i)| != |Name(j)|;
  }

  /** The `i`-th invitation that clashes, for a meeting still to come at `now`. */
  function Clash(i: nat, now: int): Conflict {
    Conflict(Invitation(Name(i), "", Some("r"), now + 1, now + 2), [Busy("", now + 1, now + 2)])
  }

  function Clashes(first: nat, n: nat, now: int): seq<Conflict> {
    if n == 0 then [] else Clashes(first, n - 1, now) + [Clash(first + n - 1, now)]
  }

  const PASS := Pass(0, 1, "", _ => "")

  /** The row of a clash that is to be declined; when the meeting is does not show in it. */
  function Row(i: nat): Action { IntendedAction(PASS, Clash(i, 0), true) }

  /** The clashes from `first` on are pending, and nothing is known of those from `first + n` on. */
  ghost predicate AllPending(actions: map<ActionKey, Action>, first: nat, n: nat) {
    && (forall i: nat :: first <= i < first + n ==>
          Key(i) in actions && actions[Key(i)] == Row(i))
    && (forall i: nat :: first + n <= i ==> Key(i) !in actions)
  }

  ghost predicate AllCurrent(current: set<ActionKey>, first: nat, n: nat) {
    forall i: nat :: first <= i < first + n ==> Key(i) in current
  }

  lemma OneReserved(existing: map<ActionKey, Action>, t: Tally, i: nat, now: int)
    requires t.reserved < BUDGET && Key(i) !in existing
    ensures Consider(existing, PASS, t, Clash(i, now)) == With(t, i)
  {
  }

  lemma ConsiderLast(existing: map<ActionKey, Action>, t: Tally, conflicts: seq<Conflict>, last: Conflict)
    ensures ConsiderAll(existing, PASS, t, conflicts + [last])
         == Consider(existing, PASS, ConsiderAll(existing, PASS, t, conflicts), last)
  {
    assert (conflicts + [last])[..|conflicts|] == conflicts;
  }

  /** A tally that has dealt with `n` clashes from `first` on, all of them now pending. */
  ghost predicate Dealt(t: Tally, first: nat, n: nat, used: nat) {
    t.reserved == used + n && AllPending(t.actions, first, n) && AllCurrent(t.current, first, n)
  }

  function With(t: Tally, i: nat): Tally {
    Tally(t.actions[Key(i) := Row(i)], t.current + {Key(i)}, t.reserved + 1, t.pending + 1, t.held, t.budgetHeld)
  }

  lemma OneMoreDealt(t: Tally, first: nat, n: nat, used: nat)
    requires Dealt(t, first, n, used)
    ensures Dealt(With(t, first + n), first, n + 1, used)
  {
    forall i: nat | i != first + n ensures Key(i) != Key(first + n) { KeysDiffer(i, first + n); }
  }

  /** The tally after `n` clashes from `first` on. */
  function Tallied(existing: map<ActionKey, Action>, used: nat, first: nat, n: nat): (t: Tally)
    ensures t.reserved == used + n
  {
    if n == 0 then StartTally(existing, used) else With(Tallied(existing, used, first, n - 1), first + n - 1)
  }

  /** New clashes all become pending as long as the budget lasts ... */
  lemma {:induction false} AllReserved(existing: map<ActionKey, Action>, used: nat, first: nat, n: nat, now: int)
    requires used + n <= BUDGET && forall i: nat :: first <= i ==> Key(i) !in existing
    ensures ConsiderAll(existing, PASS, StartTally(existing, used), Clashes(first, n, now)) == Tallied(existing, used, first, n)
  {
    if n > 0 {
      AllReserved(existing, used, first, n - 1, now);
      ConsiderLast(existing, StartTally(existing, used), Clashes(first, n - 1, now), Clash(first + n - 1, now));
      OneReserved(existing, Tallied(existing, used, first, n - 1), first + n - 1, now);
    }
  }

  /** ... and no other new row appears. */
  lemma {:induction false} AllDealt(existing: map<ActionKey, Action>, used: nat, first: nat, n: nat)
    requires AllPending(existing, first, 0)
    ensures Dealt(Tallied(existing, used, first, n), first, n, used)
  {
    if n > 0 {
      AllDealt(existing, used, first, n - 1);
      OneMoreDealt(Tallied(existing, used, first, n - 1), first, n - 1, used);
    }
  }

  lemma ReconcileReserves(s: Store, first: nat, n: nat, used: nat)
    requires LiveAt(s, 0, 1) && AllPending(s.actions, first, 0)
    requires used == CountSince(s.rules, s.facts, s.rules[0].identity, s.clock - DAY) && used + n <= BUDGET
    ensures var t := Reconciled(s, PASS, Clashes(first, n, s.clock), s.clock);
            && t.facts == s.facts && t.clock == s.clock && LiveAt(t, 0, 1) && t.rules[0].identity == s.rules[0].identity
            && AllPending(t.actions, first, n)
  {
    var tally := Tallied(s.actions, used, first, n);
    AllReserved(s.actions, used, first, n, s.clock);
    AllDealt(s.actions, used, first, n);
    ReconcileShape(s, Clashes(first, n, s.clock), tally);
    StaleApart(tally.actions, tally.current, first, n);
  }

  lemma ReconcileShape(s: Store, conflicts: seq<Conflict>, tally: Tally)
    requires LiveAt(s, 0, 1)
    requires tally == ConsiderAll(s.actions, PASS,
                        StartTally(s.actions, CountSince(s.rules, s.facts, s.rules[0].identity, s.clock - DAY)), conflicts)
    ensures var t := Reconciled(s, PASS, conflicts, s.clock);
            && t.facts == s.facts && t.clock == s.clock && LiveAt(t, 0, 1) && t.rules[0].identity == s.rules[0].identity
            && t.actions == SupersedeStale(tally.actions, 0, tally.current)
  {
  }

  lemma StaleApart(actions: map<ActionKey, Action>, current: set<ActionKey>, first: nat, n: nat)
    requires AllPending(actions, first, n) && AllCurrent(current, first, n)
    ensures AllPending(SupersedeStale(actions, 0, current), first, n)
  {
  }

  function Facts(k: nat): seq<Fact> { if k == 0 then [] else Facts(k - 1) + [Fact(Key(k - 1), 0)] }

  /** Twenty clashes were reserved at time zero, and the first `k` of them have been declined. */
  ghost predicate Declining(s: Store, k: nat) {
    && s.clock == 0 && LiveAt(s, 0, 1) && s.rules[0].identity == "cal" && s.facts == Facts(k)
    && k <= BUDGET && AllPending(s.actions, k, BUDGET - k)
  }

  lemma Reserved() returns (s: Store)
    ensures Comes(s) && Declining(s, 0)
  {
    var empty := EmptyStore(0);
    assert Run(empty, []) == empty;
    ComesNext(empty, Activate("cal"));
    s := Next(empty, Activate("cal"));
    ReconcileReserves(s, 0, BUDGET, 0);
    ComesNext(s, Reconcile(PASS, Clashes(0, BUDGET, 0), 0));
    s := Next(s, Reconcile(PASS, Clashes(0, BUDGET, 0), 0));
  }

  lemma OneDeclined(s: Store, k: nat)
    requires Comes(s) && Declining(s, k) && k < BUDGET
    ensures var t := Next(s, Apply(Key(k), "", Declined(true))); Comes(t) && Declining(t, k + 1)
  {
    ComesNext(s, Apply(Key(k), "", Declined(true)));
    forall i: nat | i != k ensures Key(i) != Key(k) { KeysDiffer(i, k); }
  }

  lemma {:induction false} AllDeclined(k: nat) returns (s: Store)
    requires k <= BUDGET
    ensures Comes(s) && Declining(s, k)
  {
    if k == 0 {
      s := Reserved();
    } else {
      s := AllDeclined(k - 1);
      OneDeclined(s, k - 1);
      s := Next(s, Apply(Key(k - 1), "", Declined(true)));
    }
  }

  lemma {:induction false} FactsCount(rules: map<nat, Rule>, k: nat, since: int)
    requires 0 in rules && rules[0].identity == "cal"
    ensures CountWithin(rules, Facts(k), "cal", 0, DAY) == k
    ensures since > 0 ==> CountSince(rules, Facts(k), "cal", since) == 0
  {
    if k > 0 { FactsCount(rules, k - 1, since); }
  }

  /** A day and more after twenty declines the next clash is reserved, although the old window is full. */
  lemma ReservedLater(lag: int) returns (s: Store)
    requires lag > DAY
    ensures Comes(s) && s.clock == lag && LiveAt(s, 0, 1) && s.rules[0].identity == "cal" && s.facts == Facts(BUDGET)
    ensures Key(BUDGET) in s.actions && s.actions[Key(BUDGET)].status.Pending?
  {
    s := AllDeclined(BUDGET);
    ComesNext(s, Tick(lag));
    s := Next(s, Tick(lag));
    FactsCount(s.rules, BUDGET, lag - DAY);
    ReconcileReserves(s, BUDGET, 1, 0);
    ComesNext(s, Reconcile(PASS, Clashes(BUDGET, 1, lag), lag));
    s := Next(s, Reconcile(PASS, Clashes(BUDGET, 1, lag), lag));
  }

  lemma ClosedWindows(lag: int)
    requires lag > DAY
    ensures !WithinInEveryRun(lag)
  {
    var s := ReservedLater(lag);
    FactsCount(s.rules, BUDGET, 0);
    assert Key(BUDGET) in PendingOf(s, "cal");
    assert !Within(s, "cal", lag);
    var steps :| Run(EmptyStore(0), steps) == s;
  }

  /** Recorded declines of a window plus pending actions stay within the budget in every run exactly for windows
      that have not closed: a day after twenty declines further ones may be pending. */
  lemma WindowsExactly(lag: int)
    ensures WithinInEveryRun(lag) <==> lag <= DAY
  {
    if lag <= DAY {
      forall clock, steps, identity ensures Within(Run(EmptyStore(clock), steps), identity, lag) {
        OpenWindows(clock, steps, identity, lag);
      }
    } else {
      ClosedWindows(lag);
    }
  }
}
