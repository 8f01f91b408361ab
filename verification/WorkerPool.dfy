/**
 The free/busy query: a few workers share a counter of connection groups. Between two awaits a worker
 runs undisturbed, so a step is either "take the next group" or "an answer arrives".
 */
module WorkerPool {

  datatype Interval = Interval(calendar: string, start: int, end: int)

  /** A group's answer: in order, refused before its intervals are counted, or refused after. */
  datatype Answer = Good(busy: seq<Interval>) | BadBounds | BadIntervals(busy: seq<Interval>)

  const CONCURRENCY := 4
  const INTERVAL_LIMIT := 50_000

  datatype Worker = Free | Asking(group: nat) | Gone

  /** `visits` is history: the groups in the order they were asked. */
  datatype State = State(
    workers: seq<Worker>, nextGroup: nat, intervalCount: nat, results: map<nat, seq<Interval>>,
    counted: set<nat>, failed: bool, visits: seq<nat>)

  function Start(groups: nat): State {
    State(seq(if groups < CONCURRENCY then groups else CONCURRENCY, _ => Free), 0, 0, map[], {}, false, [])
  }

  datatype Step = Take(w: nat) | Arrive(w: nat)

  function SizeOf(a: Answer): nat {
    match a
    case Good(busy) => |busy|
    case BadBounds => 0
    case BadIntervals(busy) => |busy|
  }

  function Settle(s: State, w: nat, g: nat, a: Answer): State
    requires w < |s.workers|
  {
    if a.BadBounds? then s.(workers := s.workers[w := Gone], failed := true)
    else
      var t := s.(intervalCount := s.intervalCount + SizeOf(a), counted := s.counted + {g});
      if t.intervalCount > INTERVAL_LIMIT || a.BadIntervals? then t.(workers := s.workers[w := Gone], failed := true)
      else t.(workers := s.workers[w := Free], results := s.results[g := a.busy])
  }

  function Next(groups: nat, answer: nat -> Answer, s: State, step: Step): State {
    match step
    case Take(w) =>
      if w < |s.workers| && s.workers[w].Free? then
        var g := s.nextGroup;
        if g < groups then s.(workers := s.workers[w := Asking(g)], nextGroup := g + 1, visits := s.visits + [g])
        else s.(workers := s.workers[w := Gone], nextGroup := g + 1)
      else s
    case Arrive(w) =>
      if w < |s.workers| && s.workers[w].Asking? then Settle(s, w, s.workers[w].group, answer(s.workers[w].group))
      else s
  }

  function Run(groups: nat, answer: nat -> Answer, s: State, steps: seq<Step>): State
    decreases |steps|
  {
    if steps == [] then s else Run(groups, answer, Next(groups, answer, s, steps[0]), steps[1..])
  }

  predicate AllGone(s: State) { forall w :: 0 <= w < |s.workers| ==> s.workers[w].Gone? }

  /** All workers came back and none of them with an error: the query succeeds. */
  predicate Succeeded(s: State) { AllGone(s) && !s.failed }

  /** The intervals of the counted groups below `n`. */
  function SumOf(answer: nat -> Answer, counted: set<nat>, n: nat): nat {
    if n == 0 then 0
    else SumOf(answer, counted, n - 1) + if n - 1 in counted then SizeOf(answer(n - 1)) else 0
  }

  function Total(answer: nat -> Answer, n: nat): nat {
    if n == 0 then 0 else Total(answer, n - 1) + SizeOf(answer(n - 1))
  }

  /** What one worker asking the groups in turn would collect. */
  function Sequential(answer: nat -> Answer, n: nat): seq<Interval> {
    if n == 0 then []
    else Sequential(answer, n - 1) + if answer(n - 1).Good? then answer(n - 1).busy else []
  }

  /** `results.flat()`. */
  function Flat(results: map<nat, seq<Interval>>, n: nat): seq<Interval> {
    if n == 0 then [] else Flat(results, n - 1) + if n - 1 in results then results[n - 1] else []
  }

  function Upto(n: nat): seq<nat> { if n == 0 then [] else Upto(n - 1) + [n - 1] }

  function Least(a: nat, b: nat): nat { if a < b then a else b }

  /** Groups being asked are distinct and not answered yet. */
  ghost predicate WorkersOk(groups: nat, s: State) {
    && |s.workers| == (if groups < CONCURRENCY then groups else CONCURRENCY)
    && s.visits == Upto(Least(s.nextGroup, groups))
    && (forall w :: 0 <= w < |s.workers| && s.workers[w].Asking? ==>
          s.workers[w].group < groups && s.workers[w].group < s.nextGroup && s.workers[w].group !in s.counted)
    && (forall v, w :: 0 <= v < w < |s.workers| && s.workers[v].Asking? && s.workers[w].Asking? ==>
          s.workers[v].group != s.workers[w].group)
    && (forall g :: g in s.counted ==> g < groups && g < s.nextGroup)
  }

  ghost predicate CountsOk(groups: nat, answer: nat -> Answer, s: State) {
    && (forall g :: g in s.results ==> g in s.counted && answer(g) == Good(s.results[g]))
    && s.intervalCount == SumOf(answer, s.counted, groups)
    && (s.failed ==> s.intervalCount > INTERVAL_LIMIT || exists g: nat :: g < groups && !answer(g).Good?)
    && (!s.failed ==> s.intervalCount <= INTERVAL_LIMIT && forall g :: g in s.counted ==> g in s.results)
  }

  ghost predicate BeingAsked(s: State, g: nat) { exists w :: 0 <= w < |s.workers| && s.workers[w] == Asking(g) }

  /** Nothing is lost while nothing has failed. */
  ghost predicate NothingLost(groups: nat, s: State) {
    !s.failed ==>
      && (forall g: nat :: g < groups && g < s.nextGroup ==> g in s.results || BeingAsked(s, g))
      && ((exists w :: 0 <= w < |s.workers| && s.workers[w].Gone?) ==> s.nextGroup >= groups)
  }

  ghost predicate Inv(groups: nat, answer: nat -> Answer, s: State) {
    WorkersOk(groups, s) && CountsOk(groups, answer, s) && NothingLost(groups, s)
  }

  lemma {:induction false} SumGrows(answer: nat -> Answer, counted: set<nat>, g: nat, n: nat)
    requires g !in counted
    ensures SumOf(answer, counted + {g}, n) == SumOf(answer, counted, n) + if g < n then SizeOf(answer(g)) else 0
  {
    if n > 0 { SumGrows(answer, counted, g, n - 1); }
  }

  lemma {:induction false} SumAtMost(answer: nat -> Answer, counted: set<nat>, n: nat)
    ensures SumOf(answer, counted, n) <= Total(answer, n)
    ensures (forall g :: 0 <= g < n ==> g in counted) ==> SumOf(answer, counted, n) == Total(answer, n)
  {
    if n > 0 { SumAtMost(answer, counted, n - 1); }
  }

  lemma StartInv(groups: nat, answer: nat -> Answer)
    ensures Inv(groups, answer, Start(groups))
  {
    EmptySum(answer, groups);
  }

  lemma {:induction false} EmptySum(answer: nat -> Answer, n: nat)
    ensures SumOf(answer, {}, n) == 0
  {
    if n > 0 { EmptySum(answer, n - 1); }
  }

  /** A worker's step leaves the other workers' groups being asked. */
  lemma OthersKeepAsking(s: State, t: State, w: nat, g: nat)
    requires w < |s.workers| == |t.workers| && BeingAsked(s, g) && s.workers[w] != Asking(g)
    requires forall v :: 0 <= v < |s.workers| && v != w ==> t.workers[v] == s.workers[v]
    ensures BeingAsked(t, g)
  {
  }

  lemma TakeKeepsWorkers(groups: nat, answer: nat -> Answer, s: State, w: nat)
    requires WorkersOk(groups, s) && w < |s.workers| && s.workers[w].Free?
    ensures WorkersOk(groups, Next(groups, answer, s, Take(w)))
  {
  }

  lemma TakeKeepsInv(groups: nat, answer: nat -> Answer, s: State, w: nat)
    requires Inv(groups, answer, s)
    ensures Inv(groups, answer, Next(groups, answer, s, Take(w)))
  {
    if w < |s.workers| && s.workers[w].Free? {
      var t := Next(groups, answer, s, Take(w));
      TakeKeepsWorkers(groups, answer, s, w);
      forall g: nat | !s.failed && g < groups && g < t.nextGroup ensures g in t.results || BeingAsked(t, g) {
        if g == s.nextGroup {
          assert t.workers[w] == Asking(g);
        } else if g !in s.results {
          OthersKeepAsking(s, t, w, g);
        }
      }
    }
  }

  lemma ArriveKeepsWorkers(groups: nat, s: State, w: nat, a: Answer)
    requires WorkersOk(groups, s) && w < |s.workers| && s.workers[w].Asking?
    ensures WorkersOk(groups, Settle(s, w, s.workers[w].group, a))
  {
  }

  lemma ArriveKeepsCounts(groups: nat, answer: nat -> Answer, s: State, w: nat)
    requires WorkersOk(groups, s) && CountsOk(groups, answer, s) && w < |s.workers| && s.workers[w].Asking?
    ensures CountsOk(groups, answer, Settle(s, w, s.workers[w].group, answer(s.workers[w].group)))
  {
    var g := s.workers[w].group;
    SumGrows(answer, s.counted, g, groups);
  }

  lemma ArriveKeepsInv(groups: nat, answer: nat -> Answer, s: State, w: nat)
    requires Inv(groups, answer, s)
    ensures Inv(groups, answer, Next(groups, answer, s, Arrive(w)))
  {
    if w < |s.workers| && s.workers[w].Asking? {
      var g := s.workers[w].group;
      var t := Next(groups, answer, s, Arrive(w));
      ArriveKeepsWorkers(groups, s, w, answer(g));
      ArriveKeepsCounts(groups, answer, s, w);
      forall x: nat | !t.failed && x < groups && x < t.nextGroup ensures x in t.results || BeingAsked(t, x) {
        if x != g && x !in s.results { OthersKeepAsking(s, t, w, x); }
      }
    }
  }

  lemma {:induction false} RunKeepsInv(groups: nat, answer: nat -> Answer, s: State, steps: seq<Step>)
    requires Inv(groups, answer, s)
    ensures Inv(groups, answer, Run(groups, answer, s, steps))
    decreases |steps|
  {
    if steps != [] {
      match steps[0] {
        case Take(w) => TakeKeepsInv(groups, answer, s, w);
        case Arrive(w) => ArriveKeepsInv(groups, answer, s, w);
      }
      RunKeepsInv(groups, answer, Next(groups, answer, s, steps[0]), steps[1..]);
    }
  }

  /** The groups that some worker is asking at the moment. */
  ghost function Asked(s: State): set<nat> { set w | 0 <= w < |s.workers| && s.workers[w].Asking? :: s.workers[w].group }

  /** At no moment more than four groups are being asked, and no two workers ask the same one. */
  lemma NeverMoreThanFour(groups: nat, answer: nat -> Answer, steps: seq<Step>)
    ensures var t := Run(groups, answer, Start(groups), steps);
            && |Asked(t)| <= 4
            && forall v, w :: 0 <= v < w < |t.workers| && t.workers[v].Asking? && t.workers[w].Asking? ==>
                 t.workers[v].group != t.workers[w].group
  {
    StartInv(groups, answer);
    RunKeepsInv(groups, answer, Start(groups), steps);
    AskedAtMost(Run(groups, answer, Start(groups), steps).workers);
  }

  lemma {:induction false} AskedAtMost(workers: seq<Worker>)
    ensures |set w | 0 <= w < |workers| && workers[w].Asking? :: workers[w].group| <= |workers|
    decreases |workers|
  {
    if workers != [] {
      var n := |workers| - 1;
      var asked := set w | 0 <= w < |workers| && workers[w].Asking? :: workers[w].group;
      var before := set w | 0 <= w < |workers[..n]| && workers[..n][w].Asking? :: workers[..n][w].group;
      AskedAtMost(workers[..n]);
      assert asked == before + if workers[n].Asking? then {workers[n].group} else {};
    }
  }

  lemma {:induction false} FlatIsSequential(answer: nat -> Answer, results: map<nat, seq<Interval>>, n: nat)
    requires forall g :: 0 <= g < n ==> g in results && answer(g) == Good(results[g])
    ensures Flat(results, n) == Sequential(answer, n)
  {
    if n > 0 { FlatIsSequential(answer, results, n - 1); }
  }

  /** However the workers interleave, a successful query asked every group exactly once, in order, and
      collected what a sequential scan collects, within the limit. */
  lemma SuccessIsSequential(groups: nat, answer: nat -> Answer, steps: seq<Step>)
    requires Succeeded(Run(groups, answer, Start(groups), steps))
    ensures var t := Run(groups, answer, Start(groups), steps);
            && t.visits == Upto(groups)
            && Flat(t.results, groups) == Sequential(answer, groups)
            && t.intervalCount == Total(answer, groups) <= 50_000
            && forall g :: 0 <= g < groups ==> answer(g).Good?
  {
    StartInv(groups, answer);
    RunKeepsInv(groups, answer, Start(groups), steps);
    var t := Run(groups, answer, Start(groups), steps);
    if groups > 0 { assert t.workers[0].Gone?; }
    assert t.nextGroup >= groups;
    assert forall g: nat :: !BeingAsked(t, g);
    FlatIsSequential(answer, t.results, groups);
    SumAtMost(answer, t.counted, groups);
  }

  /* ----- the final sort ----- */

  type TextOrder = (string, string) -> bool

  ghost predicate TotalOrder(leq: TextOrder) {
    && (forall a, b :: leq(a, b) || leq(b, a))
    && (forall a, b :: leq(a, b) && leq(b, a) ==> a == b)
    && (forall a, b, c :: leq(a, b) && leq(b, c) ==> leq(a, c))
  }

  /** By calendar, then start, then end. */
  predicate NotAfter(leq: TextOrder, a: Interval, b: Interval) {
    if a.calendar != b.calendar then leq(a.calendar, b.calendar)
    else a.start < b.start || (a.start == b.start && a.end <= b.end)
  }

  /** `r` is what sorting `xs` may return. */
  ghost predicate IsSortOf(leq: TextOrder, r: seq<Interval>, xs: seq<Interval>) {
    multiset(r) == multiset(xs) && forall i, j :: 0 <= i < j < |r| ==> NotAfter(leq, r[i], r[j])
  }

  /** Sorting has one result, whatever the algorithm. */
  lemma {:induction false} SortIsUnique(leq: TextOrder, r: seq<Interval>, q: seq<Interval>)
    requires TotalOrder(leq) && IsSortOf(leq, r, q) && IsSortOf(leq, q, q)
    ensures r == q
  {
    assert |r| == |multiset(r)| == |multiset(q)| == |q|;
    if r != [] {
      FirstNotAfter(leq, r, q);
      FirstNotAfter(leq, q, r);
      SameTails(r, q);
      SortIsUnique(leq, r[1..], q[1..]);
      assert r == [r[0]] + r[1..] && q == [q[0]] + q[1..];
    }
  }

  lemma FirstNotAfter(leq: TextOrder, r: seq<Interval>, q: seq<Interval>)
    requires multiset(r) == multiset(q) && r != [] && q != []
    requires forall i, j :: 0 <= i < j < |r| ==> NotAfter(leq, r[i], r[j])
    ensures r[0] == q[0] || NotAfter(leq, r[0], q[0])
  {
    assert q[0] in multiset(r);
    var k :| 0 <= k < |r| && r[k] == q[0];
  }

  lemma SameTails(r: seq<Interval>, q: seq<Interval>)
    requires multiset(r) == multiset(q) && r != [] && q != [] && r[0] == q[0]
    ensures multiset(r[1..]) == multiset(q[1..])
  {
    assert r == [r[0]] + r[1..] && q == [q[0]] + q[1..];
    assert multiset(r[1..]) == multiset(r) - multiset{r[0]} && multiset(q[1..]) == multiset(q) - multiset{q[0]};
  }

  /** So the sorted answer of a successful query is the sorted answer of the sequential scan. */
  lemma SortedAnswerIsSequential(leq: TextOrder, groups: nat, answer: nat -> Answer, steps: seq<Step>,
                                 pooled: seq<Interval>, scanned: seq<Interval>)
    requires TotalOrder(leq) && Succeeded(Run(groups, answer, Start(groups), steps))
    requires IsSortOf(leq, pooled, Flat(Run(groups, answer, Start(groups), steps).results, groups))
    requires IsSortOf(leq, scanned, Sequential(answer, groups))
    ensures pooled == scanned
  {
    SuccessIsSequential(groups, answer, steps);
    SortIsUnique(leq, pooled, scanned);
  }

  /** An interleaving that comes to its end fails exactly when some answer is not in order or the total is over the
      limit. */
  lemma FailsExactlyOverLimit(groups: nat, answer: nat -> Answer, steps: seq<Step>)
    requires AllGone(Run(groups, answer, Start(groups), steps))
    ensures Run(groups, answer, Start(groups), steps).failed <==>
            (exists g: nat :: g < groups && !answer(g).Good?) || Total(answer, groups) > 50_000
  {
    StartInv(groups, answer);
    RunKeepsInv(groups, answer, Start(groups), steps);
    var t := Run(groups, answer, Start(groups), steps);
    SumAtMost(answer, t.counted, groups);
    if !t.failed { SuccessIsSequential(groups, answer, steps); }
  }
}
