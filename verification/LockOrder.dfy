/**
 Advisory locks on protected calendars. Each transaction turns its calendars into keys, removes
 duplicates, sorts them and takes the locks one after the other; a lock is named by the hash of its
 key and kept until the transaction ends.
 */
module LockOrder {

  type Key = string
  type Order = (Key, Key) -> bool

  ghost predicate StrictOrder(less: Order) {
    && (forall a :: !less(a, a))
    && (forall a, b, c :: less(a, b) && less(b, c) ==> less(a, c))
    && (forall a, b :: a != b ==> less(a, b) || less(b, a))
  }

  predicate Ascending(less: Order, keys: seq<Key>) {
    forall i, j :: 0 <= i < j < |keys| ==> less(keys[i], keys[j])
  }

  /* ----- the keys of one transaction ----- */

  function InsertKey(less: Order, keys: seq<Key>, key: Key): (r: seq<Key>)
    ensures forall k :: k in r <==> k in keys || k == key
  {
    if keys == [] then [key]
    else if key == keys[0] then keys
    else if less(key, keys[0]) then [key] + keys
    else [keys[0]] + InsertKey(less, keys[1..], key)
  }

  lemma {:induction false} InsertAscending(less: Order, keys: seq<Key>, key: Key)
    requires StrictOrder(less) && Ascending(less, keys)
    ensures Ascending(less, InsertKey(less, keys, key))
  {
    if keys != [] && key != keys[0] {
      if less(key, keys[0]) {
        assert forall i :: 0 <= i < |keys| ==> less(key, keys[i]);
      } else {
        InsertAscending(less, keys[1..], key);
        var rest := InsertKey(less, keys[1..], key);
        assert forall k :: k in rest ==> less(keys[0], k);
        assert forall j :: 0 <= j < |rest| ==> rest[j] in rest;
      }
    }
  }

  /** The key list: the keys of the calendars, each once, in order. */
  method LockPlan(less: Order, keyOf: string -> Key, calendars: seq<string>) returns (keys: seq<Key>)
    requires StrictOrder(less)
    ensures Ascending(less, keys)
    ensures forall k :: k in keys <==> exists c :: c in calendars && keyOf(c) == k
  {
    keys := [];
    for i := 0 to |calendars|
      invariant Ascending(less, keys)
      invariant forall k :: k in keys <==> exists c :: c in calendars[..i] && keyOf(c) == k
    {
      assert calendars[..i + 1] == calendars[..i] + [calendars[i]];
      InsertAscending(less, keys, keyOf(calendars[i]));
      keys := InsertKey(less, keys, keyOf(calendars[i]));
    }
    assert calendars[..|calendars|] == calendars;
  }

  /* ----- many transactions at once ----- */

  /** A transaction has taken the first `taken` locks of its plan; locks go when it is finished. */
  datatype Txn = Txn(plan: seq<Key>, taken: nat, finished: bool)

  type System = seq<Txn>

  ghost predicate WellFormed(less: Order, s: System) {
    forall i :: 0 <= i < |s| ==> Ascending(less, s[i].plan) && s[i].taken <= |s[i].plan|
  }

  predicate Holds(hash: Key -> int, t: Txn, lock: int) {
    !t.finished && exists j :: 0 <= j < t.taken && j < |t.plan| && hash(t.plan[j]) == lock
  }

  /** `i` wants a lock that `k` holds. */
  predicate WaitsFor(hash: Key -> int, s: System, i: int, k: int) {
    && 0 <= i < |s| && 0 <= k < |s| && i != k
    && !s[i].finished && s[i].taken < |s[i].plan|
    && Holds(hash, s[k], hash(s[i].plan[s[i].taken]))
  }

  predicate CanTake(hash: Key -> int, s: System, i: int) {
    && 0 <= i < |s| && !s[i].finished && s[i].taken < |s[i].plan|
    && forall k :: 0 <= k < |s| && k != i ==> !Holds(hash, s[k], hash(s[i].plan[s[i].taken]))
  }

  predicate CanFinish(s: System, i: int) { 0 <= i < |s| && !s[i].finished && s[i].taken == |s[i].plan| }

  datatype Step = Take(i: int) | Finish(i: int) | RollBack(i: int)

  function Next(hash: Key -> int, s: System, step: Step): System {
    match step
    case Take(i) => if CanTake(hash, s, i) then s[i := s[i].(taken := s[i].taken + 1)] else s
    case Finish(i) => if CanFinish(s, i) then s[i := s[i].(finished := true)] else s
    case RollBack(i) => if 0 <= i < |s| then s[i := s[i].(finished := true)] else s
  }

  function Run(hash: Key -> int, s: System, steps: seq<Step>): System
    decreases |steps|
  {
    if steps == [] then s else Run(hash, Next(hash, s, steps[0]), steps[1..])
  }

  /** Every key in use belongs to `keys`. */
  ghost predicate Over(s: System, keys: iset<Key>) {
    forall i, j :: 0 <= i < |s| && 0 <= j < |s[i].plan| ==> s[i].plan[j] in keys
  }

  /** No two different keys share a lock. */
  ghost predicate NoCollisions(hash: Key -> int, keys: iset<Key>) {
    forall a, b :: a in keys && b in keys && hash(a) == hash(b) ==> a == b
  }

  /** Keys that share a lock have no key with another lock between them. */
  ghost predicate Separated(hash: Key -> int, less: Order, keys: iset<Key>) {
    forall a, b, c :: a in keys && b in keys && c in keys && less(a, b) && less(b, c) && hash(a) == hash(c) ==>
      hash(b) == hash(a)
  }

  ghost predicate Exclusive(hash: Key -> int, s: System) {
    forall i, k, lock :: 0 <= i < |s| && 0 <= k < |s| && Holds(hash, s[i], lock) && Holds(hash, s[k], lock) ==> i == k
  }

  ghost predicate SamePlans(s: System, t: System) {
    |s| == |t| && forall i :: 0 <= i < |s| ==> s[i].plan == t[i].plan
  }

  lemma {:induction false} RunKeeps(hash: Key -> int, less: Order, s: System, steps: seq<Step>)
    requires WellFormed(less, s) && Exclusive(hash, s)
    ensures var t := Run(hash, s, steps); WellFormed(less, t) && Exclusive(hash, t) && SamePlans(s, t)
    decreases |steps|
  {
    if steps != [] {
      StepKeeps(hash, less, s, steps[0]);
      RunKeeps(hash, less, Next(hash, s, steps[0]), steps[1..]);
    }
  }

  lemma StepKeeps(hash: Key -> int, less: Order, s: System, step: Step)
    requires WellFormed(less, s) && Exclusive(hash, s)
    ensures var t := Next(hash, s, step); WellFormed(less, t) && Exclusive(hash, t) && SamePlans(s, t)
  {
    var t := Next(hash, s, step);
    forall i, k, lock | 0 <= i < |t| && 0 <= k < |t| && Holds(hash, t[i], lock) && Holds(hash, t[k], lock)
      ensures i == k
    {
      StillHolds(hash, s, step, i, lock);
      StillHolds(hash, s, step, k, lock);
    }
  }

  /** A lock held after a step was held before, or is the one just taken, which nobody else held. */
  lemma StillHolds(hash: Key -> int, s: System, step: Step, i: int, lock: int)
    requires 0 <= i < |s| && Holds(hash, Next(hash, s, step)[i], lock)
    ensures Holds(hash, s[i], lock)
         || (step == Take(i) && CanTake(hash, s, i) && lock == hash(s[i].plan[s[i].taken]))
  {
  }

  /* ----- no deadlock ----- */

  /** If one key of a lock comes before one key of another lock, all its keys do. */
  lemma LocksOrdered(hash: Key -> int, less: Order, keys: iset<Key>, held: Key, later: Key, x: Key)
    requires StrictOrder(less) && Separated(hash, less, keys) && held in keys && later in keys && x in keys
    requires less(held, later) && hash(held) != hash(later) && hash(x) == hash(held)
    ensures less(x, later)
  {
  }

  /** Whoever waits wants a smaller key than its blocker wants, if the blocker lacks what it wants. */
  lemma WaitingClimbs(hash: Key -> int, less: Order, keys: iset<Key>, s: System, i: int, k: int)
    requires StrictOrder(less) && WellFormed(less, s) && Over(s, keys) && Separated(hash, less, keys)
    requires WaitsFor(hash, s, i, k) && s[k].taken < |s[k].plan| && !Holds(hash, s[k], hash(s[k].plan[s[k].taken]))
    ensures less(s[i].plan[s[i].taken], s[k].plan[s[k].taken])
  {
    var wanted := s[i].plan[s[i].taken];
    var j :| 0 <= j < s[k].taken && j < |s[k].plan| && hash(s[k].plan[j]) == hash(wanted);
    LocksOrdered(hash, less, keys, s[k].plan[j], s[k].plan[s[k].taken], wanted);
  }

  /** Whoever waits lacks what it wants. */
  lemma WaiterLacks(hash: Key -> int, s: System, i: int, k: int)
    requires Exclusive(hash, s) && WaitsFor(hash, s, i, k)
    ensures !Holds(hash, s[i], hash(s[i].plan[s[i].taken]))
  {
  }

  /** A cycle of transactions, each waiting for the next and the last for the first. */
  ghost predicate WaitCycle(hash: Key -> int, s: System, cycle: seq<int>) {
    && |cycle| > 0
    && (forall n :: 0 <= n < |cycle| - 1 ==> WaitsFor(hash, s, cycle[n], cycle[n + 1]))
    && WaitsFor(hash, s, cycle[|cycle| - 1], cycle[0])
  }

  function Wanted(s: System, i: int): Key
    requires 0 <= i < |s| && s[i].taken < |s[i].plan|
  {
    s[i].plan[s[i].taken]
  }

  lemma {:induction false} ChainClimbs(hash: Key -> int, less: Order, keys: iset<Key>, s: System, cycle: seq<int>, n: nat)
    requires StrictOrder(less) && WellFormed(less, s) && Exclusive(hash, s) && Over(s, keys) && Separated(hash, less, keys)
    requires WaitCycle(hash, s, cycle) && 0 < n < |cycle|
    ensures 0 <= cycle[0] < |s| && s[cycle[0]].taken < |s[cycle[0]].plan|
    ensures 0 <= cycle[n] < |s| && s[cycle[n]].taken < |s[cycle[n]].plan|
    ensures less(Wanted(s, cycle[0]), Wanted(s, cycle[n]))
  {
    assert WaitsFor(hash, s, cycle[n - 1], cycle[n]);
    WaiterLacks(hash, s, cycle[n], if n < |cycle| - 1 then cycle[n + 1] else cycle[0]);
    WaitingClimbs(hash, less, keys, s, cycle[n - 1], cycle[n]);
    if n > 1 { ChainClimbs(hash, less, keys, s, cycle, n - 1); }
  }

  lemma NoWaitCycle(hash: Key -> int, less: Order, keys: iset<Key>, s: System, cycle: seq<int>)
    requires StrictOrder(less) && WellFormed(less, s) && Exclusive(hash, s) && Over(s, keys) && Separated(hash, less, keys)
    ensures !WaitCycle(hash, s, cycle)
  {
    if WaitCycle(hash, s, cycle) {
      var last := |cycle| - 1;
      if last > 0 {
        assert WaitsFor(hash, s, cycle[0], cycle[1]);
        WaiterLacks(hash, s, cycle[0], cycle[1]);
        ChainClimbs(hash, less, keys, s, cycle, last);
        WaitingClimbs(hash, less, keys, s, cycle[last], cycle[0]);
      }
    }
  }

  /** Among unfinished transactions that still want a lock, one wants the greatest key. */
  lemma {:induction false} Greatest(less: Order, s: System, some: int, n: nat) returns (i: int)
    requires StrictOrder(less) && n <= |s| && 0 <= some < n && !s[some].finished && s[some].taken < |s[some].plan|
    ensures 0 <= i < n && !s[i].finished && s[i].taken < |s[i].plan|
    ensures forall k :: 0 <= k < n && !s[k].finished && s[k].taken < |s[k].plan| ==> !less(Wanted(s, i), Wanted(s, k))
    decreases n
  {
    if some == n - 1 {
      if other :| 0 <= other < n - 1 && !s[other].finished && s[other].taken < |s[other].plan| {
        i := Greatest(less, s, other, n - 1);
        if less(Wanted(s, i), Wanted(s, some)) { i := some; }
      } else {
        i := some;
      }
    } else {
      i := Greatest(less, s, some, n - 1);
      if !s[n - 1].finished && s[n - 1].taken < |s[n - 1].plan| && less(Wanted(s, i), Wanted(s, n - 1)) { i := n - 1; }
    }
  }

  /** While a transaction is unfinished, some unfinished transaction can take a lock or finish. */
  lemma SomeoneMoves(hash: Key -> int, less: Order, keys: iset<Key>, s: System, some: int) returns (i: int)
    requires StrictOrder(less) && WellFormed(less, s) && Exclusive(hash, s) && Over(s, keys) && Separated(hash, less, keys)
    requires 0 <= some < |s| && !s[some].finished
    ensures CanTake(hash, s, i) || CanFinish(s, i)
  {
    if k :| 0 <= k < |s| && CanFinish(s, k) {
      i := k;
    } else {
      assert !CanFinish(s, some);
      i := Greatest(less, s, some, |s|);
      if !CanTake(hash, s, i) {
        var k :| 0 <= k < |s| && k != i && Holds(hash, s[k], hash(s[i].plan[s[i].taken]));
        assert !CanFinish(s, k);
        if Holds(hash, s[k], hash(s[k].plan[s[k].taken])) {
          i := k;
        } else {
          WaitingClimbs(hash, less, keys, s, i, k);
          assert false;
        }
      }
    }
  }

  ghost predicate Fresh(less: Order, s: System) {
    WellFormed(less, s) && forall i :: 0 <= i < |s| ==> s[i].taken == 0 && !s[i].finished
  }

  lemma RunStaysOver(hash: Key -> int, less: Order, keys: iset<Key>, s: System, steps: seq<Step>)
    requires Fresh(less, s) && Over(s, keys)
    ensures var t := Run(hash, s, steps); WellFormed(less, t) && Exclusive(hash, t) && Over(t, keys)
  {
    RunKeeps(hash, less, s, steps);
    var t := Run(hash, s, steps);
    forall i, j | 0 <= i < |t| && 0 <= j < |t[i].plan| ensures t[i].plan[j] in keys { assert s[i].plan == t[i].plan; }
  }

  /** Any number of transactions with any calendars whose keys are separated: in every reachable state there is
      no wait cycle, no lock has two holders, and as long as one transaction is unfinished one can move. */
  lemma SeparatedIsEnough(hash: Key -> int, less: Order, keys: iset<Key>, s: System, steps: seq<Step>)
    requires StrictOrder(less) && Fresh(less, s) && Over(s, keys) && Separated(hash, less, keys)
    ensures var t := Run(hash, s, steps);
            && Exclusive(hash, t)
            && (forall cycle :: !WaitCycle(hash, t, cycle))
            && ((exists k :: 0 <= k < |t| && !t[k].finished) ==> exists i :: CanTake(hash, t, i) || CanFinish(t, i))
  {
    RunStaysOver(hash, less, keys, s, steps);
    var t := Run(hash, s, steps);
    forall cycle ensures !WaitCycle(hash, t, cycle) { NoWaitCycle(hash, less, keys, t, cycle); }
    if k :| 0 <= k < |t| && !t[k].finished {
      var i := SomeoneMoves(hash, less, keys, t, k);
    }
  }

  /* ----- the exact condition ----- */

  ghost predicate NeverDeadlocks(hash: Key -> int, less: Order, keys: iset<Key>) {
    forall s, steps, cycle :: Fresh(less, s) && Over(s, keys) ==> !WaitCycle(hash, Run(hash, s, steps), cycle)
  }

  /** A key between two that share a lock: two transactions can end up waiting for each other. */
  lemma BetweenDeadlocks(hash: Key -> int, less: Order, a: Key, b: Key, c: Key)
    requires StrictOrder(less) && less(a, b) && less(b, c) && hash(a) == hash(c) != hash(b)
    ensures var s := [Txn([a, b], 0, false), Txn([b, c], 0, false)];
            Fresh(less, s) && WaitCycle(hash, Run(hash, s, [Take(0), Take(1)]), [0, 1])
  {
    var s := [Txn([a, b], 0, false), Txn([b, c], 0, false)];
    var s1 := [Txn([a, b], 1, false), Txn([b, c], 0, false)];
    var s2 := [Txn([a, b], 1, false), Txn([b, c], 1, false)];
    assert CanTake(hash, s, 0) && Next(hash, s, Take(0)) == s1;
    assert CanTake(hash, s1, 1) && Next(hash, s1, Take(1)) == s2;
    assert Run(hash, s, [Take(0), Take(1)]) == s2 by {
      assert [Take(0), Take(1)][1..] == [Take(1)];
      assert Run(hash, s1, [Take(1)]) == Run(hash, s2, []);
    }
    assert hash(s2[0].plan[0]) == hash(a) && hash(s2[1].plan[0]) == hash(b);
    assert WaitsFor(hash, s2, 0, 1) && WaitsFor(hash, s2, 1, 0);
  }

  /** Over a set of keys sorted acquisition is free of deadlock exactly when keys that share a lock have no key
      with another lock between them. */
  lemma DeadlockFreeExactly(hash: Key -> int, less: Order, keys: iset<Key>)
    requires StrictOrder(less)
    ensures NeverDeadlocks(hash, less, keys) <==> Separated(hash, less, keys)
  {
    if Separated(hash, less, keys) {
      forall s, steps, cycle | Fresh(less, s) && Over(s, keys) ensures !WaitCycle(hash, Run(hash, s, steps), cycle) {
        SeparatedIsEnough(hash, less, keys, s, steps);
      }
    } else {
      var a, b, c :| a in keys && b in keys && c in keys && less(a, b) && less(b, c) && hash(a) == hash(c) && hash(b) != hash(a);
      NotFree(hash, less, keys, a, b, c);
    }
  }

  lemma NotFree(hash: Key -> int, less: Order, keys: iset<Key>, a: Key, b: Key, c: Key)
    requires StrictOrder(less) && less(a, b) && less(b, c) && hash(a) == hash(c) != hash(b)
    requires a in keys && b in keys && c in keys
    ensures !NeverDeadlocks(hash, less, keys)
  {
    BetweenDeadlocks(hash, less, a, b, c);
    assert Over([Txn([a, b], 0, false), Txn([b, c], 0, false)], keys);
  }

  /** In particular when no two keys share a lock. */
  lemma DeadlockFree(hash: Key -> int, less: Order, keys: iset<Key>, s: System, steps: seq<Step>)
    requires StrictOrder(less) && Fresh(less, s) && Over(s, keys) && NoCollisions(hash, keys)
    ensures var t := Run(hash, s, steps);
            && Exclusive(hash, t)
            && (forall cycle :: !WaitCycle(hash, t, cycle))
            && ((exists k :: 0 <= k < |t| && !t[k].finished) ==> exists i :: CanTake(hash, t, i) || CanFinish(t, i))
  {
    SeparatedIsEnough(hash, less, keys, s, steps);
  }
}
