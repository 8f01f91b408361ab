/** Which invitations clash with private busy time, instant by instant, and what the preview counts. */
module ClashingInvitations {
  import opened Options
  import opened ConflictResponse

  predicate Within(x: int, start: int, end: int) { start <= x < end }

  /** Some instant lies both in the invitation and in the busy interval. */
  ghost predicate Meet(inv: Invitation, b: Busy) {
    exists x :: Within(x, inv.start, inv.end) && Within(x, b.start, b.end)
  }

  ghost predicate Clashes(inv: Invitation, busy: seq<Busy>) { exists b :: b in busy && Meet(inv, b) }

  lemma OverlapIsMeeting(inv: Invitation, b: Busy)
    ensures Overlap(inv.start, inv.end, b.start, b.end) <==> Meet(inv, b)
  {
    if Overlap(inv.start, inv.end, b.start, b.end) {
      var x := if inv.start <= b.start then b.start else inv.start;
      assert Within(x, inv.start, inv.end) && Within(x, b.start, b.end);
    }
  }

  /* ----- lists that pick their elements from another one ----- */

  predicate Ascending(at: seq<nat>) { forall i, j :: 0 <= i < j < |at| ==> at[i] < at[j] }

  ghost predicate AreThose<T(!new)>(xs: seq<T>, keep: T -> bool, at: seq<nat>) {
    forall i: nat :: i in at <==> i < |xs| && keep(xs[i])
  }

  predicate StandAt<T(==)>(xs: seq<T>, at: seq<nat>, ys: seq<T>) {
    |at| == |ys| && forall k :: 0 <= k < |at| ==> at[k] < |xs| && ys[k] == xs[at[k]]
  }

  /** `ys` lists exactly the elements of `xs` that `keep` holds of, in order and once per occurrence: those at the
      places `at`. */
  ghost predicate Picks<T(!new)>(xs: seq<T>, keep: T -> bool, at: seq<nat>, ys: seq<T>) {
    Ascending(at) && AreThose(xs, keep, at) && StandAt(xs, at, ys)
  }

  function Shifted(at: seq<nat>): (r: seq<nat>)
    ensures |r| == |at| && forall k :: 0 <= k < |at| ==> r[k] == at[k] + 1
  {
    seq(|at|, k requires 0 <= k < |at| => at[k] + 1)
  }

  lemma ShiftedHas(at: seq<nat>, i: nat)
    ensures i in Shifted(at) <==> i > 0 && i - 1 in at
  {
    if i > 0 && i - 1 in at {
      var k :| 0 <= k < |at| && at[k] == i - 1;
      assert Shifted(at)[k] == i;
    }
    if i in Shifted(at) {
      var k :| 0 <= k < |at| && Shifted(at)[k] == i;
      assert at[k] == i - 1;
    }
  }

  lemma ShiftedStands<T>(x: T, xs: seq<T>, at: seq<nat>, ys: seq<T>)
    requires StandAt(xs, at, ys)
    ensures StandAt([x] + xs, Shifted(at), ys)
  {
  }

  lemma FrontStands<T>(x: T, xs: seq<T>, at: seq<nat>, ys: seq<T>)
    requires StandAt([x] + xs, at, ys)
    ensures StandAt([x] + xs, [0] + at, [x] + ys)
  {
  }

  lemma FrontAscends(at: seq<nat>)
    requires Ascending(at)
    ensures Ascending(Shifted(at)) && Ascending([0] + Shifted(at))
  {
  }

  lemma FrontAreThose<T(!new)>(x: T, xs: seq<T>, keep: T -> bool, at: seq<nat>)
    requires AreThose(xs, keep, at)
    ensures AreThose([x] + xs, keep, if keep(x) then [0] + Shifted(at) else Shifted(at))
  {
    var more := if keep(x) then [0] + Shifted(at) else Shifted(at);
    forall i: nat ensures i in more <==> i < |[x] + xs| && keep(([x] + xs)[i]) {
      ShiftedHas(at, i);
      if 0 < i < |[x] + xs| { assert ([x] + xs)[i] == xs[i - 1]; }
    }
  }

  lemma PicksMore<T(!new)>(x: T, xs: seq<T>, keep: T -> bool, at: seq<nat>, ys: seq<T>)
    requires Picks(xs, keep, at, ys)
    ensures Lists([x] + xs, keep, if keep(x) then [x] + ys else ys)
  {
    FrontAscends(at);
    FrontAreThose(x, xs, keep, at);
    ShiftedStands(x, xs, at, ys);
    if keep(x) {
      FrontStands(x, xs, Shifted(at), ys);
      assert Picks([x] + xs, keep, [0] + Shifted(at), [x] + ys);
    } else {
      assert Picks([x] + xs, keep, Shifted(at), ys);
    }
  }

  ghost predicate Lists<T(!new)>(xs: seq<T>, keep: T -> bool, ys: seq<T>) { exists at :: Picks(xs, keep, at, ys) }

  lemma ListsMore<T(!new)>(xs: seq<T>, keep: T -> bool, ys: seq<T>)
    requires xs != [] && Lists(xs[1..], keep, ys)
    ensures Lists(xs, keep, if keep(xs[0]) then [xs[0]] + ys else ys)
  {
    var at :| Picks(xs[1..], keep, at, ys);
    assert [xs[0]] + xs[1..] == xs;
    PicksMore(xs[0], xs[1..], keep, at, ys);
  }

  lemma ListsNone<T(!new)>(keep: T -> bool)
    ensures Lists([], keep, [])
  {
    assert Picks([], keep, [], []);
  }

  /* ----- what is listed ----- */

  ghost function Meeting(inv: Invitation): Busy -> bool { b => Meet(inv, b) }

  lemma {:induction false} OverlappingLists(inv: Invitation, busy: seq<Busy>)
    ensures Lists(busy, Meeting(inv), Overlapping(inv, busy))
  {
    if busy == [] {
      ListsNone(Meeting(inv));
    } else {
      OverlappingLists(inv, busy[1..]);
      OverlapIsMeeting(inv, busy[0]);
      ListsMore(busy, Meeting(inv), Overlapping(inv, busy[1..]));
    }
  }

  lemma SomethingListed<T(!new)>(xs: seq<T>, keep: T -> bool, ys: seq<T>)
    requires Lists(xs, keep, ys)
    ensures ys != [] <==> exists x :: x in xs && keep(x)
  {
    var at :| Picks(xs, keep, at, ys);
    if ys != [] { assert at[0] in at && xs[at[0]] in xs; }
    if x :| x in xs && keep(x) {
      var i: nat :| i < |xs| && xs[i] == x;
      assert i in at;
    }
  }

  ghost function ClashingWith(busy: seq<Busy>): Invitation -> bool { inv => Clashes(inv, busy) }

  lemma OverlappingExactly(inv: Invitation, busy: seq<Busy>)
    ensures Overlapping(inv, busy) != [] <==> Clashes(inv, busy)
  {
    OverlappingLists(inv, busy);
    SomethingListed(busy, Meeting(inv), Overlapping(inv, busy));
    assert forall b :: Meeting(inv)(b) == Meet(inv, b);
  }

  function Invitations(conflicts: seq<Conflict>): seq<Invitation> {
    seq(|conflicts|, k requires 0 <= k < |conflicts| => conflicts[k].invitation)
  }

  lemma InvitationsMore(c: Conflict, rest: seq<Conflict>)
    ensures Invitations([c] + rest) == [c.invitation] + Invitations(rest)
  {
  }

  lemma {:induction false} InvitationsListed(invitations: seq<Invitation>, busy: seq<Busy>)
    ensures Lists(invitations, ClashingWith(busy), Invitations(Conflicts(invitations, busy)))
  {
    if invitations == [] {
      ListsNone(ClashingWith(busy));
      assert Invitations([]) == [];
    } else {
      var inv, rest := invitations[0], Conflicts(invitations[1..], busy);
      InvitationsListed(invitations[1..], busy);
      OverlappingExactly(inv, busy);
      ListsMore(invitations, ClashingWith(busy), Invitations(rest));
      InvitationsMore(Conflict(inv, Overlapping(inv, busy)), rest);
    }
  }

  lemma {:induction false} OverlapsListed(invitations: seq<Invitation>, busy: seq<Busy>, k: nat)
    requires k < |Conflicts(invitations, busy)|
    ensures var c := Conflicts(invitations, busy)[k]; Lists(busy, Meeting(c.invitation), c.overlapping)
  {
    var first := if |Overlapping(invitations[0], busy)| > 0 then 1 else 0;
    if k < first {
      OverlappingLists(invitations[0], busy);
    } else {
      OverlapsListed(invitations[1..], busy, k - first);
    }
  }

  /** Exactly the invitations that clash are listed, in order and once per occurrence, each with exactly the busy
      intervals it meets, in order and once per occurrence. */
  lemma ConflictsExactly(invitations: seq<Invitation>, busy: seq<Busy>)
    ensures var conflicts := Conflicts(invitations, busy);
            && Lists(invitations, ClashingWith(busy), Invitations(conflicts))
            && forall k :: 0 <= k < |conflicts| ==>
                 Lists(busy, Meeting(conflicts[k].invitation), conflicts[k].overlapping)
  {
    InvitationsListed(invitations, busy);
    forall k | 0 <= k < |Conflicts(invitations, busy)|
      ensures var c := Conflicts(invitations, busy)[k]; Lists(busy, Meeting(c.invitation), c.overlapping)
    {
      OverlapsListed(invitations, busy, k);
    }
  }

  /* ----- what the preview counts ----- */

  ghost function Places<T(!new)>(xs: seq<T>, keep: T -> bool): set<nat> { set i: nat | i < |xs| && keep(xs[i]) }

  lemma {:induction false} AscendingDistinct(at: seq<nat>, s: set<nat>)
    requires Ascending(at) && forall i :: i in at <==> i in s
    ensures |s| == |at|
    decreases |at|
  {
    if at == [] {
      assert s == {};
    } else {
      var n := |at| - 1;
      forall i ensures i in at[..n] <==> i in s - {at[n]} {
        if i in s - {at[n]} {
          var k :| 0 <= k < |at| && at[k] == i;
          assert at[..n][k] == i;
        }
      }
      assert at[n] in at;
      AscendingDistinct(at[..n], s - {at[n]});
    }
  }

  lemma ListsCount<T(!new)>(xs: seq<T>, keep: T -> bool, ys: seq<T>)
    requires Lists(xs, keep, ys)
    ensures |ys| == |Places(xs, keep)|
  {
    var at :| Picks(xs, keep, at, ys);
    AscendingDistinct(at, Places(xs, keep));
  }

  predicate WithRevision(inv: Invitation) { inv.remoteRevision.Some? && |inv.remoteRevision.value| > 0 }

  ghost function ClashingWithout(busy: seq<Busy>): Invitation -> bool { inv => Clashes(inv, busy) && !WithRevision(inv) }

  function Without(conflicts: seq<Conflict>): seq<Invitation> {
    if conflicts == [] then []
    else
      var rest := Without(conflicts[1..]);
      if WithRevision(conflicts[0].invitation) then rest else [conflicts[0].invitation] + rest
  }

  lemma {:induction false} UnguardedCounts(conflicts: seq<Conflict>)
    ensures Unguarded(conflicts) == |Without(conflicts)|
    decreases |conflicts|
  {
    if |conflicts| == 1 {
      assert conflicts[..0] == [] && conflicts[1..] == [];
    } else if |conflicts| > 1 {
      var n := |conflicts| - 1;
      UnguardedCounts(conflicts[1..]);
      UnguardedCounts(conflicts[..n]);
      UnguardedCounts(conflicts[1..n]);
      assert conflicts[1..][..n - 1] == conflicts[1..n] && conflicts[..n][1..] == conflicts[1..n];
    }
  }

  lemma {:induction false} WithoutLists(invitations: seq<Invitation>, busy: seq<Busy>)
    ensures Lists(invitations, ClashingWithout(busy), Without(Conflicts(invitations, busy)))
  {
    if invitations == [] {
      ListsNone(ClashingWithout(busy));
    } else {
      var rest := Conflicts(invitations[1..], busy);
      WithoutLists(invitations[1..], busy);
      OverlappingExactly(invitations[0], busy);
      ListsMore(invitations, ClashingWithout(busy), Without(rest));
    }
  }

  /** The preview counts the invitations that clash; those without a revision are held, and of the others those that
      the rest of the day's twenty declines does not cover. */
  lemma PreviewExactly(invitations: seq<Invitation>, busy: seq<Busy>, used: nat)
    ensures var p := PreviewOf(invitations, busy, used);
            var clashing, bare := |Places(invitations, ClashingWith(busy))|, |Places(invitations, ClashingWithout(busy))|;
            && p.invitations == |invitations| && p.conflicts == clashing && p.held == bare + p.budgetHeld
            && bare <= clashing
            && (clashing - bare + used <= 20 || clashing == bare ==> p.budgetHeld == 0)
            && (clashing - bare + used > 20 && used <= 20 ==> p.budgetHeld == clashing - bare + used - 20)
            && (used > 20 ==> p.budgetHeld == clashing - bare)
  {
    var conflicts := Conflicts(invitations, busy);
    ConflictsExactly(invitations, busy);
    ListsCount(invitations, ClashingWith(busy), Invitations(conflicts));
    WithoutLists(invitations, busy);
    ListsCount(invitations, ClashingWithout(busy), Without(conflicts));
    UnguardedCounts(conflicts);
    UnguardedAtMost(conflicts);
  }

  lemma {:induction false} UnguardedAtMost(conflicts: seq<Conflict>)
    ensures Unguarded(conflicts) <= |conflicts|
    decreases |conflicts|
  {
    if conflicts != [] { UnguardedAtMost(conflicts[..|conflicts| - 1]); }
  }
}
