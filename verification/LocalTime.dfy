/**
 The native edition's resolver of local times. Instants and local times count seconds; a zone is the
 offset it has at each instant, so the instant `t` reads `t + offset(t)` on the wall.
 */
module LocalTime {

  type Zone = int -> int

  predicate Reads(offset: Zone, t: int, naive: int) { t + offset(t) == naive }

  datatype Ambiguous = EarlierOffset | LaterOffset

  datatype Nonexistent = Reject | ShiftForward

  datatype Note = Plain | AmbiguousEarlier | AmbiguousLater | Shifted

  datatype Resolution = Resolved(instant: int, note: Note) | Rejected | Unresolvable

  const HOUR := 3_600
  const PROBE := 43_200          // the two probes of a gap, twelve hours either way
  const REACH := 172_800         // the sampling reaches 48 hours either way

  /** The offsets sampled every six hours from 48 hours before, up to the `k`-th probe. */
  ghost function SampledBelow(offset: Zone, naive: int, k: int): set<int> {
    set j | -8 <= j < k :: offset(naive + j * 6 * HOUR)
  }

  ghost function Sampled(offset: Zone, naive: int): set<int> { SampledBelow(offset, naive, 9) }

  /** The instants that read as requested under one of the given offsets. */
  ghost function Readable(offset: Zone, naive: int, offsets: set<int>): set<int> {
    set o | o in offsets && Reads(offset, naive - o, naive) :: naive - o
  }

  ghost function Candidates(offset: Zone, naive: int): set<int> { Readable(offset, naive, Sampled(offset, naive)) }

  predicate Increasing(xs: seq<int>) { forall i, j :: 0 <= i < j < |xs| ==> xs[i] < xs[j] }

  /** `xs` lists the set in order. */
  ghost predicate Lists(xs: seq<int>, s: set<int>) { Increasing(xs) && forall x :: x in xs <==> x in s }

  /** The sorted list with one more element. */
  function Insert(xs: seq<int>, x: int): (ys: seq<int>)
    requires Increasing(xs)
    ensures Increasing(ys) && forall y :: y in ys <==> y in xs || y == x
  {
    if xs == [] then [x]
    else if x < xs[0] then [x] + xs
    else if x == xs[0] then xs
    else
      var rest := Insert(xs[1..], x);
      assert forall y :: y in rest ==> xs[0] < y;
      assert forall j :: 0 <= j < |rest| ==> rest[j] in rest;
      [xs[0]] + rest
  }

  lemma ReadableGrows(offset: Zone, naive: int, offsets: set<int>, o: int)
    ensures Readable(offset, naive, offsets + {o})
         == Readable(offset, naive, offsets) + if Reads(offset, naive - o, naive) then {naive - o} else {}
  {
  }

  lemma SampledGrows(offset: Zone, naive: int, k: int)
    requires -8 <= k
    ensures SampledBelow(offset, naive, k + 1) == SampledBelow(offset, naive, k) + {offset(naive + k * 6 * HOUR)}
  {
  }

  /** The resolver without its final choice: sample offsets, keep the instants that read as requested. */
  method FindCandidates(offset: Zone, naive: int) returns (found: seq<int>)
    ensures Lists(found, Candidates(offset, naive))
  {
    ghost var offsets: set<int> := {};
    found := [];
    for k := -8 to 9
      invariant offsets == SampledBelow(offset, naive, k)
      invariant Lists(found, Readable(offset, naive, offsets))
    {
      var o := offset(naive + k * 6 * HOUR);
      if Reads(offset, naive - o, naive) {
        found := Insert(found, naive - o);
      }
      ReadableGrows(offset, naive, offsets, o);
      SampledGrows(offset, naive, k);
      offsets := offsets + {o};
    }
  }

  /** What the resolver answers, given the listed candidates. */
  function Choose(found: seq<int>, offset: Zone, naive: int, ambiguous: Ambiguous, nonexistent: Nonexistent): Resolution {
    if |found| == 1 then Resolved(found[0], Plain)
    else if |found| > 1 then
      if ambiguous.EarlierOffset? then Resolved(found[0], AmbiguousEarlier)
      else Resolved(found[|found| - 1], AmbiguousLater)
    else if nonexistent.Reject? then Rejected
    else
      var before, after := offset(naive - PROBE), offset(naive + PROBE);
      var gap := after - before;
      if gap <= 0 then Unresolvable else Resolved(naive + gap - after, Shifted)
  }

  method Resolve(offset: Zone, naive: int, ambiguous: Ambiguous, nonexistent: Nonexistent) returns (r: Resolution)
    ensures forall found :: Lists(found, Candidates(offset, naive)) ==>
              r == Choose(found, offset, naive, ambiguous, nonexistent)
  {
    var found := FindCandidates(offset, naive);
    r := Choose(found, offset, naive, ambiguous, nonexistent);
    forall other | Lists(other, Candidates(offset, naive)) ensures other == found {
      ListsUnique(other, found, Candidates(offset, naive));
    }
  }

  /** A set has one listing, so the answer depends on the set of candidates alone. */
  lemma {:induction false} ListsUnique(xs: seq<int>, ys: seq<int>, s: set<int>)
    requires Lists(xs, s) && Lists(ys, s)
    ensures xs == ys
    decreases |xs|
  {
    assert (xs == [] || xs[0] in xs) && (ys == [] || ys[0] in ys);
    if xs != [] {
      assert xs[0] in s && xs[0] in ys && ys[0] in s && ys[0] in xs;
      ListsTail(xs, s);
      ListsTail(ys, s);
      ListsUnique(xs[1..], ys[1..], s - {xs[0]});
      assert xs == [xs[0]] + xs[1..] && ys == [ys[0]] + ys[1..];
    }
  }

  lemma ListsTail(xs: seq<int>, s: set<int>)
    requires Lists(xs, s) && xs != []
    ensures Lists(xs[1..], s - {xs[0]})
  {
  }

  /* ----- any zone ----- */

  /** Some six-hourly sample, from 48 hours before to 48 hours after, shows the offset `o`. */
  ghost predicate SampleShows(offset: Zone, naive: int, o: int) {
    exists j :: -8 <= j <= 8 && offset(naive + j * 21_600) == o
  }

  /** Whatever the zone does, the candidates are the instants that read as requested and whose offset some sample shows. */
  lemma CandidatesSampled(offset: Zone, naive: int, t: int)
    ensures t in Candidates(offset, naive) <==> Reads(offset, t, naive) && SampleShows(offset, naive, offset(t))
  {
    if Reads(offset, t, naive) && SampleShows(offset, naive, offset(t)) {
      var j :| -8 <= j <= 8 && offset(naive + j * 21_600) == offset(t);
      assert j * 6 * HOUR == j * 21_600;
      assert offset(t) in Sampled(offset, naive) && t == naive - offset(t);
    }
    if t in Candidates(offset, naive) {
      var o :| o in Sampled(offset, naive) && Reads(offset, naive - o, naive) && t == naive - o;
      var j :| -8 <= j < 9 && offset(naive + j * 6 * HOUR) == o;
      assert j * 6 * HOUR == j * 21_600;
    }
  }

  /** So an instant is found if its offset lasts for six hours somewhere within 48 hours of the requested time. */
  lemma LastingOffsetFound(offset: Zone, naive: int, t: int, from: int)
    requires Reads(offset, t, naive) && naive - 172_800 <= from <= naive + 172_800 - 21_600
    requires forall u :: from <= u <= from + 21_600 ==> offset(u) == offset(t)
    ensures t in Candidates(offset, naive)
  {
    var j := (from - naive + 21_599) / 21_600;
    assert from <= naive + j * 21_600 <= from + 21_600 && -8 <= j <= 8;
    CandidatesSampled(offset, naive, t);
  }

  /** Of several candidates the earliest or the latest is the answer, as configured. */
  lemma ExtremeIsChosen(offset: Zone, naive: int, found: seq<int>, ambiguous: Ambiguous, nonexistent: Nonexistent)
    requires Lists(found, Candidates(offset, naive)) && found != []
    ensures var r := Choose(found, offset, naive, ambiguous, nonexistent);
            && r.Resolved? && r.instant in Candidates(offset, naive)
            && (forall t :: t in Candidates(offset, naive) ==> if ambiguous.EarlierOffset? then r.instant <= t else t <= r.instant)
            && (r.note == Plain <==> forall t :: t in Candidates(offset, naive) ==> t == r.instant)
  {
    assert found[0] in found && found[|found| - 1] in found;
    if |found| > 1 { assert found[0] < found[|found| - 1]; }
  }

  /* ----- zones with one change nearby ----- */

  /** Within the reach of the sampling the offset changes once, at `at`, and no offset exceeds `limit`. */
  ghost predicate OneChange(offset: Zone, naive: int, at: int, first: int, second: int, limit: int) {
    && (forall t :: naive - REACH <= t <= naive + REACH ==> offset(t) == if t < at then first else second)
    && (forall t :: -limit <= offset(t) <= limit)
  }

  /** The candidates are exactly the instants that read as the requested local time. */
  lemma CandidatesExact(offset: Zone, naive: int, at: int, first: int, second: int, t: int)
    requires OneChange(offset, naive, at, first, second, REACH)
    ensures t in Candidates(offset, naive) <==> Reads(offset, t, naive)
  {
    if Reads(offset, t, naive) {
      var o := offset(t);
      assert naive + -8 * 6 * HOUR == naive - REACH && naive + 8 * 6 * HOUR == naive + REACH;
      if t < at {
        assert o == offset(naive + -8 * 6 * HOUR);
      } else {
        assert o == offset(naive + 8 * 6 * HOUR);
      }
      assert o in Sampled(offset, naive);
      assert t == naive - o;
    }
  }

  /** A local time that occurs is resolved to an instant that reads it: the only one, or the earliest
      or latest one as configured. */
  lemma OccurringResolves(offset: Zone, naive: int, at: int, first: int, second: int,
                          found: seq<int>, ambiguous: Ambiguous, nonexistent: Nonexistent, some: int)
    requires OneChange(offset, naive, at, first, second, REACH)
    requires Lists(found, Candidates(offset, naive)) && Reads(offset, some, naive)
    ensures var r := Choose(found, offset, naive, ambiguous, nonexistent);
            && r.Resolved? && Reads(offset, r.instant, naive)
            && r.note in {Plain, if ambiguous.EarlierOffset? then AmbiguousEarlier else AmbiguousLater}
            && (r.note.Plain? <==> forall t :: Reads(offset, t, naive) ==> t == r.instant)
            && (forall t :: Reads(offset, t, naive) ==>
                  if ambiguous.EarlierOffset? then r.instant <= t else t <= r.instant)
  {
    var r := Choose(found, offset, naive, ambiguous, nonexistent);
    CandidatesExact(offset, naive, at, first, second, some);
    assert some in found;
    forall t ensures Reads(offset, t, naive) <==> t in found {
      CandidatesExact(offset, naive, at, first, second, t);
    }
    assert r.instant in found;
    if |found| > 1 {
      assert found[0] in found && found[1] in found;
    }
  }

  ghost predicate Skipped(offset: Zone, naive: int) { forall t :: !Reads(offset, t, naive) }

  /** A local time that never occurs lies in the gap the change tears open. */
  lemma SkippedLiesInGap(offset: Zone, naive: int, at: int, first: int, second: int)
    requires OneChange(offset, naive, at, first, second, REACH) && Skipped(offset, naive)
    ensures at + first <= naive < at + second
  {
    assert !Reads(offset, naive - offset(naive - REACH), naive);
    assert !Reads(offset, naive - offset(naive + REACH), naive);
  }

  /** In a gap the resolver returns the instant that reads the requested time plus the gap, exactly
      when the change happens within the two twelve-hour probes. */
  lemma GapShiftExactly(offset: Zone, naive: int, at: int, first: int, second: int,
                        found: seq<int>, ambiguous: Ambiguous)
    requires OneChange(offset, naive, at, first, second, REACH) && Skipped(offset, naive)
    requires Lists(found, Candidates(offset, naive))
    ensures var r := Choose(found, offset, naive, ambiguous, ShiftForward);
            (r.Resolved? && Reads(offset, r.instant, naive + (second - first)))
            <==> naive - 43_200 < at <= naive + 43_200
    ensures Choose(found, offset, naive, ambiguous, Reject) == Rejected
  {
    SkippedLiesInGap(offset, naive, at, first, second);
    if found != [] {
      assert found[0] in found;
      CandidatesExact(offset, naive, at, first, second, found[0]);
      assert false;
    }
    assert offset(naive - PROBE) == if naive - PROBE < at then first else second;
    assert offset(naive + PROBE) == if naive + PROBE < at then first else second;
    assert -REACH <= offset(naive - REACH) <= REACH && -REACH <= offset(naive + REACH) <= REACH;
    if naive - PROBE < at <= naive + PROBE {
      assert offset(naive - first) == second;
    }
  }

  /** Offsets within twelve hours of UTC put every gap within the probes. */
  lemma TwelveHoursSuffice(offset: Zone, naive: int, at: int, first: int, second: int,
                           found: seq<int>, ambiguous: Ambiguous)
    requires OneChange(offset, naive, at, first, second, PROBE) && Skipped(offset, naive)
    requires Lists(found, Candidates(offset, naive))
    ensures var r := Choose(found, offset, naive, ambiguous, ShiftForward);
            r.Resolved? && r.note.Shifted? && Reads(offset, r.instant, naive + (second - first))
  {
    SkippedLiesInGap(offset, naive, at, first, second);
    assert -PROBE <= offset(naive - REACH) <= PROBE && -PROBE <= offset(naive + REACH) <= PROBE;
    GapShiftExactly(offset, naive, at, first, second, found, ambiguous);
    if found != [] {
      assert found[0] in found;
      CandidatesExact(offset, naive, at, first, second, found[0]);
    }
  }

  /** A zone that skips a whole day by moving from ten hours behind UTC to fourteen hours ahead. */
  function DateLineChange(): Zone { t => if t < 0 then -10 * HOUR else 14 * HOUR }

  /** Late in that skipped day the resolver gives up although it was asked to shift. */
  lemma DateLineChangeFails()
    ensures var naive := 14 * HOUR - 1;
            && Skipped(DateLineChange(), naive)
            && OneChange(DateLineChange(), naive, 0, -10 * HOUR, 14 * HOUR, REACH)
            && Choose([], DateLineChange(), naive, EarlierOffset, ShiftForward) == Unresolvable
            && Lists([], Candidates(DateLineChange(), naive))
  {
  }
}
