/**
 The native resolver under the hours profiles: in which zones the local times it resolves stay on their own
 date, so that the bounded scan of dates is enough.
 */
module NativeHours {
  import opened Options
  import opened LocalTime
  import H = Hours

  const DAY := 86_400

  /** The date of a wall reading. */
  function DateOf(reading: int): int { reading / DAY }

  function Read(offset: Zone, t: int): int { t + offset(t) }

  lemma {:induction false} ListExists(s: set<int>) returns (xs: seq<int>)
    ensures Lists(xs, s)
  {
    xs := [];
    if x :| x in s {
      var rest := ListExists(s - {x});
      xs := Insert(rest, x);
    }
  }

  /** What the resolver answers. */
  ghost function Answer(offset: Zone, naive: int, ambiguous: Ambiguous, nonexistent: Nonexistent): (r: Resolution)
    ensures forall found :: Lists(found, Candidates(offset, naive)) ==> r == Choose(found, offset, naive, ambiguous, nonexistent)
  {
    var s := Candidates(offset, naive);
    assert exists found :: Lists(found, s) by { var found := ListExists(s); }
    var found :| Lists(found, s);
    assert forall other :: Lists(other, s) ==> other == found by {
      forall other | Lists(other, s) ensures other == found { ListsUnique(other, found, s); }
    }
    Choose(found, offset, naive, ambiguous, nonexistent)
  }

  function InstantOf(r: Resolution): Option<int> { if r.Resolved? then Some(r.instant) else None }

  /** The zone of an hours profile, as the native edition sees it. */
  ghost function Native(offset: Zone, weekday: int -> int, ambiguous: Ambiguous, nonexistent: Nonexistent): H.Zone {
    H.Zone(
      (date, time) => InstantOf(Answer(offset, date * DAY + time, ambiguous, nonexistent)),
      t => DateOf(Read(offset, t)),
      weekday)
  }

  /** A resolved local time reads as requested, or by the gap later if it was skipped. */
  lemma ResolvedReads(offset: Zone, naive: int, at: int, first: int, second: int, ambiguous: Ambiguous, nonexistent: Nonexistent)
    requires OneChange(offset, naive, at, first, second, PROBE) && Answer(offset, naive, ambiguous, nonexistent).Resolved?
    ensures var t := Answer(offset, naive, ambiguous, nonexistent).instant;
            if Skipped(offset, naive)
            then nonexistent.ShiftForward? && at + first <= naive < at + second && Reads(offset, t, naive + (second - first))
            else Reads(offset, t, naive)
  {
    var found := ListExists(Candidates(offset, naive));
    if Skipped(offset, naive) {
      SkippedLiesInGap(offset, naive, at, first, second);
      GapShiftExactly(offset, naive, at, first, second, found, ambiguous);
      if nonexistent.ShiftForward? { TwelveHoursSuffice(offset, naive, at, first, second, found, ambiguous); }
    } else {
      var some :| Reads(offset, some, naive);
      OccurringResolves(offset, naive, at, first, second, found, ambiguous, nonexistent, some);
    }
  }

  /** With one change nearby and offsets within twelve hours, a resolved local time stays on its date exactly when
      it occurs, or when adding the gap does not carry it over midnight. */
  lemma OwnDateExactly(offset: Zone, date: int, time: int, at: int, first: int, second: int,
                       ambiguous: Ambiguous, nonexistent: Nonexistent)
    requires 0 <= time < DAY && OneChange(offset, date * DAY + time, at, first, second, PROBE)
    requires Answer(offset, date * DAY + time, ambiguous, nonexistent).Resolved?
    ensures DateOf(Read(offset, Answer(offset, date * DAY + time, ambiguous, nonexistent).instant)) == date
            <==> !Skipped(offset, date * DAY + time) || time + (second - first) < DAY
  {
    ResolvedReads(offset, date * DAY + time, at, first, second, ambiguous, nonexistent);
  }

  /* ----- zones in which the scan is enough ----- */

  /** The change does not set the wall back over a midnight, nor, if skipped times are shifted, carry one so far
      over it that later instants before it read the next date. */
  predicate Gentle(at: int, first: int, second: int, nonexistent: Nonexistent) {
    && DateOf(at - 1 + first) <= DateOf(at + second)
    && (nonexistent.ShiftForward? && first + 1 < second ==>
          DateOf(at + first + 1) == DateOf(at + second + (second - first) - 2))
  }

  /** Around every reading the zone changes at most once, gently, and stays within twelve hours of UTC. */
  ghost predicate Regular(offset: Zone, nonexistent: Nonexistent) {
    forall naive :: RegularAround(offset, naive, nonexistent)
  }

  ghost predicate RegularAround(offset: Zone, naive: int, nonexistent: Nonexistent) {
    exists at, first, second ::
      OneChange(offset, naive, at, first, second, PROBE) && Gentle(at, first, second, nonexistent)
  }

  lemma DatesAscend(offset: Zone, nonexistent: Nonexistent, s: int, t: int)
    requires Regular(offset, nonexistent) && s <= t
    ensures DateOf(Read(offset, s)) <= DateOf(Read(offset, t))
  {
    assert RegularAround(offset, s, nonexistent);
    var at, first, second :| OneChange(offset, s, at, first, second, PROBE) && Gentle(at, first, second, nonexistent);
    assert -PROBE <= offset(s) <= PROBE && -PROBE <= offset(t) <= PROBE;
    if t - s < DAY && s < at <= t {
      assert Read(offset, s) <= at - 1 + first && at + second <= Read(offset, t);
    }
  }

  /** After a resolved time no earlier date is read, and before it no later one. */
  lemma OnItsDate(offset: Zone, date: int, time: int, ambiguous: Ambiguous, nonexistent: Nonexistent, t: int)
    requires Regular(offset, nonexistent) && 0 <= time < DAY
    requires Answer(offset, date * DAY + time, ambiguous, nonexistent).Resolved?
    ensures var s := Answer(offset, date * DAY + time, ambiguous, nonexistent).instant;
            && (s < t ==> date <= DateOf(Read(offset, t)))
            && (t < s ==> DateOf(Read(offset, t)) <= date)
  {
    var naive := date * DAY + time;
    var s := Answer(offset, naive, ambiguous, nonexistent).instant;
    assert RegularAround(offset, naive, nonexistent);
    var at, first, second :| OneChange(offset, naive, at, first, second, PROBE) && Gentle(at, first, second, nonexistent);
    ResolvedReads(offset, naive, at, first, second, ambiguous, nonexistent);
    if s < t { DatesAscend(offset, nonexistent, s, t); }
    if t < s {
      if Skipped(offset, naive) {
        ShiftedOnItsDate(offset, nonexistent, naive, at, first, second, s, t);
      } else {
        DatesAscend(offset, nonexistent, t, s);
      }
    }
  }

  lemma ShiftedOnItsDate(offset: Zone, nonexistent: Nonexistent, naive: int, at: int, first: int, second: int, s: int, t: int)
    requires Regular(offset, nonexistent) && nonexistent.ShiftForward?
    requires OneChange(offset, naive, at, first, second, PROBE) && Gentle(at, first, second, nonexistent)
    requires at + first <= naive < at + second && Reads(offset, s, naive + (second - first)) && t < s
    ensures DateOf(Read(offset, t)) <= DateOf(naive)
  {
    assert -PROBE <= offset(s) <= PROBE && -PROBE <= offset(t) <= PROBE;
    assert -PROBE <= offset(at) <= PROBE && -PROBE <= offset(at - 1) <= PROBE;
    if t < at {
      DatesAscend(offset, nonexistent, t, at - 1);
    } else {
      assert Read(offset, t) <= naive + (second - first) - 1;
    }
  }

  lemma NativeResolvesOnItsDate(offset: Zone, weekday: int -> int, ambiguous: Ambiguous, nonexistent: Nonexistent,
                                date: int, time: int, t: int)
    requires Regular(offset, nonexistent) && 0 <= time < DAY
    requires Native(offset, weekday, ambiguous, nonexistent).resolve(date, time).Some?
    ensures var zone := Native(offset, weekday, ambiguous, nonexistent);
            var s := zone.resolve(date, time).value;
            && (s < t ==> date <= zone.dateOf(t))
            && (t < s ==> zone.dateOf(t) <= date)
  {
    assert Native(offset, weekday, ambiguous, nonexistent).resolve(date, time)
        == InstantOf(Answer(offset, date * DAY + time, ambiguous, nonexistent));
    OnItsDate(offset, date, time, ambiguous, nonexistent, t);
  }

  /** In such zones the native resolver meets the condition under which the bounded scan is enough. */
  lemma NativeIsTight(offset: Zone, weekday: int -> int, ambiguous: Ambiguous, nonexistent: Nonexistent)
    requires Regular(offset, nonexistent)
    ensures H.Tight(Native(offset, weekday, ambiguous, nonexistent))
  {
    var zone := Native(offset, weekday, ambiguous, nonexistent);
    forall date, local, i | H.LocalOk(local) && H.Materialize(zone, date, local) == Some(Some(i))
      ensures H.BelongsTo(zone, date, i)
    {
      forall t | i.start < t ensures date <= zone.dateOf(t) {
        NativeResolvesOnItsDate(offset, weekday, ambiguous, nonexistent, date, local.start, t);
      }
      forall t | t < i.end ensures zone.dateOf(t) <= date + 1 {
        NativeResolvesOnItsDate(offset, weekday, ambiguous, nonexistent, date + local.endDayOffset, local.end, t);
      }
    }
  }

  /* ----- one change, exactly ----- */

  /** A zone that changes once. */
  function Once(at: int, first: int, second: int): Zone { t => if t < at then first else second }

  predicate WithinTwelveHours(first: int, second: int) { -PROBE <= first <= PROBE && -PROBE <= second <= PROBE }

  lemma OnceIsRegular(at: int, first: int, second: int, nonexistent: Nonexistent)
    requires WithinTwelveHours(first, second) && Gentle(at, first, second, nonexistent)
    ensures Regular(Once(at, first, second), nonexistent)
  {
    forall naive ensures RegularAround(Once(at, first, second), naive, nonexistent) {
      assert OneChange(Once(at, first, second), naive, at, first, second, PROBE);
    }
  }

  lemma ResolvesReading(offset: Zone, weekday: int -> int, ambiguous: Ambiguous, nonexistent: Nonexistent, reading: int)
    ensures Native(offset, weekday, ambiguous, nonexistent).resolve(DateOf(reading), reading % DAY)
         == InstantOf(Answer(offset, reading, ambiguous, nonexistent))
  {
    var date, time := DateOf(reading), reading % DAY;
    assert date * DAY + time == reading;
  }

  /** The earliest or latest instant that reads as requested, as configured, is the answer. */
  lemma ResolvesTo(at: int, first: int, second: int, weekday: int -> int, ambiguous: Ambiguous, nonexistent: Nonexistent,
                   reading: int, instant: int)
    requires WithinTwelveHours(first, second) && Reads(Once(at, first, second), instant, reading)
    requires forall t :: Reads(Once(at, first, second), t, reading) ==>
               if ambiguous.EarlierOffset? then instant <= t else t <= instant
    ensures Native(Once(at, first, second), weekday, ambiguous, nonexistent).resolve(DateOf(reading), reading % DAY) == Some(instant)
  {
    var offset := Once(at, first, second);
    ResolvesReading(offset, weekday, ambiguous, nonexistent, reading);
    assert OneChange(offset, reading, at, first, second, PROBE);
    var found := ListExists(Candidates(offset, reading));
    OccurringResolves(offset, reading, at, first, second, found, ambiguous, nonexistent, instant);
  }

  /** An interval from a reading to the same time of the next day. */
  lemma Overnight(zone: H.Zone, reading: int, start: int, end: int)
    requires zone.resolve(DateOf(reading), reading % DAY) == Some(start)
    requires zone.resolve(DateOf(reading + DAY), (reading + DAY) % DAY) == Some(end) && start < end
    ensures var local := H.LocalInterval(reading % DAY, reading % DAY, 1);
            H.LocalOk(local) && H.Materialize(zone, DateOf(reading), local) == Some(Some(H.Interval(start, end)))
  {
    assert DateOf(reading + DAY) == DateOf(reading) + 1 && (reading + DAY) % DAY == reading % DAY;
  }

  lemma NotTight(zone: H.Zone, reading: int, start: int, end: int, t: int)
    requires zone.resolve(DateOf(reading), reading % DAY) == Some(start)
    requires zone.resolve(DateOf(reading + DAY), (reading + DAY) % DAY) == Some(end) && start < end
    requires (start < t && zone.dateOf(t) < DateOf(reading)) || (t < end && zone.dateOf(t) > DateOf(reading) + 1)
    ensures !H.Tight(zone)
  {
    Overnight(zone, reading, start, end);
    assert !H.BelongsTo(zone, DateOf(reading), H.Interval(start, end));
  }

  /** Set back over a midnight, the wall reads the day before again after the earlier answers of the new day ... */
  lemma BackIsNotTight(at: int, first: int, second: int, weekday: int -> int, ambiguous: Ambiguous, nonexistent: Nonexistent)
    requires WithinTwelveHours(first, second) && DateOf(at - 1 + first) > DateOf(at + second)
    ensures !H.Tight(Native(Once(at, first, second), weekday, ambiguous, nonexistent))
  {
    var zone := Native(Once(at, first, second), weekday, ambiguous, nonexistent);
    if ambiguous.EarlierOffset? {
      var reading := at - 1 + first;
      ResolvesTo(at, first, second, weekday, ambiguous, nonexistent, reading, at - 1);
      ResolvesTo(at, first, second, weekday, ambiguous, nonexistent, reading + DAY, reading + DAY - second);
      NotTight(zone, reading, at - 1, reading + DAY - second, at);
    } else {
      // ... and the new day before the later answers of the old one
      var reading := at + second - DAY;
      ResolvesTo(at, first, second, weekday, ambiguous, nonexistent, reading, reading - first);
      ResolvesTo(at, first, second, weekday, ambiguous, nonexistent, reading + DAY, at);
      NotTight(zone, reading, reading - first, at, at - 1);
    }
  }

  /** A skipped time that is shifted over a midnight leaves instants of the next date before it. */
  lemma LateGapIsNotTight(at: int, first: int, second: int, weekday: int -> int, ambiguous: Ambiguous)
    requires WithinTwelveHours(first, second) && first + 1 < second
    requires DateOf(at + first + 1) < DateOf(at + second + (second - first) - 2)
    ensures !H.Tight(Native(Once(at, first, second), weekday, ambiguous, ShiftForward))
  {
    var zone := Native(Once(at, first, second), weekday, ambiguous, ShiftForward);
    var n := LateReading(at + first, second - first);
    ShiftedTo(at, first, second, weekday, ambiguous, n);
    ResolvesTo(at, first, second, weekday, ambiguous, ShiftForward, n - DAY, n - DAY - first);
    NextDateBefore(at, first, second, n);
    NotTight(zone, n - DAY, n - DAY - first, n - first, n - first - 1);
  }

  /** The instant before the shifted one reads the next date. */
  lemma NextDateBefore(at: int, first: int, second: int, n: int)
    requires at + first < n && DateOf(n) < DateOf(n + (second - first) - 1)
    ensures DateOf(Read(Once(at, first, second), n - first - 1)) > DateOf(n - DAY) + 1
  {
    assert Read(Once(at, first, second), n - first - 1) == n + (second - first) - 1;
    assert DateOf(n) == DateOf(n - DAY) + 1;
  }

  /** A reading inside the gap that adding the gap carries over a midnight. */
  lemma LateReading(from: int, gap: int) returns (n: int)
    requires 1 < gap && DateOf(from + 1) < DateOf(from + 2 * gap - 2)
    ensures from < n < from + gap && DateOf(n) < DateOf(n + gap - 1)
  {
    var midnight := DateOf(from + 1) * DAY + DAY;
    n := if from + 1 > midnight - gap + 1 then from + 1 else midnight - gap + 1;
    assert n < midnight <= n + gap - 1;
  }

  lemma ShiftedTo(at: int, first: int, second: int, weekday: int -> int, ambiguous: Ambiguous, n: int)
    requires WithinTwelveHours(first, second) && at + first <= n < at + second
    ensures Native(Once(at, first, second), weekday, ambiguous, ShiftForward).resolve(DateOf(n), n % DAY) == Some(n - first)
  {
    var offset := Once(at, first, second);
    assert OneChange(offset, n, at, first, second, PROBE) && Skipped(offset, n);
    var found := ListExists(Candidates(offset, n));
    TwelveHoursSuffice(offset, n, at, first, second, found, ambiguous);
    ResolvesReading(offset, weekday, ambiguous, ShiftForward, n);
  }

  /** For a zone that changes once, within twelve hours of UTC, the native scan is enough for every profile, mode
      and event exactly when the change is gentle. */
  lemma NativeScanExactly(at: int, first: int, second: int, weekday: int -> int, ambiguous: Ambiguous, nonexistent: Nonexistent)
    requires WithinTwelveHours(first, second)
    ensures H.ScanSuffices(Native(Once(at, first, second), weekday, ambiguous, nonexistent))
            <==> Gentle(at, first, second, nonexistent)
  {
    H.ScanExactly(Native(Once(at, first, second), weekday, ambiguous, nonexistent));
    if Gentle(at, first, second, nonexistent) {
      OnceIsRegular(at, first, second, nonexistent);
      NativeIsTight(Once(at, first, second), weekday, ambiguous, nonexistent);
    } else if DateOf(at - 1 + first) > DateOf(at + second) {
      BackIsNotTight(at, first, second, weekday, ambiguous, nonexistent);
    } else {
      LateGapIsNotTight(at, first, second, weekday, ambiguous);
    }
  }
}
