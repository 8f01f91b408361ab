/**
 Hours profiles: which instants a profile opens on which local date, and whether an event meets
 them. Dates count days, instants and local times count seconds; the time-zone database enters only
 through three functions of the zone.
 */
module Hours {
  import opened Options

  /** `resolve` turns a local time of a date into an instant, or rejects it; `dateOf` reads the local date. */
  datatype Zone = Zone(resolve: (int, int) -> Option<int>, dateOf: int -> int, weekday: int -> int)

  datatype Interval = Interval(start: int, end: int)

  datatype LocalInterval = LocalInterval(start: int, end: int, endDayOffset: nat)

  datatype Weekly = Weekly(weekday: int, interval: LocalInterval)

  datatype Kind = Closed | Replace | Add | Remove

  datatype DayException = DayException(date: int, kind: Kind, intervals: seq<LocalInterval>)

  datatype Profile = Profile(weekly: seq<Weekly>, exceptions: seq<DayException>)

  predicate In(x: int, i: Interval) { i.start <= x < i.end }

  ghost predicate Covers(xs: seq<Interval>, x: int) { exists k :: 0 <= k < |xs| && In(x, xs[k]) }

  predicate NonEmpty(xs: seq<Interval>) { forall k :: 0 <= k < |xs| ==> xs[k].start < xs[k].end }

  /* ----- removing intervals ----- */

  function Subtract(base: Interval, removal: Interval): seq<Interval> {
    if removal.end <= base.start || removal.start >= base.end then [base]
    else
      (if removal.start > base.start then [Interval(base.start, removal.start)] else [])
      + (if removal.end < base.end then [Interval(removal.end, base.end)] else [])
  }

  function SubtractFromAll(bases: seq<Interval>, removal: Interval): seq<Interval> {
    if bases == [] then [] else Subtract(bases[0], removal) + SubtractFromAll(bases[1..], removal)
  }

  function SubtractEach(bases: seq<Interval>, removals: seq<Interval>): seq<Interval>
    decreases |removals|
  {
    if removals == [] then bases else SubtractEach(SubtractFromAll(bases, removals[0]), removals[1..])
  }

  lemma SubtractPoints(base: Interval, removal: Interval, x: int)
    ensures Covers(Subtract(base, removal), x) <==> In(x, base) && !In(x, removal)
    ensures base.start < base.end && removal.start < removal.end ==> NonEmpty(Subtract(base, removal))
  {
    var r := Subtract(base, removal);
    if In(x, base) && !In(x, removal) {
      if removal.end <= base.start || removal.start >= base.end {
        assert In(x, r[0]);
      } else if x < removal.start {
        assert In(x, r[0]);
      } else {
        assert In(x, r[|r| - 1]);
      }
    }
  }

  lemma CoversConcat(xs: seq<Interval>, ys: seq<Interval>, x: int)
    ensures Covers(xs + ys, x) <==> Covers(xs, x) || Covers(ys, x)
  {
    if Covers(xs, x) {
      var k :| 0 <= k < |xs| && In(x, xs[k]);
      assert (xs + ys)[k] == xs[k];
    }
    if Covers(ys, x) {
      var k :| 0 <= k < |ys| && In(x, ys[k]);
      assert (xs + ys)[|xs| + k] == ys[k];
    }
    if Covers(xs + ys, x) {
      var k :| 0 <= k < |xs + ys| && In(x, (xs + ys)[k]);
      if k >= |xs| { assert (xs + ys)[k] == ys[k - |xs|]; }
    }
  }

  lemma {:induction false} SubtractFromAllPoints(bases: seq<Interval>, removal: Interval, x: int)
    requires removal.start < removal.end
    ensures Covers(SubtractFromAll(bases, removal), x) <==> Covers(bases, x) && !In(x, removal)
    ensures NonEmpty(bases) ==> NonEmpty(SubtractFromAll(bases, removal))
  {
    if bases != [] {
      SubtractPoints(bases[0], removal, x);
      SubtractFromAllPoints(bases[1..], removal, x);
      CoversConcat(Subtract(bases[0], removal), SubtractFromAll(bases[1..], removal), x);
      CoversConcat([bases[0]], bases[1..], x);
      assert [bases[0]] + bases[1..] == bases;
      assert Covers([bases[0]], x) <==> In(x, bases[0]) by {
        if In(x, bases[0]) { assert In(x, [bases[0]][0]); }
      }
    }
  }

  /** Repeated removal leaves exactly the points of the bases that no removal contains, as non-empty
      half-open intervals. */
  lemma {:induction false} SubtractEachPoints(bases: seq<Interval>, removals: seq<Interval>, x: int)
    requires NonEmpty(removals)
    ensures Covers(SubtractEach(bases, removals), x) <==> Covers(bases, x) && !Covers(removals, x)
    ensures NonEmpty(bases) ==> NonEmpty(SubtractEach(bases, removals))
    decreases |removals|
  {
    if removals != [] {
      var next := SubtractFromAll(bases, removals[0]);
      SubtractFromAllPoints(bases, removals[0], x);
      SubtractEachPoints(next, removals[1..], x);
      CoversConcat([removals[0]], removals[1..], x);
      assert [removals[0]] + removals[1..] == removals;
      assert Covers([removals[0]], x) <==> In(x, removals[0]) by {
        if In(x, removals[0]) { assert In(x, [removals[0]][0]); }
      }
    }
  }

  /* ----- the intervals of one date ----- */

  /** `Some(None)` is an interval that turns out empty, `None` a rejected local time. */
  function Materialize(zone: Zone, date: int, local: LocalInterval): Option<Option<Interval>> {
    var start := zone.resolve(date, local.start);
    if start.None? then None
    else
      var end := zone.resolve(date + local.endDayOffset, local.end);
      if end.None? then None
      else if start.value >= end.value then Some(None)
      else Some(Some(Interval(start.value, end.value)))
  }

  function MaterializeAll(zone: Zone, date: int, locals: seq<LocalInterval>): Option<seq<Interval>> {
    if locals == [] then Some([])
    else
      var first := Materialize(zone, date, locals[0]);
      if first.None? then None
      else
        var rest := MaterializeAll(zone, date, locals[1..]);
        if rest.None? then None
        else Some((if first.value.Some? then [first.value.value] else []) + rest.value)
  }

  function WeeklyOn(weekly: seq<Weekly>, weekday: int): seq<LocalInterval> {
    if weekly == [] then []
    else (if weekly[0].weekday == weekday then [weekly[0].interval] else []) + WeeklyOn(weekly[1..], weekday)
  }

  /** The first exception for the date counts. */
  function ExceptionOn(exceptions: seq<DayException>, date: int): Option<DayException> {
    if exceptions == [] then None
    else if exceptions[0].date == date then Some(exceptions[0])
    else ExceptionOn(exceptions[1..], date)
  }

  /** The exception that counts is the first one for the date, if there is one. */
  lemma {:induction false} ExceptionIsFirst(exceptions: seq<DayException>, date: int)
    ensures match ExceptionOn(exceptions, date)
            case None => forall k :: 0 <= k < |exceptions| ==> exceptions[k].date != date
            case Some(e) =>
              exists k :: 0 <= k < |exceptions| && exceptions[k] == e && e.date == date
                          && forall j :: 0 <= j < k ==> exceptions[j].date != date
  {
    if exceptions != [] && exceptions[0].date != date {
      var rest := exceptions[1..];
      ExceptionIsFirst(rest, date);
      if ExceptionOn(rest, date).Some? {
        var e := ExceptionOn(rest, date).value;
        var k :| 0 <= k < |rest| && rest[k] == e && e.date == date && forall j :: 0 <= j < k ==> rest[j].date != date;
        assert exceptions[k + 1] == e;
        forall j | 0 <= j < k + 1 ensures exceptions[j].date != date {
          if j > 0 { assert exceptions[j] == rest[j - 1]; }
        }
      }
    }
  }

  function OpenLocals(zone: Zone, profile: Profile, date: int): seq<LocalInterval> {
    var weekly := WeeklyOn(profile.weekly, zone.weekday(date));
    var exception := ExceptionOn(profile.exceptions, date);
    if exception.None? then weekly
    else
      match exception.value.kind
      case Closed => []
      case Replace => exception.value.intervals
      case Add => weekly + exception.value.intervals
      case Remove => weekly
  }

  function RemovedLocals(profile: Profile, date: int): seq<LocalInterval> {
    var exception := ExceptionOn(profile.exceptions, date);
    if exception.Some? && exception.value.kind.Remove? then exception.value.intervals else []
  }

  function IntervalsForDate(zone: Zone, profile: Profile, date: int): Option<seq<Interval>> {
    var open := MaterializeAll(zone, date, OpenLocals(zone, profile, date));
    if open.None? then None
    else
      var removed := MaterializeAll(zone, date, RemovedLocals(profile, date));
      if removed.None? then None else Some(SubtractEach(open.value, removed.value))
  }

  /* ----- when a profile is open on a date, point by point ----- */

  ghost predicate LocalCovers(zone: Zone, date: int, local: LocalInterval, x: int) {
    var start, end := zone.resolve(date, local.start), zone.resolve(date + local.endDayOffset, local.end);
    start.Some? && end.Some? && start.value <= x < end.value
  }

  ghost predicate LocalsCover(zone: Zone, date: int, locals: seq<LocalInterval>, x: int) {
    exists k :: 0 <= k < |locals| && LocalCovers(zone, date, locals[k], x)
  }

  ghost predicate WeekCovers(zone: Zone, profile: Profile, date: int, x: int) {
    exists k :: 0 <= k < |profile.weekly| && profile.weekly[k].weekday == zone.weekday(date)
                && LocalCovers(zone, date, profile.weekly[k].interval, x)
  }

  /** The weekly hours of the date's weekday, changed by the exception of the date. */
  ghost predicate IsOpen(zone: Zone, profile: Profile, date: int, x: int) {
    var week := WeekCovers(zone, profile, date, x);
    match ExceptionOn(profile.exceptions, date)
    case None => week
    case Some(e) =>
      var named := LocalsCover(zone, date, e.intervals, x);
      match e.kind
      case Closed => false
      case Replace => named
      case Add => week || named
      case Remove => week && !named
  }

  lemma {:induction false} MaterializedPoints(zone: Zone, date: int, locals: seq<LocalInterval>, x: int)
    requires MaterializeAll(zone, date, locals).Some?
    ensures var r := MaterializeAll(zone, date, locals).value;
            NonEmpty(r) && (Covers(r, x) <==> LocalsCover(zone, date, locals, x))
  {
    if locals != [] {
      var first, rest := Materialize(zone, date, locals[0]).value, locals[1..];
      MaterializedPoints(zone, date, rest, x);
      var head := if first.Some? then [first.value] else [];
      CoversConcat(head, MaterializeAll(zone, date, rest).value, x);
      assert Covers(head, x) <==> LocalCovers(zone, date, locals[0], x) by {
        if LocalCovers(zone, date, locals[0], x) { assert In(x, head[0]); }
      }
      LocalsSplit(zone, date, locals, x);
    }
  }

  lemma LocalsSplit(zone: Zone, date: int, locals: seq<LocalInterval>, x: int)
    requires locals != []
    ensures LocalsCover(zone, date, locals, x) <==>
            LocalCovers(zone, date, locals[0], x) || LocalsCover(zone, date, locals[1..], x)
  {
  }

  lemma LocalsConcat(zone: Zone, date: int, a: seq<LocalInterval>, b: seq<LocalInterval>, x: int)
    ensures LocalsCover(zone, date, a + b, x) <==> LocalsCover(zone, date, a, x) || LocalsCover(zone, date, b, x)
  {
    if LocalsCover(zone, date, a, x) {
      var k :| 0 <= k < |a| && LocalCovers(zone, date, a[k], x);
      assert LocalCovers(zone, date, (a + b)[k], x);
    }
    if LocalsCover(zone, date, b, x) {
      var k :| 0 <= k < |b| && LocalCovers(zone, date, b[k], x);
      assert LocalCovers(zone, date, (a + b)[|a| + k], x);
    }
  }

  lemma {:induction false} WeeklyPoints(zone: Zone, weekly: seq<Weekly>, weekday: int, date: int, x: int)
    ensures LocalsCover(zone, date, WeeklyOn(weekly, weekday), x) <==>
            exists k :: 0 <= k < |weekly| && weekly[k].weekday == weekday && LocalCovers(zone, date, weekly[k].interval, x)
  {
    if weekly != [] {
      var rest := weekly[1..];
      WeeklyPoints(zone, rest, weekday, date, x);
      var head := if weekly[0].weekday == weekday then [weekly[0].interval] else [];
      LocalsConcat(zone, date, head, WeeklyOn(rest, weekday), x);
      assert forall k :: 0 <= k < |rest| ==> rest[k] == weekly[k + 1];
      assert LocalsCover(zone, date, head, x) <==>
             weekly[0].weekday == weekday && LocalCovers(zone, date, weekly[0].interval, x) by {
        if weekly[0].weekday == weekday { LocalsSplit(zone, date, head, x); }
      }
    }
  }

  /** What is computed for a date covers exactly the instants at which the profile is open on it. */
  lemma DatePoints(zone: Zone, profile: Profile, date: int, x: int)
    requires IntervalsForDate(zone, profile, date).Some?
    ensures var r := IntervalsForDate(zone, profile, date).value;
            NonEmpty(r) && (Covers(r, x) <==> IsOpen(zone, profile, date, x))
  {
    var open, removed := OpenLocals(zone, profile, date), RemovedLocals(profile, date);
    MaterializedPoints(zone, date, open, x);
    MaterializedPoints(zone, date, removed, x);
    SubtractEachPoints(MaterializeAll(zone, date, open).value, MaterializeAll(zone, date, removed).value, x);
    WeeklyPoints(zone, profile.weekly, zone.weekday(date), date, x);
    var exception := ExceptionOn(profile.exceptions, date);
    if exception.Some? {
      LocalsConcat(zone, date, WeeklyOn(profile.weekly, zone.weekday(date)), exception.value.intervals, x);
    }
  }

  /* ----- meeting the hours ----- */

  predicate Overlaps(i: Interval, event: Interval) { event.start < i.end && i.start < event.end }

  predicate Contains(i: Interval, event: Interval) { i.start <= event.start && event.end <= i.end }

  datatype Mode = OverlapsProfile | ContainedInProfile

  predicate Meets(mode: Mode, i: Interval, event: Interval) {
    if mode.OverlapsProfile? then Overlaps(i, event) else Contains(i, event)
  }

  ghost predicate Shares(i: Interval, event: Interval) { exists x :: In(x, i) && In(x, event) }

  ghost predicate Inside(i: Interval, event: Interval) { forall x :: In(x, event) ==> In(x, i) }

  /** Overlapping is sharing an instant, and containing is having every instant of the event. */
  ghost predicate Fits(mode: Mode, i: Interval, event: Interval) {
    match mode
    case OverlapsProfile => Shares(i, event)
    case ContainedInProfile => Inside(i, event)
  }

  lemma MeetsInPoints(mode: Mode, i: Interval, event: Interval)
    requires event.start < event.end && i.start < i.end
    ensures Meets(mode, i, event) <==> Fits(mode, i, event)
  {
    if mode.OverlapsProfile? {
      var x := if i.start < event.start then event.start else i.start;
      assert Overlaps(i, event) ==> In(x, i) && In(x, event);
    } else if Inside(i, event) {
      assert In(event.start, event) && In(event.end - 1, event);
    }
  }

  datatype Outcome = Included(matched: seq<Interval>) | Outside | InvalidEvent | DstRejected

  const MAX_DAYS := 370

  /** The intervals of the dates from `first` up to but not including `bound`. */
  function Scan(zone: Zone, profile: Profile, first: int, bound: int): Option<seq<Interval>>
    decreases bound - first
  {
    if first >= bound then Some([])
    else
      var before := Scan(zone, profile, first, bound - 1);
      if before.None? then None
      else
        var last := IntervalsForDate(zone, profile, bound - 1);
        if last.None? then None else Some(before.value + last.value)
  }

  predicate Before(a: Interval, b: Interval) { a.start < b.start || (a.start == b.start && a.end < b.end) }

  predicate Arranged(xs: seq<Interval>) { forall i, j :: 0 <= i < j < |xs| ==> Before(xs[i], xs[j]) }

  function InsertInterval(xs: seq<Interval>, x: Interval): (ys: seq<Interval>)
    requires Arranged(xs)
    ensures Arranged(ys) && forall y :: y in ys <==> y in xs || y == x
  {
    if xs == [] then [x]
    else if x == xs[0] then xs
    else if Before(x, xs[0]) then [x] + xs
    else
      var rest := InsertInterval(xs[1..], x);
      assert forall y :: y in rest ==> Before(xs[0], y);
      assert forall j :: 0 <= j < |rest| ==> rest[j] in rest;
      [xs[0]] + rest
  }

  method DeduplicateAndSort(intervals: seq<Interval>) returns (sorted: seq<Interval>)
    ensures Arranged(sorted) && forall x :: x in sorted <==> x in intervals
  {
    sorted := [];
    for i := 0 to |intervals|
      invariant Arranged(sorted) && forall x :: x in sorted <==> x in intervals[..i]
    {
      assert intervals[..i + 1] == intervals[..i] + [intervals[i]];
      sorted := InsertInterval(sorted, intervals[i]);
    }
    assert intervals[..|intervals|] == intervals;
  }

  method Matching(mode: Mode, sorted: seq<Interval>, event: Interval) returns (matched: seq<Interval>)
    requires Arranged(sorted)
    ensures Arranged(matched) && forall x :: x in matched <==> x in sorted && Meets(mode, x, event)
  {
    matched := [];
    for i := 0 to |sorted|
      invariant Arranged(matched) && forall x :: x in matched <==> x in sorted[..i] && Meets(mode, x, event)
    {
      assert sorted[..i + 1] == sorted[..i] + [sorted[i]];
      if Meets(mode, sorted[i], event) {
        assert forall k :: 0 <= k < |matched| ==> matched[k] in sorted[..i];
        assert forall k :: 0 <= k < |matched| ==> Before(matched[k], sorted[i]);
        matched := matched + [sorted[i]];
      }
    }
    assert sorted[..|sorted|] == sorted;
  }

  /** The dates the evaluation looks at: from the day before the event starts to the day it ends. */
  function FirstDate(zone: Zone, event: Interval): int { zone.dateOf(event.start) - 1 }

  function LastDate(zone: Zone, event: Interval): int { zone.dateOf(event.end) }

  /** The loop over the dates; `None` when a local time is rejected or the range is too long. */
  method ScanDates(zone: Zone, profile: Profile, first: int, last: int) returns (r: Option<seq<Interval>>)
    ensures r == if last - first > MAX_DAYS then None else Scan(zone, profile, first, last + 1)
  {
    var concrete: seq<Interval> := [];
    var date, days := first, 0;
    while date <= last
      invariant first <= date && days == date - first <= MAX_DAYS + 1
      invariant date <= last + 1 || date == first
      invariant Scan(zone, profile, first, date) == Some(concrete)
    {
      if days > MAX_DAYS { return None; }
      var ofDate := IntervalsForDate(zone, profile, date);
      if ofDate.None? {
        ScanStops(zone, profile, first, date, last + 1);
        return None;
      }
      ScanNext(zone, profile, first, date);
      concrete := concrete + ofDate.value;
      date := date + 1;
      days := days + 1;
    }
    assert if last < first then concrete == [] else date == last + 1;
    r := Some(concrete);
  }

  lemma ScanNext(zone: Zone, profile: Profile, first: int, date: int)
    requires first <= date && Scan(zone, profile, first, date).Some? && IntervalsForDate(zone, profile, date).Some?
    ensures Scan(zone, profile, first, date + 1)
         == Some(Scan(zone, profile, first, date).value + IntervalsForDate(zone, profile, date).value)
  {
  }

  /** The answer in terms of the scanned dates. */
  ghost predicate Answers(zone: Zone, profile: Profile, mode: Mode, event: Interval, r: Outcome) {
    if event.start >= event.end then r == InvalidEvent
    else
      var scanned := ScanOf(zone, profile, event);
      if LastDate(zone, event) - FirstDate(zone, event) > MAX_DAYS || scanned.None? then r == DstRejected
      else if exists i :: i in scanned.value && Meets(mode, i, event) then
        r.Included? && Arranged(r.matched) && forall i :: i in r.matched <==> i in scanned.value && Meets(mode, i, event)
      else r == Outside
  }

  method Answer(zone: Zone, profile: Profile, mode: Mode, event: Interval) returns (r: Outcome)
    ensures Answers(zone, profile, mode, event, r)
  {
    if event.start >= event.end { return InvalidEvent; }
    var scanned := ScanDates(zone, profile, FirstDate(zone, event), LastDate(zone, event));
    if scanned.None? { return DstRejected; }
    var sorted := DeduplicateAndSort(scanned.value);
    var matched := Matching(mode, sorted, event);
    if |matched| > 0 {
      assert matched[0] in matched;
      r := Included(matched);
    } else {
      r := Outside;
    }
  }

  lemma AnswerFits(zone: Zone, profile: Profile, mode: Mode, event: Interval, r: Outcome)
    requires Answers(zone, profile, mode, event, r) && (r.Included? || r.Outside?)
    ensures var scanned := ScanOf(zone, profile, event);
            && scanned.Some?
            && (r.Included? <==> exists i :: i in scanned.value && Fits(mode, i, event))
            && (r.Included? ==> forall i :: i in r.matched <==> i in scanned.value && Fits(mode, i, event))
  {
    FitsMeets(zone, profile, mode, event);
  }

  lemma AnswerFindsAll(zone: Zone, profile: Profile, mode: Mode, event: Interval, r: Outcome)
    requires Answers(zone, profile, mode, event, r) && (r.Included? || r.Outside?)
    requires Tight(zone) && ProfileOk(profile)
    ensures r.Included? <==> exists i :: OnSomeDate(zone, profile, i) && Fits(mode, i, event)
    ensures r.Included? ==> forall i :: i in r.matched <==> OnSomeDate(zone, profile, i) && Fits(mode, i, event)
    ensures mode.OverlapsProfile? ==> (r.Included? <==> OpenDuring(zone, profile, event))
  {
    FitsMeets(zone, profile, mode, event);
    ScanIsEnough(zone, profile, mode, event);
    OverlapMeansOpen(zone, profile, event);
    AnswerFits(zone, profile, mode, event, r);
  }

  method EvaluateHours(zone: Zone, profile: Profile, mode: Mode, event: Interval) returns (r: Outcome)
    ensures event.start >= event.end <==> r.InvalidEvent?
    ensures event.start < event.end ==>
              var first, last := zone.dateOf(event.start) - 1, zone.dateOf(event.end);
              var scanned := Scan(zone, profile, first, last + 1);
              if last - first > 370 || scanned.None? then r == DstRejected
              else
                && (r.Included? <==> exists i :: i in scanned.value && Fits(mode, i, event))
                && (r.Included? ==> Arranged(r.matched))
                && (r.Included? ==> forall i :: i in r.matched <==> i in scanned.value && Fits(mode, i, event))
                && (!r.Included? ==> r == Outside)
    ensures Tight(zone) && ProfileOk(profile) && (r.Included? || r.Outside?) ==>
              && (r.Included? <==> exists i :: OnSomeDate(zone, profile, i) && Fits(mode, i, event))
              && (r.Included? ==> forall i :: i in r.matched <==> OnSomeDate(zone, profile, i) && Fits(mode, i, event))
              && (mode.OverlapsProfile? ==> (r.Included? <==> OpenDuring(zone, profile, event)))
  {
    r := Answer(zone, profile, mode, event);
    if r.Included? || r.Outside? {
      AnswerFits(zone, profile, mode, event, r);
      if Tight(zone) && ProfileOk(profile) { AnswerFindsAll(zone, profile, mode, event, r); }
    }
  }

  lemma {:induction false} ScanStops(zone: Zone, profile: Profile, first: int, date: int, bound: int)
    requires first <= date < bound && IntervalsForDate(zone, profile, date).None?
    ensures Scan(zone, profile, first, bound).None?
    decreases bound - first
  {
    if bound - 1 > date { ScanStops(zone, profile, first, date, bound - 1); }
  }

  /* ----- looking at more dates would not change the answer ----- */

  const DAY := 86_400

  /** After its start no date before the given one is read, and before its end none after the next. */
  ghost predicate BelongsTo(zone: Zone, date: int, i: Interval) {
    i.start < i.end && NoEarlierAfter(zone, i.start, date) && NoLaterBefore(zone, i.end, date + 1)
  }

  ghost predicate NoLaterBefore(zone: Zone, end: int, date: int) { forall t :: t < end ==> zone.dateOf(t) <= date }

  ghost predicate NoEarlierAfter(zone: Zone, start: int, date: int) { forall t :: start < t ==> date <= zone.dateOf(t) }

  /** Whatever interval a date can have belongs to it. */
  ghost predicate Tight(zone: Zone) {
    forall date, local, i :: LocalOk(local) && Materialize(zone, date, local) == Some(Some(i)) ==> BelongsTo(zone, date, i)
  }

  predicate LocalOk(local: LocalInterval) {
    0 <= local.start < DAY && 0 <= local.end < DAY && local.endDayOffset <= 1
  }

  predicate LocalsOk(locals: seq<LocalInterval>) { forall k :: 0 <= k < |locals| ==> LocalOk(locals[k]) }

  ghost predicate ProfileOk(profile: Profile) {
    && (forall k :: 0 <= k < |profile.weekly| ==> LocalOk(profile.weekly[k].interval))
    && (forall k :: 0 <= k < |profile.exceptions| ==> LocalsOk(profile.exceptions[k].intervals))
  }

  lemma {:induction false} MaterializedBelong(zone: Zone, date: int, locals: seq<LocalInterval>)
    requires Tight(zone) && LocalsOk(locals) && MaterializeAll(zone, date, locals).Some?
    ensures AllBelong(zone, date, MaterializeAll(zone, date, locals).value)
  {
    if locals != [] {
      assert LocalOk(locals[0]);
      var first := Materialize(zone, date, locals[0]).value;
      if first.Some? { assert BelongsTo(zone, date, first.value); }
      assert forall k :: 0 <= k < |locals[1..]| ==> locals[1..][k] == locals[k + 1];
      MaterializedBelong(zone, date, locals[1..]);
    }
  }

  ghost predicate AllBelong(zone: Zone, date: int, xs: seq<Interval>) {
    forall k :: 0 <= k < |xs| ==> BelongsTo(zone, date, xs[k])
  }

  /** What is left after a removal still lies inside the date's hours. */
  lemma {:induction false} SubtractBelongs(zone: Zone, date: int, bases: seq<Interval>, removal: Interval)
    requires AllBelong(zone, date, bases)
    ensures AllBelong(zone, date, SubtractFromAll(bases, removal))
  {
    if bases != [] {
      assert forall k :: 0 <= k < |bases[1..]| ==> bases[1..][k] == bases[k + 1];
      SubtractBelongs(zone, date, bases[1..], removal);
      assert BelongsTo(zone, date, bases[0]);
      forall k | 0 <= k < |Subtract(bases[0], removal)| ensures BelongsTo(zone, date, Subtract(bases[0], removal)[k]) {
        PartBelongs(zone, date, bases[0], Subtract(bases[0], removal)[k]);
      }
    }
  }

  lemma PartBelongs(zone: Zone, date: int, whole: Interval, part: Interval)
    requires BelongsTo(zone, date, whole) && whole.start <= part.start < part.end <= whole.end
    ensures BelongsTo(zone, date, part)
  {
  }

  lemma {:induction false} SubtractEachBelongs(zone: Zone, date: int, bases: seq<Interval>, removals: seq<Interval>)
    requires AllBelong(zone, date, bases)
    ensures AllBelong(zone, date, SubtractEach(bases, removals))
    decreases |removals|
  {
    if removals != [] {
      SubtractBelongs(zone, date, bases, removals[0]);
      SubtractEachBelongs(zone, date, SubtractFromAll(bases, removals[0]), removals[1..]);
    }
  }

  lemma {:induction false} WeeklyOffsets(weekly: seq<Weekly>, weekday: int)
    requires forall k :: 0 <= k < |weekly| ==> LocalOk(weekly[k].interval)
    ensures LocalsOk(WeeklyOn(weekly, weekday))
  {
    if weekly != [] {
      assert forall k :: 0 <= k < |weekly[1..]| ==> weekly[1..][k] == weekly[k + 1];
      WeeklyOffsets(weekly[1..], weekday);
    }
  }

  lemma {:induction false} ExceptionOffsets(exceptions: seq<DayException>, date: int)
    requires forall k :: 0 <= k < |exceptions| ==> LocalsOk(exceptions[k].intervals)
    ensures var e := ExceptionOn(exceptions, date); e.Some? ==> LocalsOk(e.value.intervals)
  {
    if exceptions != [] {
      assert forall k :: 0 <= k < |exceptions[1..]| ==> exceptions[1..][k] == exceptions[k + 1];
      ExceptionOffsets(exceptions[1..], date);
    }
  }

  /** The hours of a date whose local times all resolve. */
  function HoursOn(zone: Zone, profile: Profile, date: int): seq<Interval> {
    var r := IntervalsForDate(zone, profile, date);
    if r.Some? then r.value else []
  }

  lemma LocalsAreOk(zone: Zone, profile: Profile, date: int)
    requires ProfileOk(profile)
    ensures LocalsOk(OpenLocals(zone, profile, date)) && LocalsOk(RemovedLocals(profile, date))
  {
    WeeklyOffsets(profile.weekly, zone.weekday(date));
    ExceptionOffsets(profile.exceptions, date);
  }

  lemma DateIntervalsBelong(zone: Zone, profile: Profile, date: int)
    requires Tight(zone) && ProfileOk(profile)
    ensures AllBelong(zone, date, HoursOn(zone, profile, date))
  {
    if IntervalsForDate(zone, profile, date).Some? {
      var open, removed := OpenLocals(zone, profile, date), RemovedLocals(profile, date);
      LocalsAreOk(zone, profile, date);
      MaterializedBelong(zone, date, open);
      SubtractEachBelongs(zone, date, MaterializeAll(zone, date, open).value, MaterializeAll(zone, date, removed).value);
    }
  }

  /** An event met by an interval of a date lies between the day before it starts and the day it ends. */
  lemma MeetsNearby(zone: Zone, date: int, i: Interval, event: Interval, mode: Mode)
    requires BelongsTo(zone, date, i) && event.start < event.end && Meets(mode, i, event)
    ensures FirstDate(zone, event) <= date <= LastDate(zone, event)
  {
  }

  /** The scan of a range collects exactly the hours of its dates. */
  lemma {:induction false} ScanHas(zone: Zone, profile: Profile, first: int, bound: int, date: int, i: Interval)
    requires Scan(zone, profile, first, bound).Some? && first <= date < bound && i in HoursOn(zone, profile, date)
    ensures i in Scan(zone, profile, first, bound).value
    decreases bound - first
  {
    if date < bound - 1 { ScanHas(zone, profile, first, bound - 1, date, i); }
  }

  lemma {:induction false} ScanFrom(zone: Zone, profile: Profile, first: int, bound: int, i: Interval) returns (date: int)
    requires Scan(zone, profile, first, bound).Some? && i in Scan(zone, profile, first, bound).value
    ensures first <= date < bound && i in HoursOn(zone, profile, date)
    decreases bound - first
  {
    date := bound - 1;
    if i !in HoursOn(zone, profile, date) { date := ScanFrom(zone, profile, first, bound - 1, i); }
  }

  ghost predicate OnSomeDate(zone: Zone, profile: Profile, i: Interval) {
    exists date :: i in HoursOn(zone, profile, date)
  }

  function ScanOf(zone: Zone, profile: Profile, event: Interval): Option<seq<Interval>> {
    Scan(zone, profile, FirstDate(zone, event), LastDate(zone, event) + 1)
  }

  ghost predicate FindsAll(zone: Zone, profile: Profile, mode: Mode, event: Interval)
    requires ScanOf(zone, profile, event).Some?
  {
    forall i :: Meets(mode, i, event) ==> (i in ScanOf(zone, profile, event).value <==> OnSomeDate(zone, profile, i))
  }

  /** The bounded scan is the unbounded meaning: of all intervals of all dates, near or far, those that meet the
      event are the scanned ones that meet it. */
  lemma ScanIsEnough(zone: Zone, profile: Profile, mode: Mode, event: Interval)
    requires Tight(zone) && ProfileOk(profile) && event.start < event.end && ScanOf(zone, profile, event).Some?
    ensures FindsAll(zone, profile, mode, event)
  {
    var first, bound := FirstDate(zone, event), LastDate(zone, event) + 1;
    forall i | Meets(mode, i, event)
      ensures i in Scan(zone, profile, first, bound).value <==> OnSomeDate(zone, profile, i)
    {
      if i in Scan(zone, profile, first, bound).value { var date := ScanFrom(zone, profile, first, bound, i); }
      if date :| i in HoursOn(zone, profile, date) {
        DateIntervalsBelong(zone, profile, date);
        MeetsNearby(zone, date, i, event, mode);
        ScanHas(zone, profile, first, bound, date, i);
      }
    }
  }

  lemma DateFits(zone: Zone, profile: Profile, mode: Mode, event: Interval, date: int, i: Interval)
    requires event.start < event.end && i in HoursOn(zone, profile, date)
    ensures Meets(mode, i, event) <==> Fits(mode, i, event)
  {
    DatePoints(zone, profile, date, i.start);
    var xs := HoursOn(zone, profile, date);
    var k :| 0 <= k < |xs| && xs[k] == i;
    MeetsInPoints(mode, i, event);
  }

  lemma FitsMeets(zone: Zone, profile: Profile, mode: Mode, event: Interval)
    requires event.start < event.end
    ensures forall i :: OnSomeDate(zone, profile, i) ==> (Meets(mode, i, event) <==> Fits(mode, i, event))
    ensures var scanned := Scan(zone, profile, FirstDate(zone, event), LastDate(zone, event) + 1);
            scanned.Some? ==> forall i :: i in scanned.value ==> (Meets(mode, i, event) <==> Fits(mode, i, event))
  {
    forall i | OnSomeDate(zone, profile, i) ensures Meets(mode, i, event) <==> Fits(mode, i, event) {
      var date :| i in HoursOn(zone, profile, date);
      DateFits(zone, profile, mode, event, date, i);
    }
    ScannedOnSomeDate(zone, profile, FirstDate(zone, event), LastDate(zone, event) + 1);
  }

  lemma ScannedOnSomeDate(zone: Zone, profile: Profile, first: int, bound: int)
    ensures var scanned := Scan(zone, profile, first, bound);
            scanned.Some? ==> forall i :: i in scanned.value ==> OnSomeDate(zone, profile, i)
  {
    var scanned := Scan(zone, profile, first, bound);
    if scanned.Some? {
      forall i | i in scanned.value ensures OnSomeDate(zone, profile, i) {
        var date := ScanFrom(zone, profile, first, bound, i);
      }
    }
  }

  /* ----- the exact condition ----- */

  /** Whatever the profile, the mode and the event, a scan that is not rejected finds all that meets the event. */
  ghost predicate ScanSuffices(zone: Zone) {
    forall profile, mode, event: Interval ::
      ProfileOk(profile) && event.start < event.end && ScanOf(zone, profile, event).Some? ==> FindsAll(zone, profile, mode, event)
  }

  /** Open on one date only, during one interval. */
  function OneDate(date: int, local: LocalInterval): Profile { Profile([], [DayException(date, Replace, [local])]) }

  lemma OneDateHours(zone: Zone, date: int, local: LocalInterval, i: Interval, other: int)
    requires Materialize(zone, date, local) == Some(Some(i))
    ensures IntervalsForDate(zone, OneDate(date, local), date) == Some([i])
    ensures other != date ==> IntervalsForDate(zone, OneDate(date, local), other) == Some([])
  {
    var profile := OneDate(date, local);
    assert profile.exceptions[1..] == [];
    assert other != date ==> ExceptionOn(profile.exceptions, other) == None && OpenLocals(zone, profile, other) == [];
    assert MaterializeAll(zone, other, []) == Some([]);
    assert [local][1..] == [] && MaterializeAll(zone, date, []) == Some([]);
    assert [i] + [] == [i];
    assert MaterializeAll(zone, date, [local]) == Some([i]);
  }

  lemma {:induction false} ScanElsewhere(zone: Zone, date: int, local: LocalInterval, i: Interval, first: int, bound: int)
    requires Materialize(zone, date, local) == Some(Some(i)) && (date < first || bound <= date)
    ensures Scan(zone, OneDate(date, local), first, bound) == Some([])
    decreases bound - first
  {
    if first < bound {
      ScanElsewhere(zone, date, local, i, first, bound - 1);
      OneDateHours(zone, date, local, i, bound - 1);
      var none: seq<Interval> := [];
      assert none + none == none;
    }
  }

  /** An event that the interval overlaps and whose dates do not reach its date is missed. */
  lemma Missed(zone: Zone, date: int, local: LocalInterval, i: Interval, event: Interval)
    requires LocalOk(local) && Materialize(zone, date, local) == Some(Some(i))
    requires event.start < event.end && Overlaps(i, event) && (date < FirstDate(zone, event) || LastDate(zone, event) < date)
    ensures !ScanSuffices(zone)
  {
    var profile := OneDate(date, local);
    ScanElsewhere(zone, date, local, i, FirstDate(zone, event), LastDate(zone, event) + 1);
    OneDateHours(zone, date, local, i, date);
    OneDateOk(date, local);
    assert i in HoursOn(zone, profile, date);
    assert Meets(OverlapsProfile, i, event) && OnSomeDate(zone, profile, i);
    assert !FindsAll(zone, profile, OverlapsProfile, event);
  }

  lemma OneDateOk(date: int, local: LocalInterval)
    requires LocalOk(local)
    ensures ProfileOk(OneDate(date, local))
  {
  }

  /** The bounded scan is the unbounded meaning, for every profile, mode and event, exactly in tight zones. */
  lemma ScanExactly(zone: Zone)
    ensures ScanSuffices(zone) <==> Tight(zone)
  {
    if Tight(zone) {
      forall profile, mode, event: Interval | ProfileOk(profile) && event.start < event.end && ScanOf(zone, profile, event).Some?
        ensures FindsAll(zone, profile, mode, event)
      {
        ScanIsEnough(zone, profile, mode, event);
      }
    } else {
      var date, local, i :| LocalOk(local) && Materialize(zone, date, local) == Some(Some(i)) && !BelongsTo(zone, date, i);
      if !NoEarlierAfter(zone, i.start, date) {
        var t :| i.start < t && zone.dateOf(t) < date;
        Missed(zone, date, local, i, Interval(i.start, t));
      } else {
        var t :| t < i.end && zone.dateOf(t) > date + 1;
        Missed(zone, date, local, i, Interval(t, i.end));
      }
    }
  }

  /* ----- overlap is being open at some instant of the event ----- */

  ghost predicate OpenDuring(zone: Zone, profile: Profile, event: Interval) {
    exists date, x :: In(x, event) && IsOpen(zone, profile, date, x)
  }

  lemma {:induction false} ScanDefined(zone: Zone, profile: Profile, first: int, bound: int, date: int)
    requires Scan(zone, profile, first, bound).Some? && first <= date < bound
    ensures IntervalsForDate(zone, profile, date).Some?
    decreases bound - first
  {
    if date < bound - 1 { ScanDefined(zone, profile, first, bound - 1, date); }
  }

  /** What is open at an instant of the event is open on a date of the scan, even if that date were rejected. */
  lemma OpenNearby(zone: Zone, profile: Profile, event: Interval, date: int, x: int)
    requires Tight(zone) && ProfileOk(profile) && In(x, event) && IsOpen(zone, profile, date, x)
    ensures FirstDate(zone, event) <= date <= LastDate(zone, event)
  {
    ExceptionOffsets(profile.exceptions, date);
    var local := CoveringLocal(zone, profile, date, x);
    var i := Interval(zone.resolve(date, local.start).value, zone.resolve(date + local.endDayOffset, local.end).value);
    assert Materialize(zone, date, local) == Some(Some(i));
  }

  lemma CoveringLocal(zone: Zone, profile: Profile, date: int, x: int) returns (local: LocalInterval)
    requires ProfileOk(profile) && IsOpen(zone, profile, date, x)
    ensures LocalOk(local) && LocalCovers(zone, date, local, x)
  {
    if WeekCovers(zone, profile, date, x) {
      var k :| 0 <= k < |profile.weekly| && profile.weekly[k].weekday == zone.weekday(date)
               && LocalCovers(zone, date, profile.weekly[k].interval, x);
      local := profile.weekly[k].interval;
    } else {
      ExceptionOffsets(profile.exceptions, date);
      var locals := ExceptionOn(profile.exceptions, date).value.intervals;
      var k :| 0 <= k < |locals| && LocalCovers(zone, date, locals[k], x);
      local := locals[k];
    }
  }

  /** Some interval of some date overlaps the event exactly when the profile is open at some instant of it. */
  lemma OverlapMeansOpen(zone: Zone, profile: Profile, event: Interval)
    requires Tight(zone) && ProfileOk(profile) && event.start < event.end
    requires ScanOf(zone, profile, event).Some?
    ensures (exists i :: OnSomeDate(zone, profile, i) && Overlaps(i, event)) <==> OpenDuring(zone, profile, event)
  {
    if i :| OnSomeDate(zone, profile, i) && Overlaps(i, event) { OverlapIsOpen(zone, profile, event, i); }
    if date, x :| In(x, event) && IsOpen(zone, profile, date, x) {
      var i := OpenIsOverlap(zone, profile, event, date, x);
    }
  }

  lemma OpenIsOverlap(zone: Zone, profile: Profile, event: Interval, date: int, x: int) returns (i: Interval)
    requires Tight(zone) && ProfileOk(profile) && In(x, event) && IsOpen(zone, profile, date, x)
    requires ScanOf(zone, profile, event).Some?
    ensures OnSomeDate(zone, profile, i) && Overlaps(i, event)
  {
    OpenNearby(zone, profile, event, date, x);
    ScanDefined(zone, profile, FirstDate(zone, event), LastDate(zone, event) + 1, date);
    DatePoints(zone, profile, date, x);
    var xs := HoursOn(zone, profile, date);
    var k :| 0 <= k < |xs| && In(x, xs[k]);
    i := xs[k];
  }

  lemma OverlapIsOpen(zone: Zone, profile: Profile, event: Interval, i: Interval)
    requires event.start < event.end && OnSomeDate(zone, profile, i) && Overlaps(i, event)
    ensures OpenDuring(zone, profile, event)
  {
    var date :| i in HoursOn(zone, profile, date);
    var x := if i.start < event.start then event.start else i.start;
    DatePoints(zone, profile, date, x);
    var xs := HoursOn(zone, profile, date);
    var k :| 0 <= k < |xs| && xs[k] == i;
    assert In(x, xs[k]);
  }

  /** An interval contains a non-empty event exactly if every instant of the event lies in it, and then overlaps it. */
  lemma ContainmentImpliesOverlap(i: Interval, event: Interval)
    requires event.start < event.end
    ensures Meets(ContainedInProfile, i, event) <==> Inside(i, event)
    ensures Inside(i, event) ==> Meets(OverlapsProfile, i, event) && Shares(i, event)
  {
    assert In(event.start, event) && In(event.end - 1, event);
    if i.start < i.end { MeetsInPoints(OverlapsProfile, i, event); }
  }
}
