/** What the evaluator may disclose, when it stops, and what it never touches. */
module EvaluatorProperties {
  import opened Options
  import opened PolicyEvaluator
  import Canon = CanonicalJson
  import Injective = CanonicalInjective

  /* ----- what is copied: one flat condition, whatever the order of the checks ----- */

  predicate Usable(lib: Library, policy: Policy, source: Source, profile: Option<string>, can: Capabilities) {
    var privacy := policy.privacy;
    && policy.sourceCalendar != policy.destinationCalendar
    && can.writable
    && !privacy.copyAttendees && !privacy.copyOrganizer && !lib.blank(privacy.genericSummary)
    && (privacy.copySummary || privacy.copyDescription || privacy.copyLocation || privacy.copyConference ==>
          !Bare(privacy.preset))
    && (can.privateVisibility || privacy.preset == SharedDetails)
    && (privacy.copyConference ==> can.conferenceCopy)
    && (policy.color != None ==> can.color)
    && (source.lifecycle == Confirmed ==> source.timing != None)
    && (policy.hoursMode == AllTimes || (profile != None && policy.hoursProfileRef == profile))
  }

  /** Under these presets a copy shows nothing of the source but its time. */
  predicate Bare(preset: Preset) { preset == BusyOnly || preset == Commitment }

  predicate Within(x: int, start: int, end: int) { start <= x < end }

  /** The event and the horizon share an instant. */
  ghost predicate InHorizon(lib: Library, input: Input, timing: Timing) {
    exists x :: Within(x, lib.bounds(timing).0, lib.bounds(timing).1) && Within(x, input.horizonStart, input.horizonEnd)
  }

  lemma OverlapsIsHorizon(lib: Library, input: Input, timing: Timing)
    ensures Overlaps(lib.bounds(timing), input.horizonStart, input.horizonEnd) <==> InHorizon(lib, input, timing)
  {
    var (start, end) := lib.bounds(timing);
    if Overlaps(lib.bounds(timing), input.horizonStart, input.horizonEnd) {
      var x := if start < input.horizonStart then input.horizonStart else start;
      assert Within(x, start, end) && Within(x, input.horizonStart, input.horizonEnd);
    }
  }

  /** What people write about an event: its summary, its description and the note with their answer. */
  function Writings(source: Source): set<string> {
    (if source.content.summary.Some? then {source.content.summary.value} else {})
    + (if source.content.description.Some? then {source.content.description.value} else {})
    + (if source.relationship.note.Some? then {source.relationship.note.value} else {})
  }

  ghost predicate Marked(lib: Library, input: Input) {
    var marker := input.policy.selection.marker;
    |marker| > 0 && exists text :: text in Writings(input.source) && lib.mentions(marker, text)
  }

  lemma NoSyncIsMarked(lib: Library, input: Input)
    ensures ContainsNoSync(lib, input) <==> Marked(lib, input)
  {
  }

  /** The invitation has not been declined, nor left in a state the policy omits. */
  predicate Attends(r: Relationship, selection: Selection) {
    r.role == Attendee ==>
      && r.response != Declined
      && !(r.response == Tentative && selection.tentative == OmitIt)
      && !(r.response == NeedsAction && selection.unanswered == OmitIt)
  }

  /** What the event's answer says about the time, or else its own availability. */
  predicate ShownBusy(source: Source, selection: Selection) {
    var r := source.relationship;
    || r.role == Organizer
    || (r.role == Attendee && r.response == Accepted)
    || (r.role == Attendee && r.response == Tentative && selection.tentative == AsBusy)
    || (r.role == Attendee && r.response == NeedsAction && selection.unanswered == AsBusy)
    || ((r.role == NoRole || (r.role == Attendee && r.response == NotApplicable)) && source.availability != Some(FreeTime))
  }

  predicate CopiedAsBusy(source: Source, selection: Selection) {
    ShownBusy(source, selection) || selection.freeEvents == ForceBusy
  }

  ghost predicate RightKind(lib: Library, input: Input, busy: bool) {
    var selection := input.policy.selection;
    match input.source.timing
    case None => false
    case Some(timing) =>
      && InHorizon(lib, input, timing)
      && (timing.Timed? ==>
            && selection.timed == IncludeTimed
            && lib.hours(input.policy.hoursMode, timing.start, timing.end, input.hoursProfile).included)
      && (timing.AllDay? ==> selection.allDay == EveryAllDay || (selection.allDay == BusyAllDay && busy))
      && (busy || selection.freeEvents != SkipWhenRedacted || !Bare(input.policy.privacy.preset))
  }

  ghost predicate Wanted(lib: Library, input: Input) {
    var source, selection := input.source, input.policy.selection;
    && source.lifecycle == Confirmed && source.origin == ProviderOriginal
    && source.eventRef !in selection.manualExclusions && !Marked(lib, input)
    && !(selection.skipWhenInvited && source.destinationInvited)
    && Attends(source.relationship, selection)
    && RightKind(lib, input, ShownBusy(source, selection))
  }

  predicate InForce(lib: Library, input: Input) {
    input.policy.state == Active && Usable(lib, input.policy, input.source, input.hoursProfile, input.capabilities)
  }

  lemma ValidExactly(lib: Library, input: Input)
    ensures Validate(lib, input).None? <==>
            Usable(lib, input.policy, input.source, input.hoursProfile, input.capabilities)
  {
  }

  lemma ShowsExactly(input: Input)
    ensures var e, source, selection := EffectiveAvailability(input), input.source, input.policy.selection;
            && (e.Shows? <==> Attends(source.relationship, selection))
            && (e.Shows? ==> (e.availability == Busy <==> ShownBusy(source, selection)))
  {
  }

  lemma KindExactly(lib: Library, input: Input, shows: Effective)
    requires shows.Shows? && input.source.timing.Some?
    ensures var t := CheckTiming(lib, input, shows);
            && !t.Stops?
            && (t.Includes? <==> RightKind(lib, input, shows.availability == Busy))
            && (t.Includes? ==>
                  && t.timing == input.source.timing.value
                  && (t.availability == Busy <==>
                        shows.availability == Busy || input.policy.selection.freeEvents == ForceBusy))
  {
    OverlapsIsHorizon(lib, input, input.source.timing.value);
  }

  lemma DecideExactly(lib: Library, input: Input)
    ensures var t := Decide(lib, input);
            && (t.Stops? <==> !InForce(lib, input))
            && (t.Includes? <==> InForce(lib, input) && Wanted(lib, input))
            && (t.Includes? ==>
                  && input.source.timing == Some(t.timing)
                  && (t.availability == Busy <==> CopiedAsBusy(input.source, input.policy.selection)))
  {
    ValidExactly(lib, input);
    ShowsExactly(input);
    NoSyncIsMarked(lib, input);
    var shows := EffectiveAvailability(input);
    if shows.Shows? && input.source.timing.Some? { KindExactly(lib, input, shows); }
  }

  /** An event is copied, and its copy removed, under exactly these conditions, and the copy says busy
      exactly when the event's answer, its availability or the policy make it so. */
  lemma CopiedExactly(lib: Library, input: Input)
    ensures var r, p := Evaluate(lib, input), input.projection;
            var wanted := InForce(lib, input) && Wanted(lib, input);
            && (r.desired.Some? <==> wanted && (p.ownership == Unowned || p.ownership == Attached))
            && (r.operation == Create <==> r.desired.Some? && (p.ownership == Unowned || p.destinationExists == Some(false)))
            && (r.operation == Delete <==> InForce(lib, input) && !wanted && p.ownership == Attached)
            && (r.desired.Some? ==>
                  && input.source.timing == Some(r.desired.value.timing)
                  && (r.desired.value.opaqueTime <==> CopiedAsBusy(input.source, input.policy.selection)))
  {
    DecideExactly(lib, input);
  }

  /* ----- inputs the evaluator cannot tell apart ----- */

  predicate SameBut(a: Source, b: Source) {
    && a.eventRef == b.eventRef && a.lifecycle == b.lifecycle && a.origin == b.origin && a.timing == b.timing
    && a.recurring == b.recurring && a.availability == b.availability && a.relationship == b.relationship
    && a.destinationInvited == b.destinationInvited
  }

  function WithSource(input: Input, source: Source): Input { input.(source := source) }

  /** The selection rules read the source only up to the fields that may stay private. */
  lemma DecideAlike(lib: Library, a: Input, b: Input)
    requires b == a.(source := b.source, projection := b.projection) && SameBut(a.source, b.source)
    requires ContainsNoSync(lib, a) == ContainsNoSync(lib, b)
    ensures Decide(lib, a) == Decide(lib, b)
  {
    assert Validate(lib, a) == Validate(lib, b);
    assert EffectiveAvailability(a) == EffectiveAvailability(b);
  }

  /** The sources differ at most in what is not copied anyway. */
  ghost predicate Twins(a: Input, b: Input) {
    && b == WithSource(a, b.source) && SameBut(a.source, b.source)
    && (forall timing, availability :: Copy(a, timing, availability) == Copy(b, timing, availability))
  }

  lemma TwinsEvaluateAlike(lib: Library, a: Input, b: Input)
    requires Twins(a, b) && ContainsNoSync(lib, a) == ContainsNoSync(lib, b)
    ensures Evaluate(lib, a) == Evaluate(lib, b)
  {
    DecideAlike(lib, a, b);
    var track := Decide(lib, a);
    if track.Includes? {
      assert Copy(a, track.timing, track.availability) == Copy(b, track.timing, track.availability);
    }
  }

  /* ----- disclosure ----- */

  /** The source without the fields a redacted preset must not show. */
  function Outline(source: Source): Source {
    source.(content := Content(None, None, None, None), attendees := None, organizer := None, attachments := None,
            url := None, metadata := None)
  }

  /** Under a redacted preset two sources that differ only in content, attendees, organizer, attachments,
      URL or metadata, and agree on the no-sync test, are treated alike down to the last field. */
  lemma RedactedDisclosesNothing(lib: Library, input: Input, other: Source)
    requires Redacted(input.policy.privacy.preset)
    requires Outline(input.source) == Outline(other)
    requires ContainsNoSync(lib, input) == ContainsNoSync(lib, WithSource(input, other))
    ensures Evaluate(lib, input) == Evaluate(lib, WithSource(input, other))
  {
    TwinsEvaluateAlike(lib, input, WithSource(input, other));
  }

  /** A new value for one of the fields that a manifest may list as omitted. */
  datatype Change =
    | Attachments(list: Option<seq<string>>)
    | Attendees(list: Option<seq<string>>)
    | Description(text: Option<string>)
    | Summary(text: Option<string>)
    | Location(text: Option<string>)
    | Conference(text: Option<string>)
    | OrganizerName(text: Option<string>)
    | Metadata(text: Option<string>)
    | Url(text: Option<string>)

  function FieldOf(c: Change): SourceField {
    match c
    case Attachments(_) => AttachmentsField
    case Attendees(_) => AttendeesField
    case Description(_) => DescriptionField
    case Summary(_) => SummaryField
    case Location(_) => LocationField
    case Conference(_) => ConferenceField
    case OrganizerName(_) => OrganizerField
    case Metadata(_) => MetadataField
    case Url(_) => UrlField
  }

  function Changed(s: Source, c: Change): Source {
    match c
    case Attachments(x) => s.(attachments := x)
    case Attendees(x) => s.(attendees := x)
    case Description(x) => s.(content := s.content.(description := x))
    case Summary(x) => s.(content := s.content.(summary := x))
    case Location(x) => s.(content := s.content.(location := x))
    case Conference(x) => s.(content := s.content.(conference := x))
    case OrganizerName(x) => s.(organizer := x)
    case Metadata(x) => s.(metadata := x)
    case Url(x) => s.(url := x)
  }

  lemma OmittedIsNotCopied(input: Input, c: Change)
    requires FieldOf(c) !in Disclosed(input.policy.privacy)
    ensures Twins(input, WithSource(input, Changed(input.source, c)))
  {
    var other := WithSource(input, Changed(input.source, c));
    forall timing, availability ensures Copy(input, timing, availability) == Copy(other, timing, availability) {
      SameCopy(input, c, timing, availability);
    }
  }

  lemma SameCopy(input: Input, c: Change, timing: Timing, availability: Availability)
    requires FieldOf(c) !in Disclosed(input.policy.privacy)
    ensures Copy(WithSource(input, Changed(input.source, c)), timing, availability) == Copy(input, timing, availability)
  {
  }

  /** Every manifest omits what its policy does not disclose. */
  lemma ManifestOmits(lib: Library, input: Input)
    ensures var m := Evaluate(lib, input).manifest; m.Some? ==> m.value.omitted == OMITTABLE - Disclosed(input.policy.privacy)
  {
  }

  /** Under every preset, whatever the manifest lists as omitted can change without a trace, as long as
      the no-sync test says the same. */
  lemma OmittedLeavesNoTrace(lib: Library, input: Input, c: Change)
    requires var m := Evaluate(lib, input).manifest; m.Some? && FieldOf(c) in m.value.omitted
    requires ContainsNoSync(lib, input) == ContainsNoSync(lib, WithSource(input, Changed(input.source, c)))
    ensures Evaluate(lib, WithSource(input, Changed(input.source, c))) == Evaluate(lib, input)
  {
    ManifestOmits(lib, input);
    OmittedIsNotCopied(input, c);
    TwinsEvaluateAlike(lib, input, WithSource(input, Changed(input.source, c)));
  }

  /** Up to and including the no-sync test the event would be copied. */
  predicate ReachesNoSync(lib: Library, input: Input) {
    && Validate(lib, input).None? && input.policy.state.Active? && input.source.lifecycle.Confirmed?
    && input.source.origin.ProviderOriginal? && input.source.eventRef !in input.policy.selection.manualExclusions
  }

  /** Agreement on the no-sync test is needed: an event that passes it and one that does not are told apart. */
  lemma MarkerIsVisible(lib: Library, input: Input, other: Source)
    requires Outline(input.source) == Outline(other) && ReachesNoSync(lib, input)
    requires !input.projection.ownership.Ambiguous?
    requires ContainsNoSync(lib, input) != ContainsNoSync(lib, WithSource(input, other))
    ensures Evaluate(lib, input) != Evaluate(lib, WithSource(input, other))
  {
    if ContainsNoSync(lib, input) {
      MarkedAndUnmarked(lib, input, WithSource(input, other));
    } else {
      assert ReachesNoSync(lib, WithSource(input, other));
      MarkedAndUnmarked(lib, WithSource(input, other), input);
    }
  }

  lemma MarkedAndUnmarked(lib: Library, marked: Input, plain: Input)
    requires ReachesNoSync(lib, marked) && ReachesNoSync(lib, plain) && plain.projection == marked.projection
    requires ContainsNoSync(lib, marked) && !ContainsNoSync(lib, plain)
    requires !plain.projection.ownership.Ambiguous?
    ensures Evaluate(lib, marked) != Evaluate(lib, plain)
  {
    assert Decide(lib, marked) == Excludes(NoSync, false);
    var track := Decide(lib, plain);
    if track.Excludes? {
      UnmarkedIsNotNoSync(lib, plain);
      FirstReasonStays(NoSync, DeletePolicyExclusion);
      FirstReasonStays(NoSync, DetachedNoAction);
      FirstReasonStays(track.code, DeletePolicyExclusion);
      FirstReasonStays(track.code, DeleteSourceRemoved);
      FirstReasonStays(track.code, DetachedNoAction);
    }
  }

  lemma UnmarkedIsNotNoSync(lib: Library, plain: Input)
    requires ReachesNoSync(lib, plain) && !ContainsNoSync(lib, plain)
    ensures var track := Decide(lib, plain); track.Excludes? ==> track.code != NoSync
  {
  }

  /* ----- one step is enough ----- */

  function Gone(): Projection { Projection(Unowned, None, None, None, None, None) }

  /** The projection once the operation has been carried out. */
  function Applied(p: Projection, r: Result): Projection {
    match r.operation
    case Delete => Gone()
    case NoOperation => p
    case _ =>
      if r.desired.None? then p
      else
        var d := r.desired.value;
        Projection(Attached, Some(d.provenance.projectionRef), Some(d.provenance.generation), Some(true),
                   r.fingerprint, Some(d))
  }

  lemma DecideIgnoresProjection(lib: Library, input: Input, p: Projection)
    ensures Decide(lib, input.(projection := p)) == Decide(lib, input)
  {
    DecideAlike(lib, input, input.(projection := p));
  }

  /** Applying what was asked for and evaluating again asks for nothing more: the same copy stays
      desired, or the same exclusion stands. */
  lemma OneStepSuffices(lib: Library, input: Input)
    ensures var r := Evaluate(lib, input);
            var again := Evaluate(lib, input.(projection := Applied(input.projection, r)));
            Settled(r, again)
  {
    var r := Evaluate(lib, input);
    DecideIgnoresProjection(lib, input, Applied(input.projection, r));
    match Decide(lib, input)
    case Stops(_, _) =>
    case Excludes(code, removed) => ExclusionSettles(input, code, removed);
    case Includes(timing, availability, reasons, warnings) =>
      InclusionSettles(lib, input, timing, availability, reasons, warnings);
  }

  ghost predicate Settled(r: Result, again: Result) {
    && again.operation == NoOperation
    && again.desired == r.desired && again.fingerprint == r.fingerprint && again.manifest == r.manifest
    && again.verdict == r.verdict
    && (r.operation.Delete? ==> r.reasons != [] && again.primary == r.reasons[0])
  }

  lemma ExclusionSettles(input: Input, code: Reason, removed: bool)
    ensures var r := Exclude(input, code, removed);
            Settled(r, Exclude(input.(projection := Applied(input.projection, r)), code, removed))
  {
    FirstReasonStays(code, if removed then DeleteSourceRemoved else DeletePolicyExclusion);
  }

  lemma InclusionSettles(lib: Library, input: Input, timing: Timing, availability: Availability,
                         reasons: seq<Reason>, warnings: seq<Reason>)
    ensures var r := Include(lib, input, timing, availability, reasons, warnings);
            Settled(r, Include(lib, input.(projection := Applied(input.projection, r)), timing, availability, reasons, warnings))
  {
    var r := Include(lib, input, timing, availability, reasons, warnings);
    var next := input.(projection := Applied(input.projection, r));
    if r.operation.Create? || r.operation.Update? {
      assert Copy(next, timing, availability) == Copy(input, timing, availability);
      assert Plan(lib, next.projection, r.desired.value) == (NoOperation, NoChange);
    }
  }

  lemma FirstReasonStays(code: Reason, effect: Reason)
    ensures Unique([code, effect]) != [] && Unique([code, effect])[0] == code
  {
    assert [code, effect][..1] == [code] && [code][..0] == [];
    assert Unique([code]) == [code];
  }

  /** Nothing is written for detached or ambiguous copies, inactive policies or invalid inputs. */
  lemma BlockedNeverWrites(lib: Library, input: Input)
    requires input.projection.ownership.Detached? || input.projection.ownership.Ambiguous?
          || !input.policy.state.Active? || Validate(lib, input).Some?
    ensures Evaluate(lib, input).operation == NoOperation
  {
  }

  /** A managed copy is never copied: seen as a source it can at most lose a copy of its own. */
  lemma ManagedNeverCopied(lib: Library, input: Input)
    requires input.source.origin.PlanipusManaged?
    ensures Evaluate(lib, input).operation in {NoOperation, Delete} && Evaluate(lib, input).desired.None?
  {
  }

  /* ----- drift ----- */

  lemma OperationIsPlanned(lib: Library, input: Input)
    requires Evaluate(lib, input).desired.Some?
    ensures var r := Evaluate(lib, input); (r.operation, r.primary) == Plan(lib, input.projection, r.desired.value)
  {
  }

  /** An attached copy that exists is restored for drift exactly when it differs from the desired one
      beyond member order and Unicode normal form. */
  lemma DriftExactly(lib: Library, input: Input)
    requires Canon.TotalOrder(lib.rules.leq)
    requires input.projection.ownership.Attached? && input.projection.destinationExists != Some(false)
    requires input.projection.observed.Some? && Evaluate(lib, input).desired.Some?
    requires Canon.Accepted(lib.rules, lib.json(input.projection.observed.value))
    requires Canon.Accepted(lib.rules, lib.json(Evaluate(lib, input).desired.value))
    ensures var r := Evaluate(lib, input);
            (r.operation == Update && r.primary == RestoreDestinationDrift) <==>
            !Canon.Same(lib.rules.nfc, lib.json(input.projection.observed.value), lib.json(r.desired.value))
  {
    var r := Evaluate(lib, input);
    OperationIsPlanned(lib, input);
    Injective.TextDecides(lib.rules, lib.json(input.projection.observed.value), lib.json(r.desired.value));
  }
}
