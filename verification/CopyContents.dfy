/** What a copy shows, field by field, and what the manifest and the reasons say about it. */
module CopyContents {
  import opened Options
  import opened PolicyEvaluator
  import opened EvaluatorProperties
  import Canon = CanonicalJson

  /** A desired copy comes from the transform, with its manifest. */
  lemma ComesFrom(lib: Library, input: Input)
    requires Evaluate(lib, input).desired.Some?
    ensures var r, t := Evaluate(lib, input), Decide(lib, input);
            && t.Includes? && (input.projection.ownership.Unowned? || input.projection.ownership.Attached?)
            && r == Include(lib, input, t.timing, t.availability, t.reasons, t.warnings)
            && r.desired == Some(Copy(input, t.timing, t.availability))
            && r.manifest == Some(ManifestOf(input, r.desired.value))
  {
  }

  /* ----- the copy ----- */

  /** The source's own field, if the policy copies it, and nothing otherwise. */
  predicate OwnOrAbsent(shown: Option<string>, disclosed: bool, own: Option<string>) {
    if disclosed then shown == own else shown == None
  }

  predicate Or<T(==)>(shown: T, given: Option<T>, otherwise: T) {
    match given
    case Some(x) => shown == x
    case None => shown == otherwise
  }

  /** A copy is private unless details are shared, it shows of the source what the manifest lists as disclosed and a
      generic summary otherwise, and it carries the policy's colour and the projection's provenance. */
  lemma CopyShowsExactly(lib: Library, input: Input)
    requires Evaluate(lib, input).desired.Some?
    ensures var r := Evaluate(lib, input);
            var d, content, p := r.desired.value, input.source.content, input.projection;
            && r.manifest.Some?
            && (!d.privateCopy <==> input.policy.privacy.preset == SharedDetails)
            && (if SummaryField in r.manifest.value.disclosed then Or(d.summary, content.summary, "")
                else d.summary == input.policy.privacy.genericSummary)
            && OwnOrAbsent(d.description, DescriptionField in r.manifest.value.disclosed, content.description)
            && OwnOrAbsent(d.location, LocationField in r.manifest.value.disclosed, content.location)
            && OwnOrAbsent(d.conference, ConferenceField in r.manifest.value.disclosed, content.conference)
            && d.color == input.policy.color
            && d.provenance.policyRef == input.policy.policyRef
            && Or(d.provenance.projectionRef, p.projectionRef, input.candidateRef)
            && Or(d.provenance.generation, p.generation, 1)
  {
    ComesFrom(lib, input);
    var t := Decide(lib, input);
    TransformShows(input, t.timing, t.availability);
  }

  lemma TransformShows(input: Input, timing: Timing, availability: Availability)
    ensures var d, disclosed, content := Copy(input, timing, availability), Disclosed(input.policy.privacy), input.source.content;
            && (!d.privateCopy <==> input.policy.privacy.preset == SharedDetails)
            && (if SummaryField in disclosed then Or(d.summary, content.summary, "")
                else d.summary == input.policy.privacy.genericSummary)
            && OwnOrAbsent(d.description, DescriptionField in disclosed, content.description)
            && OwnOrAbsent(d.location, LocationField in disclosed, content.location)
            && OwnOrAbsent(d.conference, ConferenceField in disclosed, content.conference)
  {
  }

  /* ----- the manifest ----- */

  /** What the rules look at in every event. */
  predicate AlwaysRead(f: SourceField) {
    f.AvailabilityField? || f.DescriptionField? || f.SummaryField? || f.InvitedField? || f.OriginField?
    || f.RelationshipField? || f.TimingField?
  }

  /** The copy has the member. */
  predicate Belongs(d: DesiredCopy, f: CopyField) {
    match f
    case CopyDescription => d.description != None
    case CopyLocation => d.location != None
    case CopyConference => d.conference != None
    case CopyColor => d.color != None
    case _ => true
  }

  /** The manifest discloses beside the timing exactly what the policy says, which is nothing under a redacted preset;
      it omits everything else it could list; it reads what it discloses and what every decision needs; and it
      writes the optional members that the copy has. */
  lemma ManifestExactly(lib: Library, input: Input)
    requires Evaluate(lib, input).desired.Some?
    ensures var r, privacy := Evaluate(lib, input), input.policy.privacy;
            && r.manifest.Some? && r.manifest.value.preset == privacy.preset
            && var m, d := r.manifest.value, r.desired.value;
            && (SummaryField in m.disclosed <==> privacy.copySummary)
            && (DescriptionField in m.disclosed <==> privacy.copyDescription)
            && (LocationField in m.disclosed <==> privacy.copyLocation)
            && (ConferenceField in m.disclosed <==> privacy.copyConference)
            && {TimingField} <= m.disclosed <= {TimingField, SummaryField, DescriptionField, LocationField, ConferenceField}
            && (privacy.preset == BusyOnly || privacy.preset == Commitment ==> m.disclosed == {TimingField})
            && (forall f :: f in m.omitted <==> f in OMITTABLE && f !in m.disclosed)
            && (forall f :: f in m.read <==>
                  AlwaysRead(f) || (f == RecurrenceField && input.source.recurring) || f in m.disclosed)
            && (forall f :: f in m.written <==> Belongs(d, f))
  {
    DecideExactly(lib, input);
    ComesFrom(lib, input);
    var r, privacy := Evaluate(lib, input), input.policy.privacy;
    assert Usable(lib, input.policy, input.source, input.hoursProfile, input.capabilities);
    DisclosedExactly(privacy);
    OmittedExactly(input, r.desired.value);
    forall f { ReadExactly(input, f); }
    forall f { WrittenExactly(input, r.desired.value, f); }
  }

  lemma DisclosedExactly(privacy: Privacy)
    requires Redacted(privacy.preset) ==>
               !privacy.copySummary && !privacy.copyDescription && !privacy.copyLocation && !privacy.copyConference
    ensures var disclosed := Disclosed(privacy);
            && (SummaryField in disclosed <==> privacy.copySummary)
            && (DescriptionField in disclosed <==> privacy.copyDescription)
            && (LocationField in disclosed <==> privacy.copyLocation)
            && (ConferenceField in disclosed <==> privacy.copyConference)
            && {TimingField} <= disclosed <= {TimingField, SummaryField, DescriptionField, LocationField, ConferenceField}
            && (privacy.preset == BusyOnly || privacy.preset == Commitment ==> disclosed == {TimingField})
  {
  }

  lemma OmittedExactly(input: Input, d: DesiredCopy)
    ensures var m := ManifestOf(input, d);
            && m.disclosed == Disclosed(input.policy.privacy)
            && (forall f :: f in m.omitted <==> f in OMITTABLE && f !in m.disclosed)
  {
  }

  lemma ReadExactly(input: Input, f: SourceField)
    ensures f in FieldsRead(input) <==>
            AlwaysRead(f) || (f == RecurrenceField && input.source.recurring) || f in Disclosed(input.policy.privacy)
  {
  }

  lemma WrittenExactly(input: Input, d: DesiredCopy, f: CopyField)
    ensures f in ManifestOf(input, d).written <==> Belongs(d, f)
  {
  }

  /* ----- the operation ----- */

  /** What is asked for and why: a missing copy is created, one that differs is restored, one whose recorded
      fingerprint is another is updated, and otherwise nothing is done. */
  lemma OperationExactly(lib: Library, input: Input)
    requires Evaluate(lib, input).desired.Some?
    ensures var r, p := Evaluate(lib, input), input.projection;
            var missing := p.ownership == Unowned || p.destinationExists == Some(false);
            var differs := exists o :: p.observed == Some(o) && CanonicalText(lib, o) != CanonicalText(lib, r.desired.value);
            var outdated := exists f :: p.fingerprint == Some(f) && Some(f) != r.fingerprint;
            && r.fingerprint == Some("sha256:" + lib.sha(Canon.Text(lib.rules, lib.json(r.desired.value))))
            && (r.operation == Create <==> missing)
            && (r.operation == Update <==> !missing && (differs || outdated))
            && (r.operation == NoOperation <==> !missing && !differs && !outdated)
            && (r.primary == CreateMissingCopy <==> p.ownership == Unowned)
            && (r.primary == RestoreDestinationMissing <==> missing && p.ownership != Unowned)
            && (r.primary == RestoreDestinationDrift <==> !missing && differs)
            && (r.primary == UpdateSourceChange <==> !missing && !differs && outdated)
            && (r.primary == NoChange <==> r.operation == NoOperation)
  {
    ComesFrom(lib, input);
  }

  /* ----- the verdict ----- */

  /** Which verdict an event gets. */
  lemma VerdictExactly(lib: Library, input: Input)
    ensures var r, p, state := Evaluate(lib, input), input.projection, input.policy.state;
            var usable := Usable(lib, input.policy, input.source, input.hoursProfile, input.capabilities);
            var judged := usable && state == Active && p.ownership != Ambiguous;
            && (r.verdict == Invalid <==> !usable)
            && (r.verdict == Included <==> judged && Wanted(lib, input))
            && (r.verdict == Excluded <==> (judged && !Wanted(lib, input)) || (usable && state == Disabled))
            && (r.verdict == HeldBack <==>
                  usable && (state == Paused || state == ReviewRequired || (state == Active && p.ownership == Ambiguous)))
  {
    DecideExactly(lib, input);
    ValidExactly(lib, input);
    StopsExactly(lib, input);
    VerdictIs(lib, input);
  }

  lemma VerdictIs(lib: Library, input: Input)
    ensures var r, p := Evaluate(lib, input), input.projection;
            r.verdict ==
            match Decide(lib, input)
            case Stops(verdict, _) => verdict
            case Excludes(_, _) => if p.ownership == Ambiguous then HeldBack else Excluded
            case Includes(_, _, _, _) => if p.ownership == Ambiguous then HeldBack else Included
  {
  }

  /** A detached or unclear copy is left alone, and the result says so, in every case that gets so far. */
  lemma LeftAloneExactly(lib: Library, input: Input)
    ensures var r, p := Evaluate(lib, input), input.projection;
            && (r.primary == DetachedNoAction <==> InForce(lib, input) && p.ownership == Detached)
            && (r.primary == AmbiguousOwnership <==> InForce(lib, input) && p.ownership == Ambiguous)
  {
    DecideExactly(lib, input);
    ReasonHolds(lib, input);
    PrimaryIs(lib, input);
  }

  lemma PrimaryIs(lib: Library, input: Input)
    ensures var r, t, p := Evaluate(lib, input), Decide(lib, input), input.projection;
            && (t.Stops? ==> r.primary == t.reason)
            && (!t.Stops? && p.ownership == Detached ==> r.primary == DetachedNoAction)
            && (!t.Stops? && p.ownership == Ambiguous ==> r.primary == AmbiguousOwnership)
            && (t.Excludes? && p.ownership == Unowned ==> r.primary == t.code)
            && (!t.Stops? && p.ownership == Attached ==> r.primary != DetachedNoAction && r.primary != AmbiguousOwnership)
            && (t.Includes? && p.ownership == Unowned ==> r.primary == CreateMissingCopy)
  {
    match Decide(lib, input)
    case Stops(_, _) =>
    case Excludes(code, sourceRemoved) => ExcludedPrimary(input, code, sourceRemoved);
    case Includes(timing, availability, reasons, warnings) =>
      IncludedPrimary(lib, input, timing, availability, reasons, warnings);
  }

  lemma ExcludedPrimary(input: Input, code: Reason, sourceRemoved: bool)
    ensures Exclude(input, code, sourceRemoved).primary ==
            match input.projection.ownership
            case Detached => DetachedNoAction
            case Ambiguous => AmbiguousOwnership
            case Attached => if sourceRemoved then DeleteSourceRemoved else DeletePolicyExclusion
            case Unowned => code
  {
  }

  lemma IncludedPrimary(lib: Library, input: Input, timing: Timing, availability: Availability,
                        reasons: seq<Reason>, warnings: seq<Reason>)
    ensures var primary, p := Include(lib, input, timing, availability, reasons, warnings).primary, input.projection;
            && (p.ownership == Detached ==> primary == DetachedNoAction)
            && (p.ownership == Ambiguous ==> primary == AmbiguousOwnership)
            && (p.ownership == Unowned ==> primary == CreateMissingCopy)
            && (p.ownership == Attached ==> primary != DetachedNoAction && primary != AmbiguousOwnership)
  {
    PlannedReason(lib, input.projection, Copy(input, timing, availability));
  }

  lemma PlannedReason(lib: Library, p: Projection, d: DesiredCopy)
    ensures var reason := Plan(lib, p, d).1;
            && reason != DetachedNoAction && reason != AmbiguousOwnership
            && (p.ownership == Unowned ==> reason == CreateMissingCopy)
  {
  }

  lemma StopsExactly(lib: Library, input: Input)
    ensures var t, invalid, state := Decide(lib, input), Validate(lib, input), input.policy.state;
            t.Stops? ==>
              t.verdict == if invalid.Some? then Invalid else if state == Disabled then Excluded else HeldBack
  {
    DecideExactly(lib, input);
    ValidExactly(lib, input);
  }

  /* ----- the reasons ----- */

  /** The condition that a reason for leaving an event out names. */
  ghost predicate Holds(lib: Library, input: Input, code: Reason) {
    var policy, source := input.policy, input.source;
    match code
    case InvalidSameCalendar => policy.sourceCalendar == policy.destinationCalendar
    case InvalidUnwritableDestination => !input.capabilities.writable
    case InvalidHoursProfile =>
      policy.hoursMode != AllTimes && (input.hoursProfile == None || policy.hoursProfileRef != input.hoursProfile)
    case InvalidSourceEvent => source.lifecycle == Confirmed && source.timing == None
    case InvalidPrivacyTransform =>
      var privacy := policy.privacy;
      || privacy.copyAttendees || privacy.copyOrganizer || lib.blank(privacy.genericSummary)
      || (Bare(privacy.preset)
          && (privacy.copySummary || privacy.copyDescription || privacy.copyLocation || privacy.copyConference))
    case UnsupportedDestinationCapability =>
      var can := input.capabilities;
      || (policy.privacy.preset != SharedDetails && !can.privateVisibility)
      || (policy.privacy.copyConference && !can.conferenceCopy)
      || (policy.color != None && !can.color)
    case PolicyPaused => policy.state == Paused
    case PolicyDisabled => policy.state == Disabled
    case PolicyReviewRequired => policy.state == ReviewRequired
    case SourceDeleted => source.lifecycle == DeletedEvent
    case SourceCancelled => source.lifecycle == Cancelled
    case ManagedCopy => source.origin == PlanipusManaged
    case ManualExclusion => source.eventRef in policy.selection.manualExclusions
    case NoSync => Marked(lib, input)
    case AlreadyInvited => policy.selection.skipWhenInvited && source.destinationInvited
    case RsvpDeclined => source.relationship.role == Attendee && source.relationship.response == Declined
    case RsvpTentativeOmitted => source.relationship.response == Tentative && policy.selection.tentative == OmitIt
    case RsvpUnansweredOmitted => source.relationship.response == NeedsAction && policy.selection.unanswered == OmitIt
    case OutsideHorizon =>
      source.timing.Some? && !InHorizon(lib, input, source.timing.value)
    case TimedEventDisabled => source.timing.Some? && source.timing.value.Timed? && policy.selection.timed == SkipTimed
    case AllDaySkipped => source.timing.Some? && source.timing.value.AllDay? && policy.selection.allDay == SkipAllDay
    case AllDayFree =>
      && source.timing.Some? && source.timing.value.AllDay? && policy.selection.allDay == BusyAllDay
      && !ShownBusy(source, policy.selection)
    case FreeSkipped =>
      && !ShownBusy(source, policy.selection) && policy.selection.freeEvents == SkipWhenRedacted
      && Bare(policy.privacy.preset)
    case HoursSaid(said) =>
      && source.timing.Some? && source.timing.value.Timed?
      && var hours := lib.hours(policy.hoursMode, source.timing.value.start, source.timing.value.end, input.hoursProfile);
         !hours.included && hours.code == said
    case _ => false
  }

  /** The reason for stopping or leaving an event out holds, and it blames the source exactly for being deleted or
      cancelled. */
  lemma ReasonHolds(lib: Library, input: Input)
    ensures var t := Decide(lib, input);
            && (t.Stops? ==> Holds(lib, input, t.reason))
            && (t.Excludes? ==> Holds(lib, input, t.code) && (t.sourceRemoved <==> input.source.lifecycle != Confirmed))
  {
    ShowsExactly(input);
    NoSyncIsMarked(lib, input);
    if Validate(lib, input).Some? {
      InvalidHolds(lib, input);
    } else {
      var shows := EffectiveAvailability(input);
      if shows.Shows? && input.source.lifecycle == Confirmed { TimingReasonHolds(lib, input, shows); }
    }
  }

  lemma InvalidHolds(lib: Library, input: Input)
    requires Validate(lib, input).Some?
    ensures Holds(lib, input, Validate(lib, input).value)
  {
  }

  lemma TimingReasonHolds(lib: Library, input: Input, shows: Effective)
    requires shows.Shows? && (shows.availability == Busy <==> ShownBusy(input.source, input.policy.selection))
    requires input.source.timing.Some?
    ensures var t := CheckTiming(lib, input, shows);
            && !t.Stops? && (t.Excludes? ==> Holds(lib, input, t.code) && !t.sourceRemoved)
  {
    OverlapsIsHorizon(lib, input, input.source.timing.value);
  }

  /** Whatever leads to the result, its first reason is the one for the exclusion, its copy is deleted for the
      source's sake exactly if the source is gone, and no reason is listed twice. */
  lemma ExclusionExactly(lib: Library, input: Input)
    requires Decide(lib, input).Excludes?
    ensures var r, code := Evaluate(lib, input), Decide(lib, input).code;
            && r.reasons != [] && r.reasons[0] == code && r.primary in r.reasons
            && (input.projection.ownership == Unowned ==> r.primary == code)
            && (input.projection.ownership == Detached ==> r.primary == DetachedNoAction)
            && (input.projection.ownership == Ambiguous ==> r.primary == AmbiguousOwnership && r.verdict == HeldBack)
            && (input.projection.ownership != Ambiguous ==> r.verdict == Excluded)
            && (input.projection.ownership == Attached ==>
                  r.primary == if input.source.lifecycle == Confirmed then DeletePolicyExclusion else DeleteSourceRemoved)
  {
    ReasonHolds(lib, input);
    var code := Decide(lib, input).code;
    assert Unique([code])[0] == code by { assert [code][..0] == []; }
    Pair(code, DetachedNoAction);
    Pair(code, AmbiguousOwnership);
    Pair(code, DeletePolicyExclusion);
    Pair(code, DeleteSourceRemoved);
  }

  lemma Pair(a: Reason, b: Reason)
    ensures var u := Unique([a, b]); u != [] && u[0] == a && b in u
  {
    FirstReasonStays(a, b);
    UniqueExactly([a, b]);
  }

  lemma {:induction false} UniqueExactly(rs: seq<Reason>)
    ensures var u := Unique(rs);
            && (forall r :: r in u <==> r in rs)
            && (forall i, j :: 0 <= i < j < |u| ==> u[i] != u[j])
    decreases |rs|
  {
    if rs != [] {
      var n := |rs| - 1;
      UniqueExactly(rs[..n]);
      assert rs == rs[..n] + [rs[n]];
    }
  }

  /** A copied event comes with the reason for its privacy and for its operation, and with a warning exactly if it was
      free and is shown as busy. */
  lemma InclusionExactly(lib: Library, input: Input)
    requires Evaluate(lib, input).desired.Some?
    ensures var r := Evaluate(lib, input);
            && r.verdict == Included && PrivacyReason(input.policy.privacy.preset) in r.reasons && r.primary in r.reasons
            && (FreeForcedBusy in r.warnings <==> r.desired.value.opaqueTime && !ShownBusy(input.source, input.policy.selection))
            && (forall w :: w in r.warnings ==> w == FreeForcedBusy)
  {
    ComesFrom(lib, input);
    var t := Decide(lib, input);
    TrackWarns(lib, input);
    IncludeTells(lib, input, t.timing, t.availability, t.reasons, t.warnings);
  }

  lemma TrackWarns(lib: Library, input: Input)
    requires Decide(lib, input).Includes?
    ensures var t := Decide(lib, input);
            t.warnings == if t.availability == Busy && !ShownBusy(input.source, input.policy.selection) then [FreeForcedBusy] else []
  {
    DecideExactly(lib, input);
    ShowsExactly(input);
    WarningsExactly(lib, input, EffectiveAvailability(input));
  }

  lemma IncludeTells(lib: Library, input: Input, timing: Timing, availability: Availability,
                     reasons: seq<Reason>, warnings: seq<Reason>)
    requires input.projection.ownership.Unowned? || input.projection.ownership.Attached?
    ensures var r := Include(lib, input, timing, availability, reasons, warnings);
            && r.verdict == Included && PrivacyReason(input.policy.privacy.preset) in r.reasons && r.primary in r.reasons
            && (forall w :: w in r.warnings <==> w in warnings)
  {
    var tail := [PrivacyReason(input.policy.privacy.preset), Plan(lib, input.projection, Copy(input, timing, availability)).1];
    UniqueExactly(reasons + tail);
    UniqueExactly(warnings);
    assert tail[0] in reasons + tail && tail[1] in reasons + tail;
  }

  lemma WarningsExactly(lib: Library, input: Input, shows: Effective)
    requires shows.Shows? && input.source.timing.Some?
    ensures var t := CheckTiming(lib, input, shows);
            t.Includes? ==>
              t.warnings == if shows.availability == FreeTime && t.availability == Busy then [FreeForcedBusy] else []
  {
  }

  /** The condition that a reason given for a copied event names. */
  ghost predicate Explains(lib: Library, input: Input, r: Result, reason: Reason) {
    var policy, source := input.policy, input.source;
    var timed := source.timing.Some? && source.timing.value.Timed?;
    var shown := ShownBusy(source, policy.selection);
    match reason
    case OrganizerAssumedAccepted => source.relationship.role == Organizer
    case RsvpAccepted => source.relationship.role == Attendee && source.relationship.response == Accepted
    case RsvpTentativeBusy => source.relationship.role == Attendee && source.relationship.response == Tentative && shown
    case RsvpTentativeFree => source.relationship.role == Attendee && source.relationship.response == Tentative && !shown
    case RsvpUnansweredBusy => source.relationship.role == Attendee && source.relationship.response == NeedsAction && shown
    case RsvpUnansweredFree => source.relationship.role == Attendee && source.relationship.response == NeedsAction && !shown
    case TimedEventIncluded => timed
    case AllDayBusyIncluded => !timed && policy.selection.allDay == BusyAllDay
    case AllDayIncluded => !timed && policy.selection.allDay != BusyAllDay
    case FreePreserved => !shown && policy.selection.freeEvents != ForceBusy
    case FreeForcedBusy => !shown && policy.selection.freeEvents == ForceBusy
    case HoursSaid(said) =>
      && timed
      && var hours := lib.hours(policy.hoursMode, source.timing.value.start, source.timing.value.end, input.hoursProfile);
         said == hours.code || said in hours.diagnostics
    case PrivacyReason(preset) => preset == policy.privacy.preset
    case _ => reason == r.primary
  }

  /** A copied event comes with exactly the reasons that hold. */
  lemma ReasonsExactly(lib: Library, input: Input, reason: Reason)
    requires Evaluate(lib, input).desired.Some?
    ensures var r := Evaluate(lib, input); reason in r.reasons <==> Explains(lib, input, r, reason)
  {
    var r, shows := Evaluate(lib, input), EffectiveAvailability(input);
    ReasonsCollected(lib, input, reason);
    PrimaryIsApart(lib, input);
    if LeadReason(reason) {
      LeadExplains(lib, input, r, reason);
    } else {
      OnlyLeads(input);
      CollectedExplains(lib, input, r, shows, reason);
    }
  }

  lemma ReasonsCollected(lib: Library, input: Input, reason: Reason)
    requires Evaluate(lib, input).desired.Some?
    ensures var r, shows := Evaluate(lib, input), EffectiveAvailability(input);
            && shows.Shows? && input.source.timing.Some?
            && (shows.availability == Busy <==> ShownBusy(input.source, input.policy.selection))
            && (reason in r.reasons <==>
                  Collected(lib, input, shows, reason) || reason == PrivacyReason(input.policy.privacy.preset) || reason == r.primary)
  {
    ComesFrom(lib, input);
    IncludedShows(lib, input);
    ShowsExactly(input);
    ReasonsAre(lib, input, Decide(lib, input), reason);
    TrackReasons(lib, input, EffectiveAvailability(input), reason);
  }

  lemma IncludedShows(lib: Library, input: Input)
    requires Decide(lib, input).Includes?
    ensures EffectiveAvailability(input).Shows? && input.source.timing.Some?
    ensures Decide(lib, input) == CheckTiming(lib, input, EffectiveAvailability(input))
  {
  }

  lemma ReasonsAre(lib: Library, input: Input, t: Track, reason: Reason)
    requires t.Includes? && (input.projection.ownership.Unowned? || input.projection.ownership.Attached?)
    ensures var r := Include(lib, input, t.timing, t.availability, t.reasons, t.warnings);
            reason in r.reasons <==> reason in t.reasons || reason == PrivacyReason(input.policy.privacy.preset) || reason == r.primary
  {
    var tail := [PrivacyReason(input.policy.privacy.preset), Plan(lib, input.projection, Copy(input, t.timing, t.availability)).1];
    UniqueExactly(t.reasons + tail);
    assert reason in tail <==> reason == tail[0] || reason == tail[1];
    var r := Include(lib, input, t.timing, t.availability, t.reasons, t.warnings);
    assert r.reasons == Unique(t.reasons + tail) && r.primary == tail[1];
    assert reason in t.reasons + tail <==> reason in t.reasons || reason in tail;
  }

  lemma PrimaryIsApart(lib: Library, input: Input)
    requires Evaluate(lib, input).desired.Some?
    ensures var p := Evaluate(lib, input).primary;
            p.CreateMissingCopy? || p.RestoreDestinationMissing? || p.RestoreDestinationDrift? || p.UpdateSourceChange? || p.NoChange?
  {
    ComesFrom(lib, input);
  }

  /* ----- the reasons collected on the way ----- */

  predicate LeadReason(reason: Reason) {
    reason.OrganizerAssumedAccepted? || reason.RsvpAccepted? || reason.RsvpTentativeBusy? || reason.RsvpTentativeFree?
    || reason.RsvpUnansweredBusy? || reason.RsvpUnansweredFree?
  }

  function Lead(shows: Effective): seq<Reason>
    requires shows.Shows?
  {
    if shows.reason.Some? then [shows.reason.value] else []
  }

  function KindReason(timing: Timing, selection: Selection): Reason {
    if timing.Timed? then TimedEventIncluded
    else if selection.allDay == BusyAllDay then AllDayBusyIncluded else AllDayIncluded
  }

  function FreeTail(shown: Availability, selection: Selection): seq<Reason> {
    if shown == Busy then [] else [if selection.freeEvents == ForceBusy then FreeForcedBusy else FreePreserved]
  }

  function HoursTail(lib: Library, input: Input, timing: Timing): seq<Reason> {
    if timing.AllDay? then []
    else
      var hours := lib.hours(input.policy.hoursMode, timing.start, timing.end, input.hoursProfile);
      Codes(hours.diagnostics) + [HoursSaid(hours.code)]
  }

  lemma HoursAdds(lib: Library, input: Input, timing: Timing, availability: Availability, reasons: seq<Reason>, warnings: seq<Reason>)
    ensures var t := CheckHours(lib, input, timing, availability, reasons, warnings);
            t.Includes? ==> t.reasons == reasons + HoursTail(lib, input, timing)
  {
    if timing.AllDay? {
      assert reasons + [] == reasons;
    } else {
      var hours := lib.hours(input.policy.hoursMode, timing.start, timing.end, input.hoursProfile);
      assert reasons + Codes(hours.diagnostics) + [HoursSaid(hours.code)] == reasons + (Codes(hours.diagnostics) + [HoursSaid(hours.code)]);
    }
  }

  lemma FreeAdds(lib: Library, input: Input, timing: Timing, shown: Availability, reasons: seq<Reason>)
    ensures var t := CheckFree(lib, input, timing, shown, reasons);
            t.Includes? ==> t.reasons == reasons + FreeTail(shown, input.policy.selection) + HoursTail(lib, input, timing)
  {
    var more := reasons + FreeTail(shown, input.policy.selection);
    assert shown == Busy ==> more == reasons;
    HoursAdds(lib, input, timing, shown, more, []);
    HoursAdds(lib, input, timing, Busy, more, [FreeForcedBusy]);
  }

  lemma TimingAdds(lib: Library, input: Input, shows: Effective)
    requires shows.Shows? && input.source.timing.Some?
    ensures var t, timing, selection := CheckTiming(lib, input, shows), input.source.timing.value, input.policy.selection;
            t.Includes? ==>
              t.reasons == Lead(shows) + [KindReason(timing, selection)] + FreeTail(shows.availability, selection)
                           + HoursTail(lib, input, timing)
  {
    var timing, selection := input.source.timing.value, input.policy.selection;
    FreeAdds(lib, input, timing, shows.availability, Lead(shows) + [KindReason(timing, selection)]);
  }

  /** The parts the reasons come from. */
  ghost predicate Collected(lib: Library, input: Input, shows: Effective, reason: Reason)
    requires shows.Shows? && input.source.timing.Some?
  {
    var timing, selection := input.source.timing.value, input.policy.selection;
    || shows.reason == Some(reason)
    || reason == KindReason(timing, selection)
    || reason in FreeTail(shows.availability, selection)
    || reason in HoursTail(lib, input, timing)
  }

  lemma TrackReasons(lib: Library, input: Input, shows: Effective, reason: Reason)
    requires shows.Shows? && input.source.timing.Some?
    ensures var t := CheckTiming(lib, input, shows); t.Includes? ==> (reason in t.reasons <==> Collected(lib, input, shows, reason))
  {
    TimingAdds(lib, input, shows);
  }

  lemma {:induction false} CodesExactly(diagnostics: seq<string>, reason: Reason)
    ensures reason in Codes(diagnostics) <==> reason.HoursSaid? && reason.code in diagnostics
  {
    if diagnostics != [] { CodesExactly(diagnostics[1..], reason); }
  }

  lemma HoursTailExactly(lib: Library, input: Input, timing: Timing, reason: Reason)
    ensures reason in HoursTail(lib, input, timing) <==>
            && timing.Timed? && reason.HoursSaid?
            && var hours := lib.hours(input.policy.hoursMode, timing.start, timing.end, input.hoursProfile);
               reason.code == hours.code || reason.code in hours.diagnostics
  {
    if timing.Timed? {
      CodesExactly(lib.hours(input.policy.hoursMode, timing.start, timing.end, input.hoursProfile).diagnostics, reason);
    }
  }

  /** What the event's answer gives as the first reason. */
  lemma LeadExplains(lib: Library, input: Input, r: Result, reason: Reason)
    requires LeadReason(reason) && EffectiveAvailability(input).Shows? && input.source.timing.Some?
    requires EffectiveAvailability(input).availability == Busy <==> ShownBusy(input.source, input.policy.selection)
    ensures Collected(lib, input, EffectiveAvailability(input), reason) <==> Explains(lib, input, r, reason)
  {
    HoursTailExactly(lib, input, input.source.timing.value, reason);
  }

  lemma HoursExplain(lib: Library, input: Input, r: Result, shows: Effective, reason: Reason)
    requires shows.Shows? && input.source.timing.Some? && reason.HoursSaid?
    requires shows.reason.Some? ==> LeadReason(shows.reason.value)
    ensures Collected(lib, input, shows, reason) <==> Explains(lib, input, r, reason)
  {
    HoursTailExactly(lib, input, input.source.timing.value, reason);
  }

  lemma RestExplains(lib: Library, input: Input, r: Result, shows: Effective, reason: Reason)
    requires shows.Shows? && input.source.timing.Some? && !reason.HoursSaid? && !LeadReason(reason)
    requires shows.reason.Some? ==> LeadReason(shows.reason.value)
    requires shows.availability == Busy <==> ShownBusy(input.source, input.policy.selection)
    ensures reason == KindReason(input.source.timing.value, input.policy.selection)
            || reason in FreeTail(shows.availability, input.policy.selection)
            || reason == PrivacyReason(input.policy.privacy.preset) || reason == r.primary
            <==> Explains(lib, input, r, reason) || reason == r.primary
  {
  }

  lemma CollectedExplains(lib: Library, input: Input, r: Result, shows: Effective, reason: Reason)
    requires shows.Shows? && input.source.timing.Some? && !LeadReason(reason)
    requires shows.reason.Some? ==> LeadReason(shows.reason.value)
    requires shows.availability == Busy <==> ShownBusy(input.source, input.policy.selection)
    requires var p := r.primary;
             p.CreateMissingCopy? || p.RestoreDestinationMissing? || p.RestoreDestinationDrift? || p.UpdateSourceChange? || p.NoChange?
    ensures Collected(lib, input, shows, reason) || reason == PrivacyReason(input.policy.privacy.preset) || reason == r.primary
            <==> Explains(lib, input, r, reason)
  {
    if reason.HoursSaid? {
      HoursExplain(lib, input, r, shows, reason);
    } else {
      HoursTailExactly(lib, input, input.source.timing.value, reason);
      RestExplains(lib, input, r, shows, reason);
    }
  }

  lemma OnlyLeads(input: Input)
    ensures var shows := EffectiveAvailability(input); shows.Shows? && shows.reason.Some? ==> LeadReason(shows.reason.value)
  {
  }
}
