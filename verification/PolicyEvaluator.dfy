/**
 The policy evaluator: may this source event be copied under this policy, what would the copy show,
 and what has to be done to the destination. Text search, time-zone arithmetic, hours and hashing
 enter through `Library`.
 */
module PolicyEvaluator {
  import opened Options
  import Canon = CanonicalJson

  /* ----- inputs ----- */

  datatype Availability = Busy | FreeTime

  datatype Timing =
    | Timed(start: int, end: int, startZone: string, endZone: string)
    | AllDay(startDate: string, endDate: string, zone: string)

  datatype Content = Content(
    summary: Option<string>, description: Option<string>, location: Option<string>, conference: Option<string>)

  datatype Role = Organizer | Attendee | NoRole

  datatype Response = Accepted | Tentative | Declined | NeedsAction | NotApplicable

  datatype Relationship = Relationship(role: Role, response: Response, note: Option<string>)

  datatype Lifecycle = Confirmed | Cancelled | DeletedEvent

  datatype Origin = ProviderOriginal | PlanipusManaged

  datatype Source = Source(
    eventRef: string, lifecycle: Lifecycle, origin: Origin, timing: Option<Timing>, recurring: bool,
    availability: Option<Availability>, relationship: Relationship, destinationInvited: bool, content: Content,
    attendees: Option<seq<string>>, organizer: Option<string>, attachments: Option<seq<string>>,
    url: Option<string>, metadata: Option<string>)

  datatype Preset = BusyOnly | Commitment | PrivateDetails | SharedDetails

  datatype Privacy = Privacy(
    preset: Preset, genericSummary: string, copySummary: bool, copyDescription: bool, copyLocation: bool,
    copyConference: bool, copyAttendees: bool, copyOrganizer: bool)

  datatype TimedChoice = IncludeTimed | SkipTimed

  datatype AllDayChoice = SkipAllDay | BusyAllDay | EveryAllDay

  datatype FreeChoice = SkipWhenRedacted | PreserveFree | ForceBusy

  datatype RsvpChoice = AsBusy | AsFree | OmitIt

  datatype Selection = Selection(
    timed: TimedChoice, allDay: AllDayChoice, freeEvents: FreeChoice, tentative: RsvpChoice, unanswered: RsvpChoice,
    skipWhenInvited: bool, marker: string, manualExclusions: set<string>)

  datatype PolicyState = Active | Paused | Disabled | ReviewRequired

  datatype HoursMode = AllTimes | OverlapsProfile | ContainedInProfile

  datatype Policy = Policy(
    policyRef: string, state: PolicyState, sourceCalendar: string, destinationCalendar: string,
    hoursMode: HoursMode, hoursProfileRef: Option<string>, privacy: Privacy, selection: Selection, color: Option<string>)

  datatype Capabilities = Capabilities(writable: bool, privateVisibility: bool, conferenceCopy: bool, color: bool)

  datatype Ownership = Unowned | Attached | Detached | Ambiguous

  datatype Projection = Projection(
    ownership: Ownership, projectionRef: Option<string>, generation: Option<int>, destinationExists: Option<bool>,
    fingerprint: Option<string>, observed: Option<DesiredCopy>)

  datatype Input = Input(
    horizonStart: int, horizonEnd: int, candidateRef: string, policy: Policy, hoursProfile: Option<string>,
    source: Source, projection: Projection, capabilities: Capabilities)

  /* ----- outputs ----- */

  datatype Provenance = Provenance(policyRef: string, projectionRef: string, generation: int)

  datatype DesiredCopy = DesiredCopy(
    timing: Timing, summary: string, description: Option<string>, location: Option<string>, conference: Option<string>,
    opaqueTime: bool, privateCopy: bool, color: Option<string>, provenance: Provenance)

  /** The source paths a manifest speaks of. */
  datatype SourceField =
    | AvailabilityField | DescriptionField | SummaryField | LocationField | ConferenceField | InvitedField
    | OriginField | RecurrenceField | RelationshipField | TimingField | AttachmentsField | AttendeesField
    | OrganizerField | MetadataField | UrlField

  /** The members of a copy. */
  datatype CopyField =
    | CopyTiming | CopySummary | CopyTransparency | CopyVisibility | CopyReminders | CopyWriteControls
    | CopyProvenance | CopyDescription | CopyLocation | CopyConference | CopyColor

  datatype Manifest = Manifest(
    preset: Preset, read: set<SourceField>, disclosed: set<SourceField>, written: set<CopyField>,
    omitted: set<SourceField>)

  datatype Reason =
    | PolicyDisabled | PolicyPaused | PolicyReviewRequired
    | InvalidSameCalendar | InvalidUnwritableDestination | InvalidHoursProfile | InvalidSourceEvent
    | InvalidPrivacyTransform | UnsupportedDestinationCapability
    | OutsideHorizon | SourceDeleted | SourceCancelled | ManagedCopy | ManualExclusion | NoSync | AlreadyInvited
    | TimedEventDisabled | TimedEventIncluded | AllDaySkipped | AllDayFree | AllDayBusyIncluded | AllDayIncluded
    | FreeSkipped | FreePreserved | FreeForcedBusy
    | RsvpDeclined | RsvpAccepted | RsvpTentativeBusy | RsvpTentativeFree | RsvpUnansweredBusy | RsvpUnansweredFree
    | OrganizerAssumedAccepted | RsvpUnansweredOmitted | RsvpTentativeOmitted
    | HoursSaid(code: string)
    | PrivacyReason(preset: Preset)
    | CreateMissingCopy | UpdateSourceChange | RestoreDestinationMissing | RestoreDestinationDrift
    | DeleteSourceRemoved | DeletePolicyExclusion | NoChange | DetachedNoAction | AmbiguousOwnership

  datatype Verdict = Included | Excluded | HeldBack | Invalid

  datatype Operation = Create | Update | Delete | NoOperation

  datatype Result = Result(
    verdict: Verdict, operation: Operation, primary: Reason, reasons: seq<Reason>, warnings: seq<Reason>,
    desired: Option<DesiredCopy>, fingerprint: Option<string>, manifest: Option<Manifest>)

  /* ----- what the evaluator is given ----- */

  datatype HoursAnswer = HoursAnswer(included: bool, code: string, diagnostics: seq<string>)

  /** `mentions(marker, text)` is the whole-word search after normalisation; `blank` trims; `bounds`
      gives the instants of an event; `hours` evaluates the hours profile; `json` lays a copy out as a
      JSON value, and `rules` and `sha` make canonical texts and fingerprints of it. */
  datatype Library = Library(
    mentions: (string, string) -> bool, blank: string -> bool, bounds: Timing -> (int, int),
    hours: (HoursMode, int, int, Option<string>) -> HoursAnswer, json: DesiredCopy -> Canon.Json,
    rules: Canon.Rules, sha: string -> string)

  /* ----- canonical texts of copies ----- */

  function CanonicalText(lib: Library, d: DesiredCopy): string { Canon.Text(lib.rules, lib.json(d)) }

  function Fingerprint(lib: Library, d: DesiredCopy): string { "sha256:" + lib.sha(CanonicalText(lib, d)) }

  /* ----- evaluation ----- */

  function Unique(rs: seq<Reason>): seq<Reason> {
    if rs == [] then []
    else
      var n := |rs| - 1;
      if rs[n] in rs[..n] then Unique(rs[..n]) else Unique(rs[..n]) + [rs[n]]
  }

  function Outcome(verdict: Verdict, operation: Operation, primary: Reason, reasons: seq<Reason>, warnings: seq<Reason>): Result {
    Result(verdict, operation, primary, Unique(reasons), Unique(warnings), None, None, None)
  }

  function Exclude(input: Input, code: Reason, sourceRemoved: bool): Result {
    match input.projection.ownership
    case Detached => Outcome(Excluded, NoOperation, DetachedNoAction, [code, DetachedNoAction], [])
    case Ambiguous => Outcome(HeldBack, NoOperation, AmbiguousOwnership, [code, AmbiguousOwnership], [])
    case Attached =>
      var effect := if sourceRemoved then DeleteSourceRemoved else DeletePolicyExclusion;
      Outcome(Excluded, Delete, effect, [code, effect], [])
    case Unowned => Outcome(Excluded, NoOperation, code, [code], [])
  }

  predicate FieldMentions(lib: Library, marker: string, field: Option<string>) {
    field.Some? && lib.mentions(marker, field.value)
  }

  predicate ContainsNoSync(lib: Library, input: Input) {
    var marker := input.policy.selection.marker;
    && marker != ""
    && (|| FieldMentions(lib, marker, input.source.content.summary)
        || FieldMentions(lib, marker, input.source.content.description)
        || FieldMentions(lib, marker, input.source.relationship.note))
  }

  predicate Redacted(preset: Preset) { preset.BusyOnly? || preset.Commitment? }

  function Validate(lib: Library, input: Input): Option<Reason> {
    var privacy := input.policy.privacy;
    if input.policy.sourceCalendar == input.policy.destinationCalendar then Some(InvalidSameCalendar)
    else if !input.capabilities.writable then Some(InvalidUnwritableDestination)
    else if privacy.copyAttendees || privacy.copyOrganizer then Some(InvalidPrivacyTransform)
    else if Redacted(privacy.preset)
         && (privacy.copySummary || privacy.copyDescription || privacy.copyLocation || privacy.copyConference)
      then Some(InvalidPrivacyTransform)
    else if lib.blank(privacy.genericSummary) then Some(InvalidPrivacyTransform)
    else if !privacy.preset.SharedDetails? && !input.capabilities.privateVisibility
      then Some(UnsupportedDestinationCapability)
    else if privacy.copyConference && !input.capabilities.conferenceCopy then Some(UnsupportedDestinationCapability)
    else if input.policy.color.Some? && !input.capabilities.color then Some(UnsupportedDestinationCapability)
    else if input.source.lifecycle.Confirmed? && input.source.timing.None? then Some(InvalidSourceEvent)
    else if !input.policy.hoursMode.AllTimes?
         && (input.hoursProfile.None? || input.policy.hoursProfileRef != input.hoursProfile)
      then Some(InvalidHoursProfile)
    else None
  }

  datatype Effective = Shows(availability: Availability, reason: Option<Reason>) | Omits(omitted: Reason)

  function EffectiveAvailability(input: Input): Effective {
    var r := input.source.relationship;
    var plain := Shows(if input.source.availability.Some? then input.source.availability.value else Busy, None);
    match r.role
    case Organizer => Shows(Busy, Some(OrganizerAssumedAccepted))
    case NoRole => plain
    case Attendee =>
      match r.response {
        case Declined => Omits(RsvpDeclined)
        case Accepted => Shows(Busy, Some(RsvpAccepted))
        case Tentative =>
          if input.policy.selection.tentative.OmitIt? then Omits(RsvpTentativeOmitted)
          else if input.policy.selection.tentative.AsBusy? then Shows(Busy, Some(RsvpTentativeBusy))
          else Shows(FreeTime, Some(RsvpTentativeFree))
        case NeedsAction =>
          if input.policy.selection.unanswered.OmitIt? then Omits(RsvpUnansweredOmitted)
          else if input.policy.selection.unanswered.AsBusy? then Shows(Busy, Some(RsvpUnansweredBusy))
          else Shows(FreeTime, Some(RsvpUnansweredFree))
        case NotApplicable => plain
      }
  }

  predicate Overlaps(a: (int, int), start: int, end: int) { a.0 < a.1 && start < end && a.0 < end && start < a.1 }

  predicate Details(preset: Preset) { preset.PrivateDetails? || preset.SharedDetails? }

  function Shared(allowed: bool, field: Option<string>): Option<string> { if allowed then field else None }

  function Copy(input: Input, timing: Timing, availability: Availability): DesiredCopy {
    var privacy := input.policy.privacy;
    var content := input.source.content;
    var details := Details(privacy.preset);
    DesiredCopy(
      timing,
      if details && privacy.copySummary then (if content.summary.Some? then content.summary.value else "")
      else privacy.genericSummary,
      Shared(details && privacy.copyDescription, content.description),
      Shared(details && privacy.copyLocation, content.location),
      Shared(details && privacy.copyConference, content.conference),
      availability.Busy?,
      !privacy.preset.SharedDetails?,
      input.policy.color,
      Provenance(
        input.policy.policyRef,
        if input.projection.projectionRef.Some? then input.projection.projectionRef.value else input.candidateRef,
        if input.projection.generation.Some? then input.projection.generation.value else 1))
  }

  function If<T>(condition: bool, field: T): set<T> { if condition then {field} else {} }

  function Disclosed(privacy: Privacy): set<SourceField> {
    var details := Details(privacy.preset);
    {TimingField}
    + If(details && privacy.copySummary, SummaryField)
    + If(details && privacy.copyDescription, DescriptionField)
    + If(details && privacy.copyLocation, LocationField)
    + If(details && privacy.copyConference, ConferenceField)
  }

  const OMITTABLE: set<SourceField> := {
    AttachmentsField, AttendeesField, DescriptionField, SummaryField, LocationField, ConferenceField,
    OrganizerField, MetadataField, UrlField}

  function FieldsRead(input: Input): set<SourceField> {
    var privacy := input.policy.privacy;
    var details := Details(privacy.preset);
    {AvailabilityField, DescriptionField, SummaryField, InvitedField, OriginField, RelationshipField, TimingField}
    + If(input.source.recurring, RecurrenceField)
    + If(details && privacy.copyLocation, LocationField)
    + If(details && privacy.copyConference, ConferenceField)
  }

  function ManifestOf(input: Input, d: DesiredCopy): Manifest {
    var privacy := input.policy.privacy;
    Manifest(
      privacy.preset,
      FieldsRead(input),
      Disclosed(privacy),
      {CopyTiming, CopySummary, CopyTransparency, CopyVisibility, CopyReminders, CopyWriteControls, CopyProvenance}
      + If(d.description.Some?, CopyDescription) + If(d.location.Some?, CopyLocation)
      + If(d.conference.Some?, CopyConference) + If(d.color.Some?, CopyColor),
      OMITTABLE - Disclosed(privacy))
  }

  /** What has to be done to bring the destination to the desired copy. */
  function Plan(lib: Library, p: Projection, d: DesiredCopy): (Operation, Reason) {
    if p.ownership.Unowned? then (Create, CreateMissingCopy)
    else if p.destinationExists == Some(false) then (Create, RestoreDestinationMissing)
    else if p.observed.Some? && CanonicalText(lib, p.observed.value) != CanonicalText(lib, d)
      then (Update, RestoreDestinationDrift)
    else if p.fingerprint.Some? && p.fingerprint.value != Fingerprint(lib, d) then (Update, UpdateSourceChange)
    else (NoOperation, NoChange)
  }

  function Include(lib: Library, input: Input, timing: Timing, availability: Availability,
                   reasons: seq<Reason>, warnings: seq<Reason>): Result
  {
    match input.projection.ownership
    case Detached => Outcome(Included, NoOperation, DetachedNoAction, reasons + [DetachedNoAction], warnings)
    case Ambiguous => Outcome(HeldBack, NoOperation, AmbiguousOwnership, reasons + [AmbiguousOwnership], warnings)
    case _ =>
      var d := Copy(input, timing, availability);
      var (operation, reason) := Plan(lib, input.projection, d);
      Result(Included, operation, reason,
             Unique(reasons + [PrivacyReason(input.policy.privacy.preset), reason]), Unique(warnings),
             Some(d), Some(Fingerprint(lib, d)), Some(ManifestOf(input, d)))
  }

  function Codes(diagnostics: seq<string>): seq<Reason> {
    if diagnostics == [] then [] else [HoursSaid(diagnostics[0])] + Codes(diagnostics[1..])
  }

  /** Where the selection rules lead, before the state of the projection is looked at. */
  datatype Track =
    | Stops(verdict: Verdict, reason: Reason)
    | Excludes(code: Reason, sourceRemoved: bool)
    | Includes(timing: Timing, availability: Availability, reasons: seq<Reason>, warnings: seq<Reason>)

  function CheckHours(lib: Library, input: Input, timing: Timing, availability: Availability,
                      reasons: seq<Reason>, warnings: seq<Reason>): Track
  {
    if timing.AllDay? then Includes(timing, availability, reasons, warnings)
    else
      var hours := lib.hours(input.policy.hoursMode, timing.start, timing.end, input.hoursProfile);
      if !hours.included then Excludes(HoursSaid(hours.code), false)
      else Includes(timing, availability, reasons + Codes(hours.diagnostics) + [HoursSaid(hours.code)], warnings)
  }

  function CheckFree(lib: Library, input: Input, timing: Timing, availability: Availability, reasons: seq<Reason>): Track {
    if availability.Busy? then CheckHours(lib, input, timing, availability, reasons, [])
    else
      match input.policy.selection.freeEvents
      case SkipWhenRedacted =>
        if Redacted(input.policy.privacy.preset) then Excludes(FreeSkipped, false)
        else CheckHours(lib, input, timing, availability, reasons + [FreePreserved], [])
      case PreserveFree => CheckHours(lib, input, timing, availability, reasons + [FreePreserved], [])
      case ForceBusy => CheckHours(lib, input, timing, Busy, reasons + [FreeForcedBusy], [FreeForcedBusy])
  }

  function CheckTiming(lib: Library, input: Input, shows: Effective): Track
    requires shows.Shows?
  {
    if input.source.timing.None? then Stops(Invalid, InvalidSourceEvent)
    else
      var timing := input.source.timing.value;
      var reasons := if shows.reason.Some? then [shows.reason.value] else [];
      var selection := input.policy.selection;
      if !Overlaps(lib.bounds(timing), input.horizonStart, input.horizonEnd) then Excludes(OutsideHorizon, false)
      else if timing.Timed? then
        if selection.timed.SkipTimed? then Excludes(TimedEventDisabled, false)
        else CheckFree(lib, input, timing, shows.availability, reasons + [TimedEventIncluded])
      else if selection.allDay.SkipAllDay? then Excludes(AllDaySkipped, false)
      else if selection.allDay.BusyAllDay? && shows.availability.FreeTime? then Excludes(AllDayFree, false)
      else CheckFree(lib, input, timing, shows.availability,
                     reasons + [if selection.allDay.BusyAllDay? then AllDayBusyIncluded else AllDayIncluded])
  }

  function Decide(lib: Library, input: Input): Track {
    var invalid := Validate(lib, input);
    if invalid.Some? then Stops(Invalid, invalid.value)
    else if input.policy.state.Paused? then Stops(HeldBack, PolicyPaused)
    else if input.policy.state.Disabled? then Stops(Excluded, PolicyDisabled)
    else if input.policy.state.ReviewRequired? then Stops(HeldBack, PolicyReviewRequired)
    else if input.source.lifecycle.DeletedEvent? then Excludes(SourceDeleted, true)
    else if input.source.lifecycle.Cancelled? then Excludes(SourceCancelled, true)
    else if input.source.origin.PlanipusManaged? then Excludes(ManagedCopy, false)
    else if input.source.eventRef in input.policy.selection.manualExclusions then Excludes(ManualExclusion, false)
    else if ContainsNoSync(lib, input) then Excludes(NoSync, false)
    else if input.policy.selection.skipWhenInvited && input.source.destinationInvited then Excludes(AlreadyInvited, false)
    else
      var shows := EffectiveAvailability(input);
      if shows.Omits? then Excludes(shows.omitted, false) else CheckTiming(lib, input, shows)
  }

  function Evaluate(lib: Library, input: Input): Result {
    match Decide(lib, input)
    case Stops(verdict, reason) => Outcome(verdict, NoOperation, reason, [reason], [])
    case Excludes(code, sourceRemoved) => Exclude(input, code, sourceRemoved)
    case Includes(timing, availability, reasons, warnings) => Include(lib, input, timing, availability, reasons, warnings)
  }
}
