/**
 Many policies over many calendars, in any graph, cycles included. People write, edit and erase events
 but leave the markers of managed copies intact; the system observes, possibly long before it acts.
 */
module NoCopyOfCopy {
  import opened Options
  import opened PolicyEvaluator
  import EvaluatorProperties
  import FiniteSets

  /** Where an event is: the occurrence is absent for a single event. */
  datatype Place = Place(calendar: string, event: string, occurrence: Option<string>)

  datatype Event =
    | Original(text: string)
    | Managed(policy: string, source: Place, text: string)

  datatype World = World(policies: map<string, Policy>, calendars: map<Place, Event>, seen: map<Place, Event>)

  datatype Step =
    | Author(place: Place, text: string)
    | Edit(place: Place, text: string)
    | Erase(place: Place)
    | Observe(place: Place)
    | Configure(id: string, policy: Policy)
    | Sync(id: string, source: Place, input: Input, target: Place)

  /** The deterministic id of a policy's copy of a source occurrence. */
  type Naming = (string, Place) -> string

  function Home(naming: Naming, id: string, source: Place, calendar: string): Place {
    Place(calendar, naming(id, source), None)
  }

  predicate IsCopy(calendars: map<Place, Event>, place: Place, id: string, source: Place) {
    place in calendars && calendars[place].Managed? && calendars[place].policy == id && calendars[place].source == source
  }

  /** The evaluator's source event is what was last observed; what is not observed counts as deleted. */
  predicate Reflects(seen: map<Place, Event>, place: Place, source: Source) {
    if place in seen then source.origin.PlanipusManaged? <==> seen[place].Managed?
    else source.lifecycle.DeletedEvent?
  }

  predicate MaySync(w: World, id: string, source: Place, input: Input) {
    && id in w.policies && input.policy == w.policies[id] && source.calendar == input.policy.sourceCalendar
    && Reflects(w.seen, source, input.source)
  }

  /** Create fills a free place only; update and delete reach only this policy's copy of this source. */
  function CarryOut(naming: Naming, calendars: map<Place, Event>, id: string, source: Place, input: Input, r: Result,
                    target: Place): map<Place, Event>
  {
    match r.operation
    case Create =>
      var place := Home(naming, id, source, input.policy.destinationCalendar);
      if place in calendars || r.desired.None? then calendars
      else calendars[place := Managed(id, source, r.desired.value.summary)]
    case Update =>
      if !IsCopy(calendars, target, id, source) || r.desired.None? then calendars
      else calendars[target := Managed(id, source, r.desired.value.summary)]
    case Delete => if IsCopy(calendars, target, id, source) then calendars - {target} else calendars
    case NoOperation => calendars
  }

  function Next(lib: Library, naming: Naming, w: World, step: Step): World {
    match step
    case Author(place, text) =>
      if place in w.calendars then w else w.(calendars := w.calendars[place := Original(text)])
    case Edit(place, text) =>
      if place !in w.calendars then w
      else w.(calendars := w.calendars[place := w.calendars[place].(text := text)])
    case Erase(place) => w.(calendars := w.calendars - {place})
    case Observe(place) =>
      w.(seen := if place in w.calendars then w.seen[place := w.calendars[place]] else w.seen - {place})
    case Configure(id, policy) => w.(policies := w.policies[id := policy])
    case Sync(id, source, input, target) =>
      if !MaySync(w, id, source, input) then w
      else w.(calendars := CarryOut(naming, w.calendars, id, source, input, Evaluate(lib, input), target))
  }

  function Run(lib: Library, naming: Naming, w: World, steps: seq<Step>): World {
    if steps == [] then w
    else Next(lib, naming, Run(lib, naming, w, steps[..|steps| - 1]), steps[|steps| - 1])
  }

  function OriginalsIn(calendars: map<Place, Event>): set<Place> {
    set place | place in calendars && calendars[place].Original?
  }

  /** Every place that held an original at some moment of the run. */
  function EverOriginal(lib: Library, naming: Naming, w: World, steps: seq<Step>): set<Place> {
    OriginalsIn(Run(lib, naming, w, steps).calendars)
    + if steps == [] then {} else EverOriginal(lib, naming, w, steps[..|steps| - 1])
  }

  /** Before the first pass nothing has been copied or observed. */
  predicate Fresh(w: World) {
    w.seen == map[] && forall place :: place in w.calendars ==> w.calendars[place].Original?
  }

  /* ----- the invariant ----- */

  ghost predicate Traced(naming: Naming, events: map<Place, Event>, originals: set<Place>) {
    forall place :: place in events ==>
      match events[place]
      case Original(_) => place in originals
      case Managed(id, source, _) => source in originals && place == Home(naming, id, source, place.calendar)
  }

  ghost predicate Inv(naming: Naming, w: World, originals: set<Place>) {
    Traced(naming, w.calendars, originals) && Traced(naming, w.seen, originals)
  }

  /** A create is asked for only on behalf of an observed original. */
  lemma CreateNeedsOriginal(lib: Library, seen: map<Place, Event>, source: Place, input: Input)
    requires Reflects(seen, source, input.source) && Evaluate(lib, input).operation.Create?
    ensures source in seen && seen[source].Original?
  {
    if source in seen && seen[source].Managed? { EvaluatorProperties.ManagedNeverCopied(lib, input); }
    if input.source.lifecycle.DeletedEvent? { GoneNeverCopied(lib, input); }
  }

  lemma GoneNeverCopied(lib: Library, input: Input)
    requires input.source.lifecycle.DeletedEvent?
    ensures !Evaluate(lib, input).operation.Create?
  {
    assert Decide(lib, input).Stops? || Decide(lib, input) == Excludes(SourceDeleted, true);
  }

  lemma StepKeepsInv(lib: Library, naming: Naming, w: World, step: Step, originals: set<Place>)
    requires Inv(naming, w, originals)
    ensures var next := Next(lib, naming, w, step); Inv(naming, next, originals + OriginalsIn(next.calendars))
  {
    if step.Sync? && MaySync(w, step.id, step.source, step.input) && Evaluate(lib, step.input).operation.Create? {
      CreateNeedsOriginal(lib, w.seen, step.source, step.input);
    }
  }

  lemma {:induction false} RunKeepsInv(lib: Library, naming: Naming, w: World, steps: seq<Step>)
    requires Fresh(w)
    ensures Inv(naming, Run(lib, naming, w, steps), EverOriginal(lib, naming, w, steps))
  {
    if steps != [] {
      var earlier := steps[..|steps| - 1];
      RunKeepsInv(lib, naming, w, earlier);
      StepKeepsInv(lib, naming, Run(lib, naming, w, earlier), steps[|steps| - 1], EverOriginal(lib, naming, w, earlier));
    }
  }

  /** A pass that may run does what the evaluator asks for and nothing else: it creates the copy at its home if that
      place is free, rewrites or takes away the copy it was pointed at, and touches no other place. */
  lemma SyncDoes(lib: Library, naming: Naming, w: World, id: string, source: Place, input: Input, target: Place)
    requires MaySync(w, id, source, input)
    ensures var r, next := Evaluate(lib, input), Next(lib, naming, w, Sync(id, source, input, target));
            var home := Home(naming, id, source, input.policy.destinationCalendar);
            && next.policies == w.policies && next.seen == w.seen
            && (r.operation == Create && home !in w.calendars ==>
                  && IsCopy(next.calendars, home, id, source)
                  && next.calendars == w.calendars[home := next.calendars[home]]
                  && next.calendars[home].text == r.desired.value.summary)
            && (r.operation == Create && home in w.calendars ==> next == w)
            && (r.operation != Create && r.operation != NoOperation && !IsCopy(w.calendars, target, id, source) ==> next == w)
            && (r.operation == Update && IsCopy(w.calendars, target, id, source) ==>
                  && IsCopy(next.calendars, target, id, source)
                  && next.calendars == w.calendars[target := next.calendars[target]]
                  && next.calendars[target].text == r.desired.value.summary)
            && (r.operation == Delete && IsCopy(w.calendars, target, id, source) ==> next.calendars == w.calendars - {target})
            && (r.operation == NoOperation ==> next == w)
  {
    WritesHaveCopy(lib, input);
  }

  lemma WritesHaveCopy(lib: Library, input: Input)
    ensures Evaluate(lib, input).operation in {Create, Update} ==> Evaluate(lib, input).desired.Some?
  {
  }

  /* ----- main results ----- */

  /** Some moment of the run shows an original at `place`. */
  ghost predicate OnceOriginal(lib: Library, naming: Naming, w: World, steps: seq<Step>, place: Place) {
    exists k :: 0 <= k <= |steps| && place in OriginalsIn(Run(lib, naming, w, steps[..k]).calendars)
  }

  lemma {:induction false} EverMeansOnce(lib: Library, naming: Naming, w: World, steps: seq<Step>, place: Place)
    requires place in EverOriginal(lib, naming, w, steps)
    ensures OnceOriginal(lib, naming, w, steps, place)
  {
    assert steps[..|steps|] == steps;
    if place !in OriginalsIn(Run(lib, naming, w, steps).calendars) {
      var earlier := steps[..|steps| - 1];
      EverMeansOnce(lib, naming, w, earlier, place);
      var k :| 0 <= k <= |earlier| && place in OriginalsIn(Run(lib, naming, w, earlier[..k]).calendars);
      assert steps[..k] == earlier[..k];
    }
  }

  /** In every run every managed event stems from an original that stood at its source. */
  lemma StemsFromOriginal(lib: Library, naming: Naming, w: World, steps: seq<Step>, place: Place)
    requires Fresh(w)
    requires place in Run(lib, naming, w, steps).calendars && Run(lib, naming, w, steps).calendars[place].Managed?
    ensures OnceOriginal(lib, naming, w, steps, Run(lib, naming, w, steps).calendars[place].source)
  {
    RunKeepsInv(lib, naming, w, steps);
    EverMeansOnce(lib, naming, w, steps, Run(lib, naming, w, steps).calendars[place].source);
  }

  /** In every run a policy has at most one copy of a source occurrence in any one calendar. */
  lemma OneCopyPerCalendar(lib: Library, naming: Naming, w: World, steps: seq<Step>, id: string, source: Place,
                           a: Place, b: Place)
    requires Fresh(w) && a.calendar == b.calendar
    requires IsCopy(Run(lib, naming, w, steps).calendars, a, id, source)
    requires IsCopy(Run(lib, naming, w, steps).calendars, b, id, source)
    ensures a == b
  {
    RunKeepsInv(lib, naming, w, steps);
  }

  /* ----- no feedback ----- */

  /** A policy and the calendar it writes to. */
  datatype Target = Target(id: string, calendar: string)

  function TargetsIn(policies: map<string, Policy>): set<Target> {
    set id | id in policies :: Target(id, policies[id].destinationCalendar)
  }

  /** Every policy with every destination it had at some moment of the run. */
  function EverTargets(lib: Library, naming: Naming, w: World, steps: seq<Step>): set<Target> {
    TargetsIn(Run(lib, naming, w, steps).policies)
    + if steps == [] then {} else EverTargets(lib, naming, w, steps[..|steps| - 1])
  }

  /** Every copy stands where its policy wrote at some moment. */
  ghost predicate Aimed(calendars: map<Place, Event>, targets: set<Target>) {
    forall place :: place in calendars && calendars[place].Managed? ==>
      Target(calendars[place].policy, place.calendar) in targets
  }

  lemma WriteStaysAimed(naming: Naming, calendars: map<Place, Event>, id: string, source: Place, input: Input, r: Result,
                        target: Place, targets: set<Target>)
    requires Aimed(calendars, targets) && Target(id, input.policy.destinationCalendar) in targets
    ensures Aimed(CarryOut(naming, calendars, id, source, input, r, target), targets)
  {
  }

  lemma StepStaysAimed(lib: Library, naming: Naming, w: World, step: Step, targets: set<Target>)
    requires Aimed(w.calendars, targets) && TargetsIn(w.policies) <= targets
    ensures Aimed(Next(lib, naming, w, step).calendars, targets)
  {
    if step.Sync? && MaySync(w, step.id, step.source, step.input) {
      assert Target(step.id, w.policies[step.id].destinationCalendar) in TargetsIn(w.policies);
      WriteStaysAimed(naming, w.calendars, step.id, step.source, step.input, Evaluate(lib, step.input), step.target, targets);
    }
  }

  lemma {:induction false} RunStaysAimed(lib: Library, naming: Naming, w: World, steps: seq<Step>)
    requires Fresh(w)
    ensures Aimed(Run(lib, naming, w, steps).calendars, EverTargets(lib, naming, w, steps))
  {
    if steps != [] {
      var earlier := steps[..|steps| - 1];
      RunStaysAimed(lib, naming, w, earlier);
      StepStaysAimed(lib, naming, Run(lib, naming, w, earlier), steps[|steps| - 1], EverTargets(lib, naming, w, earlier));
      TargetsGrow(lib, naming, w, steps);
    }
  }

  lemma TargetsGrow(lib: Library, naming: Naming, w: World, steps: seq<Step>)
    requires steps != []
    ensures EverTargets(lib, naming, w, steps[..|steps| - 1]) <= EverTargets(lib, naming, w, steps)
  {
  }

  function ManagedIn(calendars: map<Place, Event>): set<Place> {
    set place | place in calendars && calendars[place].Managed?
  }

  /** No feedback in any policy graph, cycles included: there are never more copies than policies, each counted
      with every destination it ever had, times places that ever held an original. */
  lemma NoFeedback(lib: Library, naming: Naming, w: World, steps: seq<Step>)
    requires Fresh(w)
    ensures |ManagedIn(Run(lib, naming, w, steps).calendars)|
         <= |EverTargets(lib, naming, w, steps)| * |EverOriginal(lib, naming, w, steps)|
  {
    RunKeepsInv(lib, naming, w, steps);
    RunStaysAimed(lib, naming, w, steps);
    var now := Run(lib, naming, w, steps).calendars;
    var targets, originals := EverTargets(lib, naming, w, steps), EverOriginal(lib, naming, w, steps);
    forall place | place in ManagedIn(now) ensures place in Homes(naming, targets, originals) {
      assert place == HomeAt(naming, Target(now[place].policy, place.calendar), now[place].source);
    }
    HomesAtMost(naming, targets, originals);
    FiniteSets.SubsetAtMost(ManagedIn(now), Homes(naming, targets, originals));
  }

  /** The places that hold a policy's copy of one source occurrence. */
  function CopiesOf(calendars: map<Place, Event>, id: string, source: Place): set<Place> {
    set place | place in calendars && IsCopy(calendars, place, id, source)
  }

  function TargetsOf(targets: set<Target>, id: string): set<Target> { set target | target in targets && target.id == id }

  /** In every run a policy has at most as many copies of a source occurrence, over all calendars, as it ever had
      destinations. */
  lemma OneCopyPerDestination(lib: Library, naming: Naming, w: World, steps: seq<Step>, id: string, source: Place)
    requires Fresh(w)
    ensures |CopiesOf(Run(lib, naming, w, steps).calendars, id, source)| <= |TargetsOf(EverTargets(lib, naming, w, steps), id)|
  {
    RunKeepsInv(lib, naming, w, steps);
    RunStaysAimed(lib, naming, w, steps);
    var now := Run(lib, naming, w, steps).calendars;
    var targets := TargetsOf(EverTargets(lib, naming, w, steps), id);
    forall place | place in CopiesOf(now, id, source) ensures place in Homes(naming, targets, {source}) {
      assert place == HomeAt(naming, Target(id, place.calendar), source);
    }
    HomesAtMost(naming, targets, {source});
    FiniteSets.SubsetAtMost(CopiesOf(now, id, source), Homes(naming, targets, {source}));
  }

  function HomeAt(naming: Naming, target: Target, source: Place): Place { Home(naming, target.id, source, target.calendar) }

  /** All places that copies of `originals` under `targets` can take. */
  function Homes(naming: Naming, targets: set<Target>, originals: set<Place>): set<Place> {
    set target, source | target in targets && source in originals :: HomeAt(naming, target, source)
  }

  /** The places of the copies under one target. */
  function HomesUnder(naming: Naming, target: Target, originals: set<Place>): set<Place> {
    set source | source in originals :: HomeAt(naming, target, source)
  }

  lemma HomesSplit(naming: Naming, targets: set<Target>, target: Target, originals: set<Place>)
    requires target in targets
    ensures Homes(naming, targets, originals)
         == HomesUnder(naming, target, originals) + Homes(naming, targets - {target}, originals)
  {
  }

  lemma {:induction false} HomesAtMost(naming: Naming, targets: set<Target>, originals: set<Place>)
    ensures |Homes(naming, targets, originals)| <= |targets| * |originals|
    decreases |targets|
  {
    if targets == {} {
      assert Homes(naming, targets, originals) == {};
    } else {
      var target :| target in targets;
      HomesSplit(naming, targets, target, originals);
      HomesAtMost(naming, targets - {target}, originals);
      HomesUnderAtMost(naming, target, originals);
      OneMoreRow(|targets - {target}|, |originals|);
    }
  }

  lemma OneMoreRow(rows: nat, columns: nat)
    ensures (rows + 1) * columns == rows * columns + columns
  {
  }

  lemma {:induction false} HomesUnderAtMost(naming: Naming, target: Target, originals: set<Place>)
    ensures |HomesUnder(naming, target, originals)| <= |originals|
    decreases |originals|
  {
    if originals != {} {
      var source :| source in originals;
      HomesUnderAtMost(naming, target, originals - {source});
      assert HomesUnder(naming, target, originals)
          == HomesUnder(naming, target, originals - {source}) + {HomeAt(naming, target, source)};
    }
  }
}
