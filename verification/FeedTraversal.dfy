/** One source feed: pages are fetched and staged one by one, and committed together or not at all. */
module FeedTraversal {
  import opened Options
  import opened Observations

  datatype Handle = Handle(batch: nat, endpoint: string, mode: Mode)

  datatype StagedBatch = StagedBatch(endpoint: string, mode: Mode, events: seq<Event>)

  datatype Failure =
    | PageLimitExceeded | MalformedResponse | LifecycleChanged | MismatchedCalendar | UnknownBatch
    | CursorExpired | ProviderFailure(code: string)

  datatype Fetch =
    | Page(events: seq<Event>, nextPage: Option<string>, nextSync: Option<string>)
    | Refused(failure: Failure)

  /** Everything the traversal cannot know in advance: what the `n`-th fetch answers and whether the
      lifecycle epoch is still current at the `n`-th look. */
  datatype World = World(fetch: nat -> Fetch, current: nat -> bool)

  predicate OnCalendar(events: seq<Event>, calendar: string) {
    forall i :: 0 <= i < |events| ==> events[i].calendar == calendar
  }

  /** The in-memory repository's observation part. */
  class ObservationStore {
    const nfc: Normal          // what Swift's equality of strings comes to
    var tokens: map<string, string>
    var stored: map<string, map<string, Event>>
    var batches: map<nat, StagedBatch>
    var nextBatch: nat

    /** A fresh handle is really fresh. */
    ghost predicate Valid()
      reads this
    {
      forall b :: b in batches ==> b < nextBatch
    }

    constructor (nfc: Normal)
      ensures Valid() && this.nfc == nfc && tokens == map[] && stored == map[] && batches == map[]
    {
      this.nfc := nfc;
      tokens, stored, batches, nextBatch := map[], map[], map[], 0;
    }

    function EventsAt(endpoint: string): map<string, Event>
      reads this
    {
      if endpoint in stored then stored[endpoint] else map[]
    }

    function TokenAt(endpoint: string): Option<string>
      reads this
    {
      if endpoint in tokens then Some(tokens[endpoint]) else None
    }

    method BeginChangeBatch(endpoint: string, mode: Mode) returns (handle: Handle)
      requires Valid()
      modifies this`batches, this`nextBatch
      ensures Valid() && handle.endpoint == endpoint && handle.mode == mode && handle.batch !in old(batches)
      ensures batches == old(batches)[handle.batch := StagedBatch(endpoint, mode, [])]
    {
      handle := Handle(nextBatch, endpoint, mode);
      batches := batches[nextBatch := StagedBatch(endpoint, mode, [])];
      nextBatch := nextBatch + 1;
    }

    method Stage(events: seq<Event>, handle: Handle, calendar: string) returns (failure: Option<Failure>)
      modifies this`batches
      ensures failure.Some? ==>
                && batches == old(batches)
                && failure.value == if handle.batch !in old(batches) then UnknownBatch else MismatchedCalendar
      ensures failure.None? ==>
                && handle.batch in old(batches)
                && batches == old(batches)[handle.batch :=
                     old(batches)[handle.batch].(events := old(batches)[handle.batch].events + events)]
      ensures failure.None? <==>
                && handle.batch in old(batches)
                && old(batches)[handle.batch].endpoint == handle.endpoint && old(batches)[handle.batch].mode == handle.mode
                && OnCalendar(events, calendar)
    {
      if handle.batch !in batches { return Some(UnknownBatch); }
      var staged := batches[handle.batch];
      if staged.endpoint != handle.endpoint || staged.mode != handle.mode { return Some(MismatchedCalendar); }
      if !OnCalendar(events, calendar) { return Some(MismatchedCalendar); }
      batches := batches[handle.batch := staged.(events := staged.events + events)];
      failure := None;
    }

    /** The commit: one pass over the staged events, then the new cursor. */
    method Commit(handle: Handle, nextSync: Option<string>) returns (failure: Option<Failure>, removed: map<string, Event>)
      modifies this`tokens, this`stored, this`batches
      ensures failure.Some? <==>
                !(handle.batch in old(batches)
                  && old(batches)[handle.batch].endpoint == handle.endpoint && old(batches)[handle.batch].mode == handle.mode)
      ensures failure.Some? ==> stored == old(stored) && tokens == old(tokens)
      ensures failure.None? ==>
                var t := Committed(MemoryKey(nfc), old(EventsAt(handle.endpoint)), handle.mode, old(batches)[handle.batch].events);
                && stored == old(stored)[handle.endpoint := t.stored] && removed == t.removed
                && tokens == if nextSync.Some? then old(tokens)[handle.endpoint := nextSync.value] else old(tokens)
      ensures batches == old(batches) - {handle.batch}
    {
      removed := map[];
      if handle.batch !in batches {
        assert batches - {handle.batch} == batches;
        return Some(UnknownBatch), removed;
      }
      var staged := batches[handle.batch];
      batches := batches - {handle.batch};
      if staged.endpoint != handle.endpoint || staged.mode != handle.mode { return Some(MismatchedCalendar), removed; }
      var events := EventsAt(handle.endpoint);
      ghost var start := Opened(events, handle.mode);
      removed := map k | k in events && InWindow(handle.mode, events[k]) :: AsTombstone(events[k]);
      events := map k | k in events && !InWindow(handle.mode, events[k]) :: events[k];
      for i := 0 to |staged.events|
        invariant Table(events, removed) == StageAll(MemoryKey(nfc), start, staged.events[..i])
        invariant stored == old(stored) && tokens == old(tokens) && batches == old(batches) - {handle.batch}
      {
        var event := staged.events[i];
        assert staged.events[..i + 1][..i] == staged.events[..i];
        var key := MemoryKey(nfc)(event.identity);
        if event.deleted {
          var existing := if key in events then Some(events[key]) else None;
          events := events - {key};
          removed := removed[key := Buried(existing, event)];
        } else {
          events := events[key := event];
          removed := removed - {key};
        }
      }
      assert staged.events[..|staged.events|] == staged.events;
      stored := stored[handle.endpoint := events];
      if nextSync.Some? { tokens := tokens[handle.endpoint := nextSync.value]; }
      failure := None;
    }

    method Abandon(handle: Handle)
      modifies this`batches
      ensures batches == old(batches) - {handle.batch}
    {
      batches := batches - {handle.batch};
    }

    method ClearSyncToken(endpoint: string)
      modifies this`tokens
      ensures tokens == old(tokens) - {endpoint}
    {
      tokens := tokens - {endpoint};
    }
  }

  /** The events of the first `n` pages. */
  function Pages(world: World, n: nat): seq<Event> {
    if n == 0 then []
    else Pages(world, n - 1) + if world.fetch(n - 1).Page? then world.fetch(n - 1).events else []
  }

  /** The newest cursor among the first `n` pages. */
  function Cursor(world: World, token: Option<string>, n: nat): Option<string> {
    if n == 0 then token
    else if world.fetch(n - 1).Page? && world.fetch(n - 1).nextSync.Some? then world.fetch(n - 1).nextSync
    else Cursor(world, token, n - 1)
  }

  /* ----- how a traversal goes ----- */

  /** Page `i` is fetched with the epoch current before and after, and all its events are of the calendar. */
  predicate Arrives(world: World, calendar: string, i: nat) {
    && world.current(2 * i) && world.fetch(i).Page? && world.current(2 * i + 1)
    && OnCalendar(world.fetch(i).events, calendar)
  }

  /** Page `n` continues with a token that an earlier page has given already. */
  ghost predicate TokenAgain(world: World, n: nat) {
    && world.fetch(n).Page? && world.fetch(n).nextPage.Some?
    && exists i: nat :: i < n && world.fetch(i).Page? && world.fetch(i).nextPage == world.fetch(n).nextPage
  }

  /** The first `n` pages arrive, each is continued, and no page token comes twice. */
  ghost predicate Chained(world: World, calendar: string, n: nat) {
    n == 0 || (Chained(world, calendar, n - 1) && Arrives(world, calendar, n - 1)
               && world.fetch(n - 1).nextPage.Some? && !TokenAgain(world, n - 1))
  }

  lemma {:induction false} ChainedAt(world: World, calendar: string, n: nat, i: nat)
    requires Chained(world, calendar, n) && i < n
    ensures Arrives(world, calendar, i) && world.fetch(i).nextPage.Some? && !TokenAgain(world, i)
  {
    if i < n - 1 { ChainedAt(world, calendar, n - 1, i); }
  }

  /** The first `n` pages are the whole feed. */
  ghost predicate Whole(world: World, calendar: string, n: nat) {
    n > 0 && Chained(world, calendar, n - 1) && Arrives(world, calendar, n - 1) && world.fetch(n - 1).nextPage.None?
  }

  /** What stops a traversal that has got to page `n`, if anything: the first obstacle on the way. */
  ghost function Obstacle(world: World, calendar: string, maximumPages: nat, n: nat): Option<Failure> {
    if !world.current(2 * n) then Some(LifecycleChanged)
    else if n >= maximumPages then Some(PageLimitExceeded)
    else if world.fetch(n).Refused? then Some(world.fetch(n).failure)
    else if !world.current(2 * n + 1) then Some(LifecycleChanged)
    else if !OnCalendar(world.fetch(n).events, calendar) then Some(MismatchedCalendar)
    else if TokenAgain(world, n) then Some(MalformedResponse)
    else None
  }

  /** An obstacle is met exactly when the feed does not come to its end in time: never both. */
  lemma ObstacleOrWhole(world: World, calendar: string, maximumPages: nat, n: nat, m: nat)
    requires Chained(world, calendar, n) && Obstacle(world, calendar, maximumPages, n).Some?
    requires Whole(world, calendar, m)
    ensures m > maximumPages
  {
    if n < m - 1 {
      ChainedAt(world, calendar, m - 1, n);
    } else if m - 1 < n {
      ChainedAt(world, calendar, n, m - 1);
    }
  }

  /** The page tokens of the first `n` pages. */
  function Tokens(world: World, n: nat): set<string> {
    if n == 0 then {}
    else
      var page := world.fetch(n - 1);
      Tokens(world, n - 1) + if page.Page? && page.nextPage.Some? then {page.nextPage.value} else {}
  }

  lemma {:induction false} TokensAre(world: World, n: nat, token: string)
    ensures token in Tokens(world, n) <==>
            exists i: nat :: i < n && world.fetch(i).Page? && world.fetch(i).nextPage == Some(token)
  {
    if n > 0 { TokensAre(world, n - 1, token); }
  }

  /** `n` pages are in and more are to come. */
  ghost predicate Underway(world: World, calendar: string, n: nat, seen: set<string>) {
    Chained(world, calendar, n) && seen == Tokens(world, n)
  }

  lemma OneMorePage(world: World, calendar: string, n: nat, seen: set<string>)
    requires Underway(world, calendar, n, seen) && Arrives(world, calendar, n)
    ensures world.fetch(n).nextPage.None? ==> Whole(world, calendar, n + 1)
    ensures world.fetch(n).nextPage.Some? && world.fetch(n).nextPage.value in seen ==> TokenAgain(world, n)
    ensures world.fetch(n).nextPage.Some? && world.fetch(n).nextPage.value !in seen ==>
              Underway(world, calendar, n + 1, seen + {world.fetch(n).nextPage.value})
  {
    if world.fetch(n).nextPage.Some? { TokensAre(world, n, world.fetch(n).nextPage.value); }
  }

  /** The batch with the events of the first `n` pages. */
  function Staged(handle: Handle, world: World, n: nat): StagedBatch {
    StagedBatch(handle.endpoint, handle.mode, Pages(world, n))
  }

  /** Fetch and stage page `n`. */
  method TakePage(store: ObservationStore, handle: Handle, calendar: string, world: World, n: nat, ghost maximumPages: nat)
    returns (failure: Option<Failure>)
    requires world.current(2 * n) && n < maximumPages && handle.batch in store.batches
    requires store.batches[handle.batch] == Staged(handle, world, n)
    modifies store`batches
    ensures failure.None? ==> Arrives(world, calendar, n) && store.batches == old(store.batches)[handle.batch := Staged(handle, world, n + 1)]
    ensures failure.Some? ==> failure == Obstacle(world, calendar, maximumPages, n) && store.batches == old(store.batches)
  {
    var page := world.fetch(n);
    if page.Refused? { return Some(page.failure); }
    if !world.current(2 * n + 1) { return Some(LifecycleChanged); }
    failure := store.Stage(page.events, handle, calendar);
  }

  /** Fetch and stage pages until one is final or something goes wrong. Only the batch grows. A failure is the
      first obstacle, met after `ahead` pages. */
  method GatherPages(store: ObservationStore, handle: Handle, calendar: string, world: World,
                     token: Option<string>, maximumPages: nat)
    returns (failure: Option<Failure>, fetches: nat, lastSync: Option<string>, ghost ahead: nat)
    requires handle.batch in store.batches && store.batches[handle.batch] == Staged(handle, world, 0)
    modifies store`batches
    ensures fetches <= maximumPages && ahead <= fetches
    ensures failure.None? ==>
              && store.batches == old(store.batches)[handle.batch := Staged(handle, world, fetches)]
              && lastSync == Cursor(world, token, fetches) && Whole(world, calendar, fetches)
    ensures failure.Some? ==>
              && store.batches - {handle.batch} == old(store.batches) - {handle.batch}
              && Chained(world, calendar, ahead) && failure == Obstacle(world, calendar, maximumPages, ahead)
  {
    fetches, lastSync, failure, ahead := 0, token, None, 0;
    var done := false;
    var seen: set<string> := {};
    while !done
      invariant fetches <= maximumPages && failure.None? && ahead <= fetches
      invariant store.batches == old(store.batches)[handle.batch := Staged(handle, world, fetches)]
      invariant lastSync == Cursor(world, token, fetches)
      invariant if done then Whole(world, calendar, fetches)
                else ahead == fetches && Underway(world, calendar, fetches, seen)
      decreases maximumPages - fetches, !done
    {
      if !world.current(2 * fetches) { failure := Some(LifecycleChanged); return; }
      if fetches >= maximumPages { failure := Some(PageLimitExceeded); return; }
      failure := TakePage(store, handle, calendar, world, fetches, maximumPages);
      var page := world.fetch(fetches);
      fetches := fetches + 1;
      if failure.Some? { return; }
      OneMorePage(world, calendar, ahead, seen);
      if page.nextSync.Some? { lastSync := page.nextSync; }
      if page.nextPage.None? {
        done := true;
      } else if page.nextPage.value in seen {
        failure := Some(MalformedResponse);
        return;
      } else {
        seen, ahead := seen + {page.nextPage.value}, fetches;
      }
    }
  }

  /** The whole feed comes in time, and the epoch is still current when it is to be committed. */
  ghost predicate Comes(world: World, calendar: string, maximumPages: nat, n: nat) {
    n <= maximumPages && Whole(world, calendar, n) && world.current(2 * n)
  }

  /** Why a traversal failed: an obstacle before some page, or a new epoch after the last one. */
  ghost predicate Explains(world: World, calendar: string, maximumPages: nat, failure: Failure) {
    || (exists n: nat :: Chained(world, calendar, n) && Obstacle(world, calendar, maximumPages, n) == Some(failure))
    || (failure.LifecycleChanged? && exists n: nat :: n <= maximumPages && Whole(world, calendar, n) && !world.current(2 * n))
  }

  lemma WholeIsUnique(world: World, calendar: string, n: nat, m: nat)
    requires Whole(world, calendar, n) && Whole(world, calendar, m)
    ensures n == m
  {
    if n < m {
      ChainedAt(world, calendar, m - 1, n - 1);
    } else if m < n {
      ChainedAt(world, calendar, n - 1, m - 1);
    }
  }

  lemma ExplainedNeverComes(world: World, calendar: string, maximumPages: nat, failure: Failure, m: nat)
    requires Explains(world, calendar, maximumPages, failure)
    ensures !Comes(world, calendar, maximumPages, m)
  {
    if Whole(world, calendar, m) {
      if n: nat :| Chained(world, calendar, n) && Obstacle(world, calendar, maximumPages, n) == Some(failure) {
        ObstacleOrWhole(world, calendar, maximumPages, n, m);
      } else {
        var n: nat :| n <= maximumPages && Whole(world, calendar, n) && !world.current(2 * n);
        WholeIsUnique(world, calendar, n, m);
      }
    }
  }

  /** One traversal. It succeeds exactly when the whole feed comes in time; then all pages are committed.
      Otherwise the observations stay as they were and the cursor is kept, or cleared if the provider
      declared it expired. */
  method SyncFeed(store: ObservationStore, endpoint: string, calendar: string, world: World,
                  fullWindow: Mode, maximumPages: nat)
    returns (failure: Option<Failure>, fetches: nat, removed: map<string, Event>)
    requires store.Valid()
    modifies store
    ensures store.Valid() && store.batches == old(store.batches) && fetches <= maximumPages
    ensures failure.None? <==> exists n :: Comes(world, calendar, maximumPages, n)
    ensures failure.Some? ==>
              && Explains(world, calendar, maximumPages, failure.value)
              && store.stored == old(store.stored)
              && store.tokens == if failure.value.CursorExpired? then old(store.tokens) - {endpoint} else old(store.tokens)
    ensures failure.None? ==>
              var token := old(store.TokenAt(endpoint));
              var mode := if token.None? then fullWindow else Incremental;
              var t := Committed(MemoryKey(store.nfc), old(store.EventsAt(endpoint)), mode, Pages(world, fetches));
              var cursor := Cursor(world, token, fetches);
              && Comes(world, calendar, maximumPages, fetches)
              && store.stored == old(store.stored)[endpoint := t.stored] && removed == t.removed
              && store.tokens == if cursor.Some? then old(store.tokens)[endpoint := cursor.value] else old(store.tokens)
  {
    removed := map[];
    var token := store.TokenAt(endpoint);
    var mode := if token.None? then fullWindow else Incremental;
    var handle := store.BeginChangeBatch(endpoint, mode);
    var lastSync;
    ghost var ahead;
    failure, fetches, lastSync, ahead := GatherPages(store, handle, calendar, world, token, maximumPages);
    if failure.None? && !world.current(2 * fetches) { failure := Some(LifecycleChanged); }
    if failure.None? {
      var refused;
      refused, removed := store.Commit(handle, lastSync);
      assert Comes(world, calendar, maximumPages, fetches);
    } else {
      NeverComes(world, calendar, maximumPages, failure.value);
      store.Abandon(handle);
      if failure.value.CursorExpired? { store.ClearSyncToken(endpoint); }
    }
    OthersStay(old(store.batches), store.batches, handle.batch);
  }

  lemma OthersStay(before: map<nat, StagedBatch>, after: map<nat, StagedBatch>, b: nat)
    requires b !in before && after == before - {b}
    ensures after == before
  {
  }

  lemma NeverComes(world: World, calendar: string, maximumPages: nat, failure: Failure)
    requires Explains(world, calendar, maximumPages, failure)
    ensures forall n :: !Comes(world, calendar, maximumPages, n)
  {
    forall n ensures !Comes(world, calendar, maximumPages, n) {
      ExplainedNeverComes(world, calendar, maximumPages, failure, n);
    }
  }
}
