/** The repository's query for due effects: which lists it may return, and that one always exists. */
module DueEffects {
  import opened SyncProtocol

  ghost predicate IdsMatch(effects: map<nat, OutboxEffect>) {
    forall id :: id in effects ==> effects[id].id == id
  }

  lemma {:induction false} Earliest(effects: map<nat, OutboxEffect>, ids: set<nat>) returns (first: nat)
    requires ids <= effects.Keys && ids != {}
    ensures first in ids && forall id :: id in ids ==> NotAfter(effects[first], effects[id])
    decreases |ids|
  {
    var some :| some in ids;
    if ids == {some} {
      first := some;
    } else {
      var other := Earliest(effects, ids - {some});
      first := if NotAfter(effects[some], effects[other]) then some else other;
    }
  }

  /** The effects of `ids`, ordered by due time and then by creation time. */
  ghost predicate Arranges(effects: map<nat, OutboxEffect>, ids: set<nat>, list: seq<OutboxEffect>) {
    && (forall i :: 0 <= i < |list| ==> list[i].id in ids && list[i].id in effects && effects[list[i].id] == list[i])
    && (forall i, j :: 0 <= i < j < |list| ==> list[i].id != list[j].id && NotAfter(list[i], list[j]))
    && (forall id :: id in ids && id in effects ==> effects[id] in list)
  }

  lemma {:induction false} Arrangement(effects: map<nat, OutboxEffect>, ids: set<nat>) returns (list: seq<OutboxEffect>)
    requires IdsMatch(effects) && ids <= effects.Keys
    ensures Arranges(effects, ids, list)
    decreases |ids|
  {
    if ids == {} {
      list := [];
    } else {
      var first := Earliest(effects, ids);
      var rest := Arrangement(effects, ids - {first});
      list := [effects[first]] + rest;
    }
  }

  lemma FirstHundred(effects: map<nat, OutboxEffect>, now: nat, all: seq<OutboxEffect>)
    requires Arranges(effects, (set id | id in effects && IsDue(effects[id], now)), all)
    ensures IsDueList(effects, now, if |all| <= DRAIN_LIMIT then all else all[..DRAIN_LIMIT])
  {
  }

  /** The query never comes back empty-handed: some list is an answer, whatever the outbox holds. */
  lemma DueListExists(effects: map<nat, OutboxEffect>, now: nat) returns (due: seq<OutboxEffect>)
    requires IdsMatch(effects)
    ensures IsDueList(effects, now, due)
  {
    var all := Arrangement(effects, set id | id in effects && IsDue(effects[id], now));
    FirstHundred(effects, now, all);
    due := if |all| <= DRAIN_LIMIT then all else all[..DRAIN_LIMIT];
  }

  /** What is due but not at the head of the answer has the head before it. */
  lemma HeadComesFirst(effects: map<nat, OutboxEffect>, now: nat, due: seq<OutboxEffect>, id: nat)
    requires IsDueList(effects, now, due) && id in effects && IsDue(effects[id], now)
    ensures due != [] && NotAfter(due[0], effects[id])
  {
  }

  predicate Waits(e: OutboxEffect, now: nat) {
    (e.state == Pending || e.state == Applying || e.state == AmbiguousResult) && e.nextAttemptAt <= now
  }

  /** Earlier due, or due at the same time and not created later. */
  predicate Sooner(a: OutboxEffect, b: OutboxEffect) {
    a.nextAttemptAt <= b.nextAttemptAt && (a.nextAttemptAt == b.nextAttemptAt ==> a.createdAt <= b.createdAt)
  }

  /** An answer of the query lists different waiting effects in order, at most a hundred; it leaves a waiting one out
      only if it lists a hundred sooner ones. */
  lemma DueListExactly(effects: map<nat, OutboxEffect>, now: nat, due: seq<OutboxEffect>)
    ensures IsDueList(effects, now, due) <==>
            && |due| <= 100
            && (forall i :: 0 <= i < |due| ==> due[i].id in effects && effects[due[i].id] == due[i] && Waits(due[i], now))
            && (forall i, j :: 0 <= i < j < |due| ==> due[i].id != due[j].id && Sooner(due[i], due[j]))
            && (forall id :: id in effects && Waits(effects[id], now) && effects[id] !in due ==>
                  |due| == 100 && forall i :: 0 <= i < |due| ==> Sooner(due[i], effects[id]))
  {
    assert forall e :: Waits(e, now) <==> IsDue(e, now);
    assert forall a, b :: Sooner(a, b) <==> NotAfter(a, b);
  }
}
