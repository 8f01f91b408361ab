/** The in-memory repository's outbox and projections, changed in place. */
module OutboxStore {
  import opened Options
  import opened SyncProtocol
  import opened DueEffects

  class Store {
    var projections: map<ProjectionKey, StoredProjection>
    var notices: map<nat, Notice>
    var effects: map<nat, OutboxEffect>
    var effectIdByIdempotencyKey: map<IdempotencyKey, nat>
    var nextId: nat

    function View(): Repository
      reads this
    {
      Repository(projections, notices, effects, effectIdByIdempotencyKey, nextId)
    }

    /** Ids match, a fresh id is really fresh, and every effect is the one its idempotency key points at. */
    ghost predicate Valid()
      reads this
    {
      && IdsMatch(effects)
      && (forall id :: id in effects ==> id < nextId)
      && (forall id :: id in effects ==> Lookup(effectIdByIdempotencyKey, effects[id].idempotencyKey) == Some(id))
      && (forall key :: key in effectIdByIdempotencyKey ==>
            && effectIdByIdempotencyKey[key] < nextId
            && (effectIdByIdempotencyKey[key] in effects ==> effects[effectIdByIdempotencyKey[key]].idempotencyKey == key))
    }

    /** An intent is in the outbox at most once, whatever was enqueued, retried or revised. */
    lemma OneEffectPerIntent(a: nat, b: nat)
      requires Valid() && a in effects && b in effects && effects[a].idempotencyKey == effects[b].idempotencyKey
      ensures a == b
    {
    }

    constructor ()
      ensures Valid() && View() == Repository(map[], map[], map[], map[], 0)
    {
      projections, notices, effects, effectIdByIdempotencyKey := map[], map[], map[], map[];
      nextId := 0;
    }

    method Enqueue(effect: OutboxEffect) returns (queued: bool)
      requires Valid()
      modifies this
      ensures Valid() && View() == EnqueueEffect(old(View()), effect)
      ensures queued <==> nextId == old(nextId) + 1
    {
      queued := false;
      if effect.idempotencyKey in effectIdByIdempotencyKey {
        var existing := effectIdByIdempotencyKey[effect.idempotencyKey];
        if existing in effects && !effects[existing].state.Succeeded? { return; }
        effects := effects - {existing};
      }
      effects := effects[nextId := effect.(id := nextId)];
      effectIdByIdempotencyKey := effectIdByIdempotencyKey[effect.idempotencyKey := nextId];
      nextId := nextId + 1;
      queued := true;
    }

    /** The due effects, oldest first, at most `DRAIN_LIMIT` of them. */
    method Due(now: nat) returns (due: seq<OutboxEffect>)
      requires Valid()
      ensures IsDueList(effects, now, due)
    {
      due := [];
      var todo := effects.Keys;
      ghost var taken: set<nat> := {};
      while todo != {}
        invariant todo <= effects.Keys && taken + todo == effects.Keys && taken !! todo
        invariant Arranges(effects, (set id | id in taken && IsDue(effects[id], now)), due)
        decreases todo
      {
        var id :| id in todo;
        if IsDue(effects[id], now) {
          ghost var before := set x | x in taken && IsDue(effects[x], now);
          InsertArranges(effects, before, due, id);
          due := InsertByDue(due, effects[id]);
          assert before + {id} == set x | x in taken + {id} && IsDue(effects[x], now);
        } else {
          assert (set x | x in taken + {id} && IsDue(effects[x], now)) == set x | x in taken && IsDue(effects[x], now);
        }
        todo, taken := todo - {id}, taken + {id};
      }
      assert taken == effects.Keys;
      FirstHundred(effects, now, due);
      if |due| > DRAIN_LIMIT { due := due[..DRAIN_LIMIT]; }
    }

    method Mark(id: nat, state: EffectState) returns (known: bool)
      requires Valid()
      modifies this`effects
      ensures Valid() && View() == MarkState(old(View()), id, state) && (known <==> id in old(effects))
    {
      known := id in effects;
      if known { effects := effects[id := effects[id].(state := state)]; }
    }

    method MarkAsApplying(id: nat) returns (known: bool)
      requires Valid()
      modifies this`effects
      ensures Valid() && View() == MarkApplying(old(View()), id) && (known <==> id in old(effects))
    {
      known := id in effects;
      if known { effects := effects[id := effects[id].(state := Applying, attempts := effects[id].attempts + 1)]; }
    }

    method Retry(id: nat, at: nat) returns (known: bool)
      requires Valid()
      modifies this`effects
      ensures Valid() && View() == ScheduleRetry(old(View()), id, at) && (known <==> id in old(effects))
    {
      known := id in effects;
      if known { effects := effects[id := effects[id].(state := Pending, nextAttemptAt := at)]; }
    }

    method Revise(id: nat, mutation: Mutation, at: nat) returns (known: bool)
      requires Valid()
      modifies this`effects
      ensures Valid() && View() == ReviseEffect(old(View()), id, mutation, at) && (known <==> id in old(effects))
    {
      known := id in effects;
      if known {
        effects := effects[id := effects[id].(mutation := mutation, state := Pending, nextAttemptAt := at)];
      }
    }
  }

  function InsertByDue(list: seq<OutboxEffect>, e: OutboxEffect): (r: seq<OutboxEffect>)
    ensures forall x :: x in r <==> x in list || x == e
    ensures |r| == |list| + 1
  {
    if list == [] || NotAfter(e, list[0]) then [e] + list else [list[0]] + InsertByDue(list[1..], e)
  }

  predicate InOrder(list: seq<OutboxEffect>) {
    forall i, j :: 0 <= i < j < |list| ==> list[i].id != list[j].id && NotAfter(list[i], list[j])
  }

  lemma {:induction false} InsertKeepsOrder(list: seq<OutboxEffect>, e: OutboxEffect)
    requires InOrder(list) && forall i :: 0 <= i < |list| ==> list[i].id != e.id
    ensures InOrder(InsertByDue(list, e))
  {
    if list != [] && !NotAfter(e, list[0]) {
      var rest := InsertByDue(list[1..], e);
      InsertKeepsOrder(list[1..], e);
      forall x | x in rest ensures x.id != list[0].id && NotAfter(list[0], x) {
        if x != e {
          var k :| 0 <= k < |list[1..]| && list[1..][k] == x;
          assert list[k + 1] == x;
        }
      }
      assert forall j :: 0 <= j < |rest| ==> rest[j] in rest;
    }
  }

  lemma InsertArranges(effects: map<nat, OutboxEffect>, ids: set<nat>, list: seq<OutboxEffect>, id: nat)
    requires IdsMatch(effects) && id in effects && id !in ids && Arranges(effects, ids, list)
    ensures Arranges(effects, ids + {id}, InsertByDue(list, effects[id]))
  {
    var r := InsertByDue(list, effects[id]);
    InsertKeepsOrder(list, effects[id]);
    forall i | 0 <= i < |r|
      ensures r[i].id in ids + {id} && r[i].id in effects && effects[r[i].id] == r[i]
    {
      assert r[i] in r;
      if r[i] != effects[id] {
        var k :| 0 <= k < |list| && list[k] == r[i];
      }
    }
  }
}
