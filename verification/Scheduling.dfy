/**
 The coordinator's own bookkeeping: the run slot that lets one pass at a time touch the outbox, and
 the pollers, one per source endpoint while the app is online.
 */
module Scheduling {
  import opened Options

  type Task = nat

  /* ----- the run slot, under any interleaving of tasks ----- */

  datatype Slot = Slot(occupied: bool, waiters: seq<Task>, asked: seq<Task>, admitted: seq<Task>, released: nat)

  datatype Move = Ask(task: Task) | Leave

  function After(s: Slot, move: Move): Slot {
    match move
    case Ask(task) =>
      if s.occupied then s.(waiters := s.waiters + [task], asked := s.asked + [task])
      else s.(occupied := true, asked := s.asked + [task], admitted := s.admitted + [task])
    case Leave =>
      if !s.occupied then s
      else if s.waiters == [] then s.(occupied := false, released := s.released + 1)
      else s.(admitted := s.admitted + [s.waiters[0]], waiters := s.waiters[1..], released := s.released + 1)
  }

  function Play(s: Slot, moves: seq<Move>): Slot
    decreases |moves|
  {
    if moves == [] then s else Play(After(s, moves[0]), moves[1..])
  }

  /** Admissions follow the order of requests, nobody is lost, and at most one admitted task has not
      released the slot: the last one. */
  predicate Fair(s: Slot) {
    && s.asked == s.admitted + s.waiters
    && (if s.occupied then |s.admitted| == s.released + 1 else |s.admitted| == s.released && s.waiters == [])
  }

  /** `acquireRunSlot` and `releaseRunSlot`. The ghost fields record who asked and who was let in. */
  class RunSlot {
    var occupied: bool
    var waiters: seq<Task>
    ghost var asked: seq<Task>
    ghost var admitted: seq<Task>
    ghost var released: nat

    ghost function View(): Slot
      reads this
    {
      Slot(occupied, waiters, asked, admitted, released)
    }

    constructor ()
      ensures View() == Slot(false, [], [], [], 0) && Fair(View())
    {
      occupied, waiters := false, [];
      asked, admitted, released := [], [], 0;
    }

    /** The caller goes on at once, or is suspended until a release resumes it. */
    method Acquire(task: Task) returns (goesOn: bool)
      requires Fair(View())
      modifies this
      ensures View() == After(old(View()), Ask(task)) && Fair(View())
      ensures goesOn <==> !old(occupied)
      ensures goesOn ==> admitted[|admitted| - 1] == task
    {
      asked := asked + [task];
      if !occupied {
        occupied := true;
        admitted := admitted + [task];
        goesOn := true;
      } else {
        waiters := waiters + [task];
        goesOn := false;
      }
    }

    /** The holder leaves; the longest-waiting task takes over. */
    method Release() returns (resumed: Option<Task>)
      requires Fair(View()) && occupied
      modifies this
      ensures View() == After(old(View()), Leave) && Fair(View())
      ensures resumed == if old(waiters) == [] then None else Some(old(waiters)[0])
    {
      released := released + 1;
      if waiters == [] {
        occupied := false;
        resumed := None;
      } else {
        var first := waiters[0];
        admitted := admitted + [first];
        waiters := waiters[1..];
        resumed := Some(first);
      }
    }
  }

  /** In every interleaving the tasks are let in in the order they asked, one at a time, and none is lost. */
  lemma {:induction false} ServedInOrder(s: Slot, moves: seq<Move>)
    requires Fair(s)
    ensures Fair(Play(s, moves)) && s.asked <= Play(s, moves).asked
    decreases |moves|
  {
    if moves != [] {
      assert s.waiters != [] ==> [s.waiters[0]] + s.waiters[1..] == s.waiters;
      ServedInOrder(After(s, moves[0]), moves[1..]);
    }
  }

  /** A waiting task with `n` others before it is let in by the next `n + 1` departures. */
  lemma {:induction false} WaiterGetsIn(s: Slot, n: nat)
    requires Fair(s) && n < |s.waiters|
    ensures var t := Play(s, seq(n + 1, _ => Leave));
            Fair(t) && t.occupied && t.admitted[|t.admitted| - 1] == s.waiters[n]
    decreases n
  {
    var moves := seq(n + 1, _ => Leave);
    var s1 := After(s, Leave);
    assert moves[1..] == seq(n, _ => Leave);
    assert [s.waiters[0]] + s.waiters[1..] == s.waiters;
    if n > 0 { WaiterGetsIn(s1, n - 1); }
  }

  /* ----- pollers ----- */

  datatype Lifecycle = Online | Offline | Sleeping | Stopped

  datatype Policy = Policy(id: string, source: string)

  /** The endpoints that some active policy reads. */
  ghost function SourcesOf(active: map<string, Policy>): set<string> { set id | id in active :: active[id].source }

  lemma SourcesGrow(active: map<string, Policy>, policy: Policy)
    requires policy.id !in active || active[policy.id].source == policy.source
    ensures SourcesOf(active[policy.id := policy]) == SourcesOf(active) + {policy.source}
  {
    var more := active[policy.id := policy];
    assert more[policy.id].source in SourcesOf(more);
    forall s | s in SourcesOf(active) ensures s in SourcesOf(more) {
      var id :| id in active && active[id].source == s;
      assert more[id].source == s;
    }
  }

  lemma SourcesShrink(active: map<string, Policy>, id: string)
    requires id in active
    ensures SourcesOf(active) == SourcesOf(active - {id}) + {active[id].source}
  {
    forall s | s in SourcesOf(active) ensures s in SourcesOf(active - {id}) + {active[id].source} {
      var k :| k in active && active[k].source == s;
      if k != id { assert (active - {id})[k].source == s; }
    }
  }

  ghost predicate TasksOk(tasks: map<string, Task>, nextTask: Task, running: set<Task>) {
    && running == (set endpoint | endpoint in tasks :: tasks[endpoint])
    && (forall a, b :: a in tasks && b in tasks && tasks[a] == tasks[b] ==> a == b)
    && (forall endpoint :: endpoint in tasks ==> tasks[endpoint] < nextTask)
  }

  lemma StartKeepsTasks(tasks: map<string, Task>, nextTask: Task, running: set<Task>, endpoint: string)
    requires TasksOk(tasks, nextTask, running) && endpoint !in tasks
    ensures TasksOk(tasks[endpoint := nextTask], nextTask + 1, running + {nextTask})
  {
    var more := tasks[endpoint := nextTask];
    forall t | t in running + {nextTask} ensures t in (set e | e in more :: more[e]) {
      if t == nextTask {
        assert more[endpoint] == t;
      } else {
        var e :| e in tasks && tasks[e] == t;
        assert more[e] == t;
      }
    }
  }

  lemma CancelKeepsTasks(tasks: map<string, Task>, nextTask: Task, running: set<Task>, endpoint: string)
    requires TasksOk(tasks, nextTask, running) && endpoint in tasks
    ensures TasksOk(tasks - {endpoint}, nextTask, running - {tasks[endpoint]})
  {
    var rest := tasks - {endpoint};
    forall t | t in running - {tasks[endpoint]} ensures t in (set e | e in rest :: rest[e]) {
      var e :| e in tasks && tasks[e] == t;
      assert rest[e] == t;
    }
  }

  class Pollers {
    var lifecycle: Lifecycle
    var lifecycleEpoch: nat
    var active: map<string, Policy>
    var tasks: map<string, Task>
    var nextTask: Task
    ghost var running: set<Task>      // started and not cancelled

    /** Online, exactly the sources of active policies are polled, each by one running task; otherwise none. */
    ghost predicate Valid()
      reads this
    {
      tasks.Keys == (if lifecycle.Online? then SourcesOf(active) else {}) && TasksOk(tasks, nextTask, running)
    }

    constructor ()
      ensures Valid() && lifecycle == Stopped && active == map[]
    {
      lifecycle, lifecycleEpoch, active, tasks, nextTask := Stopped, 0, map[], map[], 0;
      running := {};
    }

    method StartIfNeeded(endpoint: string)
      requires TasksOk(tasks, nextTask, running)
      modifies this`tasks, this`nextTask, this`running
      ensures TasksOk(tasks, nextTask, running) && tasks.Keys == old(tasks.Keys) + {endpoint}
      ensures forall e :: e in old(tasks) ==> tasks[e] == old(tasks)[e]
    {
      if endpoint in tasks { return; }
      StartKeepsTasks(tasks, nextTask, running, endpoint);
      tasks := tasks[endpoint := nextTask];
      running := running + {nextTask};
      nextTask := nextTask + 1;
    }

    method SetLifecycle(newLifecycle: Lifecycle)
      requires Valid()
      modifies this
      ensures Valid() && lifecycle == newLifecycle && active == old(active) && lifecycleEpoch == old(lifecycleEpoch) + 1
    {
      lifecycleEpoch := lifecycleEpoch + 1;
      lifecycle := newLifecycle;
      if !newLifecycle.Online? {
        tasks, running := map[], {};
        return;
      }
      var todo := active.Keys;
      while todo != {}
        invariant todo <= active.Keys && active == old(active) && lifecycle == newLifecycle
        invariant lifecycleEpoch == old(lifecycleEpoch) + 1
        invariant tasks.Keys <= SourcesOf(active)
        invariant forall id :: id in active && id !in todo ==> active[id].source in tasks
        invariant TasksOk(tasks, nextTask, running)
        decreases todo
      {
        var id :| id in todo;
        StartIfNeeded(active[id].source);
        todo := todo - {id};
      }
    }

    method StopFeedIfUnused(endpoint: string)
      requires TasksOk(tasks, nextTask, running)
      modifies this`tasks, this`running
      ensures TasksOk(tasks, nextTask, running)
      ensures tasks == if endpoint in SourcesOf(active) then old(tasks) else old(tasks) - {endpoint}
    {
      if exists id :: id in active && active[id].source == endpoint { return; }
      if endpoint in tasks {
        CancelKeepsTasks(tasks, nextTask, running, endpoint);
        running := running - {tasks[endpoint]};
        tasks := tasks - {endpoint};
      }
      assert tasks == old(tasks) - {endpoint};
    }

    method StartPolling(policy: Policy)
      requires Valid()
      modifies this
      ensures Valid() && active == old(active)[policy.id := policy] && lifecycle == old(lifecycle)
    {
      if policy.id in active && active[policy.id].source != policy.source {
        StopPolling(policy.id);
      }
      SourcesGrow(active, policy);
      active := active[policy.id := policy];
      if !lifecycle.Online? { return; }
      StartIfNeeded(policy.source);
    }

    method StopPolling(id: string)
      requires Valid()
      modifies this
      ensures Valid() && active == old(active) - {id} && lifecycle == old(lifecycle)
    {
      if id !in active { return; }
      var policy := active[id];
      SourcesShrink(active, id);
      active := active - {id};
      StopFeedIfUnused(policy.source);
    }

    method StopAll()
      requires Valid()
      modifies this
      ensures Valid() && active == map[] && lifecycle == old(lifecycle)
    {
      active, tasks, running := map[], map[], {};
    }
  }
}
