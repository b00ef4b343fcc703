/** The scheduler service with the task store and the local task dispatcher it is wired to.

    Every store error other than "not found" is left to persistence. A task's message send
    succeeds exactly for the tasks in `reachable`. */
module Scheduler {
  import opened Wrappers
  import Recurrence
  import Schedules

  datatype Status = Pending | Dispatching | Running | Failed | Succeeded | Blocked | Errored

  datatype DirectTask = DirectTask(id: string, status: Status, schedule: Schedules.Schedule, nextRunAt: Option<int>)

  /** The stored tasks and the messages sent to bot queues so far. */
  datatype State = State(tasks: map<string, DirectTask>, sent: seq<string>)

  /** The statuses RunNow takes for "already dispatched". */
  const LOCAL_ALREADY: set<Status> := {Running, Dispatching}

  ghost predicate Keyed(s: State) {
    forall id | id in s.tasks :: s.tasks[id].id == id
  }

  predicate IsDue(t: DirectTask, now: int) {
    t.status == Pending && t.nextRunAt.Some? && t.nextRunAt.value <= now
  }

  function Put(s: State, t: DirectTask): State {
    s.(tasks := s.tasks[t.id := t])
  }

  // ---------------------------------------------------------------- one operation each

  /** None when the task does not exist. */
  function ClaimDue(s: State, id: string): (State, Option<bool>) {
    if id !in s.tasks then (s, None)
    else if s.tasks[id].status != Pending then (s, Some(false))
    else (Put(s, s.tasks[id].(status := Dispatching)), Some(true))
  }

  function RunNow(s: State, id: string, already: set<Status>, reachable: set<string>): (State, bool) {
    if id !in s.tasks then (s, false)
    else
      var t := s.tasks[id];
      if t.status in already then (s, true)
      else if id !in reachable then (Put(s, t.(status := Failed)), false)
      else (Put(s, t.(status := Running)).(sent := s.sent + [id]), true)
  }

  function SetNextRun(s: State, id: string, next: int): State {
    if id !in s.tasks then s else Put(s, s.tasks[id].(nextRunAt := Some(next)))
  }

  function ProcessTask(s: State, t: DirectTask, now: int, already: set<Status>, reachable: set<string>): State {
    var (claimedState, claimed) := ClaimDue(s, t.id);
    if claimed != Some(true) then claimedState
    else
      var (ranState, ran) := RunNow(claimedState, t.id, already, reachable);
      if !ran || t.schedule.mode != Schedules.Recurring || t.schedule.rule.None? then ranState
      else SetNextRun(ranState, t.id, Schedules.AdvanceToFuture(t.schedule, now).value)
  }

  function ProcessAll(s: State, due: seq<DirectTask>, now: int, already: set<Status>, reachable: set<string>): State
    decreases |due|
  {
    if due == [] then s
    else ProcessAll(ProcessTask(s, due[0], now, already, reachable), due[1..], now, already, reachable)
  }

  // ---------------------------------------------------------------- the store and the service

  class TaskStore {
    var tasks: map<string, DirectTask>
    var sent: seq<string>

    function View(): State
      reads this
    {
      State(tasks, sent)
    }

    /** Map order is arbitrary: any order, every due task once. */
    method ListDue(now: int) returns (due: seq<DirectTask>)
      requires Keyed(View())
      ensures IsDueList(View(), now, due)
    {
      due := [];
      var todo := tasks.Keys;
      while todo != {}
        invariant todo <= tasks.Keys
        invariant forall i | 0 <= i < |due| :: due[i].id in tasks && due[i].id !in todo
        invariant forall i | 0 <= i < |due| :: due[i] == tasks[due[i].id] && IsDue(due[i], now)
        invariant forall i, j | 0 <= i < j < |due| :: due[i].id != due[j].id
        invariant forall id | id in tasks && id !in todo && IsDue(tasks[id], now) :: tasks[id] in due
        decreases todo
      {
        var id :| id in todo;
        todo := todo - {id};
        if IsDue(tasks[id], now) {
          due := due + [tasks[id]];
        }
      }
    }

    method Claim(id: string) returns (claimed: Option<bool>)
      modifies this
      ensures (View(), claimed) == ClaimDue(old(View()), id)
      ensures claimed == if id in old(tasks) then Some(old(tasks)[id].status == Pending) else None
    {
      if id !in tasks {
        return None;
      }
      if tasks[id].status != Pending {
        return Some(false);
      }
      tasks := tasks[tasks[id].id := tasks[id].(status := Dispatching)];
      return Some(true);
    }

    method Run(id: string, already: set<Status>, reachable: set<string>) returns (ok: bool)
      modifies this
      ensures (View(), ok) == RunNow(old(View()), id, already, reachable)
    {
      if id !in tasks {
        return false;
      }
      var t := tasks[id];
      if t.status in already {
        return true;
      }
      if id !in reachable {
        tasks := tasks[t.id := t.(status := Failed)];
        return false;
      }
      sent := sent + [id];
      tasks := tasks[t.id := t.(status := Running)];
      return true;
    }
  }

  class SchedulerService {
    const store: TaskStore
    const already: set<Status>

    constructor (store: TaskStore, already: set<Status>)
      ensures this.store == store && this.already == already
    {
      this.store := store;
      this.already := already;
    }

    method Process(t: DirectTask, now: int, reachable: set<string>)
      modifies store
      ensures store.View() == ProcessTask(old(store.View()), t, now, already, reachable)
    {
      var claimed := store.Claim(t.id);
      if claimed != Some(true) {
        return;
      }
      var ran := store.Run(t.id, already, reachable);
      if !ran {
        return;
      }
      if t.schedule.mode != Schedules.Recurring || t.schedule.rule.None? {
        return;
      }
      var next := Schedules.AdvanceToFuture(t.schedule, now);
      if t.id in store.tasks {
        var current := store.tasks[t.id];
        current := current.(nextRunAt := next);
        store.tasks := store.tasks[current.id := current];
      }
    }

    /** A tick, and the start-up catch-up. */
    method ProcessAllDue(now: int, reachable: set<string>) returns (ghost due: seq<DirectTask>)
      requires Keyed(store.View())
      modifies store
      ensures IsDueList(old(store.View()), now, due)
      ensures store.View() == ProcessAll(old(store.View()), due, now, already, reachable)
    {
      var listed := store.ListDue(now);
      due := listed;
      for i := 0 to |listed|
        invariant ProcessAll(store.View(), listed[i..], now, already, reachable)
               == ProcessAll(old(store.View()), listed, now, already, reachable)
      {
        assert listed[i..][1..] == listed[i + 1..];
        Process(listed[i], now, reachable);
      }
    }
  }

  // ---------------------------------------------------------------- what a tick does

  ghost predicate IsDueList(s: State, now: int, due: seq<DirectTask>) {
    && (forall i | 0 <= i < |due| :: due[i].id in s.tasks && due[i] == s.tasks[due[i].id] && IsDue(due[i], now))
    && (forall i, j | 0 <= i < j < |due| :: due[i].id != due[j].id)
    && (forall id | id in s.tasks && IsDue(s.tasks[id], now) :: s.tasks[id] in due)
  }

  /** A due list names exactly the pending tasks whose next run has come, each once. */
  lemma DueListMeans(s: State, now: int, due: seq<DirectTask>, id: string)
    requires Keyed(s) && IsDueList(s, now, due)
    ensures id in Ids(due) <==>
              && id in s.tasks && s.tasks[id].status == Pending
              && s.tasks[id].nextRunAt.Some? && s.tasks[id].nextRunAt.value <= now
    ensures forall i, j | 0 <= i < j < |due| :: Ids(due)[i] != Ids(due)[j]
  {
    if id in s.tasks && IsDue(s.tasks[id], now) {
      var i :| 0 <= i < |due| && due[i] == s.tasks[id];
      assert Ids(due)[i] == id;
    }
  }

  /** An operator's call on a task in any status but those taken for "already dispatched" sends exactly
      one message and leaves the task Running, if its bot is reachable, and fails it otherwise; another
      call, and a claim, then do nothing more as long as Running is one of those statuses. */
  lemma OperatorRuns(s: State, id: string, already: set<Status>, reachable: set<string>)
    requires Keyed(s) && id in s.tasks && s.tasks[id].status !in already
    ensures var (t, ok) := RunNow(s, id, already, reachable);
      && (id in reachable ==>
            && ok && t.sent == s.sent + [id]
            && t.tasks == s.tasks[id := s.tasks[id].(status := Running)]
            && (Running in already ==> RunNow(t, id, already, reachable) == (t, true))
            && ClaimDue(t, id) == (t, Some(false)))
      && (id !in reachable ==>
            && !ok && t.sent == s.sent
            && t.tasks == s.tasks[id := s.tasks[id].(status := Failed)])
  {
  }

  /** As wired, a call sends a message exactly for a reachable task that is neither running nor being
      dispatched, and what it finds running or being dispatched it leaves as it is. */
  lemma LocalCallSendsIff(s: State, id: string, reachable: set<string>)
    requires Keyed(s) && id in s.tasks
    ensures var (t, ok) := RunNow(s, id, LOCAL_ALREADY, reachable);
      && (t.sent == s.sent + [id] <==> id in reachable && s.tasks[id].status !in {Running, Dispatching})
      && (t.sent == s.sent + [id] || t.sent == s.sent)
      && (s.tasks[id].status in {Running, Dispatching} ==> t == s && ok)
  {
    assert |s.sent + [id]| != |s.sent|;
  }

  /** Due tasks still to be processed: distinct, and as the store has them. */
  ghost predicate Waiting(s: State, due: seq<DirectTask>) {
    && (forall i | 0 <= i < |due| :: due[i].id in s.tasks && due[i] == s.tasks[due[i].id] && due[i].status == Pending)
    && (forall i, j | 0 <= i < j < |due| :: due[i].id != due[j].id)
  }

  function Ids(due: seq<DirectTask>): (ids: seq<string>)
    ensures |ids| == |due| && forall i | 0 <= i < |ids| :: ids[i] == due[i].id
  {
    seq(|due|, i requires 0 <= i < |due| => due[i].id)
  }

  /** The record a processed task is left with. */
  function Processed(t: DirectTask, now: int, already: set<Status>, reachable: set<string>): DirectTask {
    if Dispatching !in already && t.id !in reachable then t.(status := Failed)
    else
      var status := if Dispatching in already then Dispatching else Running;
      if t.schedule.mode == Schedules.Recurring && t.schedule.rule.Some?
      then t.(status := status, nextRunAt := Some(Recurrence.NextAfter(t.schedule.rule.value, now)))
      else t.(status := status)
  }

  lemma ProcessOne(s: State, t: DirectTask, now: int, already: set<Status>, reachable: set<string>)
    requires Keyed(s) && t.id in s.tasks && t == s.tasks[t.id] && t.status == Pending
    ensures var after := ProcessTask(s, t, now, already, reachable);
            && after.tasks == s.tasks[t.id := Processed(t, now, already, reachable)]
            && after.sent == s.sent + (if Dispatching !in already && t.id in reachable then [t.id] else [])
  {
    assert s.sent + [] == s.sent;
  }

  /** A tick leaves every due task processed, every other task untouched. */
  lemma {:induction false} TickEffect(
      s: State, due: seq<DirectTask>, now: int, already: set<Status>, reachable: set<string>)
    requires Keyed(s) && Waiting(s, due)
    ensures var after := ProcessAll(s, due, now, already, reachable);
            && Keyed(after) && after.tasks.Keys == s.tasks.Keys
            && (forall i | 0 <= i < |due| :: after.tasks[due[i].id] == Processed(due[i], now, already, reachable))
            && (forall id | id in s.tasks && id !in Ids(due) :: after.tasks[id] == s.tasks[id])
    decreases |due|
  {
    if due != [] {
      var next := ProcessTask(s, due[0], now, already, reachable);
      ProcessOne(s, due[0], now, already, reachable);
      WaitingTail(s, due, now, already, reachable);
      assert forall i | 0 <= i < |due[1..]| :: due[1..][i] == due[i + 1];
      TickEffect(next, due[1..], now, already, reachable);
      assert forall i | 0 <= i < |due[1..]| :: Ids(due)[i + 1] == Ids(due[1..])[i];
      assert Ids(due)[0] == due[0].id;
      assert forall id :: id in Ids(due) <==> id == due[0].id || id in Ids(due[1..]);
    }
  }

  lemma WaitingTail(s: State, due: seq<DirectTask>, now: int, already: set<Status>, reachable: set<string>)
    requires Keyed(s) && Waiting(s, due) && due != []
    ensures var next := ProcessTask(s, due[0], now, already, reachable);
            Keyed(next) && Waiting(next, due[1..])
    ensures Ids(due) == [due[0].id] + Ids(due[1..])
  {
    ProcessOne(s, due[0], now, already, reachable);
    assert forall i | 0 <= i < |due[1..]| :: due[1..][i] == due[i + 1];
  }

  /** A dispatcher that takes the claim's own status for "already dispatched" sends nothing. */
  lemma {:induction false} TickSendsNothing(
      s: State, due: seq<DirectTask>, now: int, already: set<Status>, reachable: set<string>)
    requires Keyed(s) && Waiting(s, due) && Dispatching in already
    ensures ProcessAll(s, due, now, already, reachable).sent == s.sent
    decreases |due|
  {
    if due != [] {
      ProcessOne(s, due[0], now, already, reachable);
      WaitingTail(s, due, now, already, reachable);
      TickSendsNothing(ProcessTask(s, due[0], now, already, reachable), due[1..], now, already, reachable);
    }
  }

  /** Any other dispatcher sends each due task once, in list order. */
  lemma {:induction false} TickSendsAll(
      s: State, due: seq<DirectTask>, now: int, already: set<Status>, reachable: set<string>)
    requires Keyed(s) && Waiting(s, due) && Dispatching !in already
    requires forall i | 0 <= i < |due| :: due[i].id in reachable
    ensures ProcessAll(s, due, now, already, reachable).sent == s.sent + Ids(due)
    decreases |due|
  {
    if due == [] {
      assert s.sent + Ids(due) == s.sent;
    } else {
      var next := ProcessTask(s, due[0], now, already, reachable);
      ProcessOne(s, due[0], now, already, reachable);
      WaitingTail(s, due, now, already, reachable);
      assert due[0].id in reachable && forall i | 0 <= i < |due[1..]| :: due[1..][i] == due[i + 1];
      TickSendsAll(next, due[1..], now, already, reachable);
      Regroup(s.sent, [due[0].id], Ids(due[1..]));
    }
  }

  lemma Regroup(a: seq<string>, b: seq<string>, c: seq<string>)
    ensures (a + b) + c == a + (b + c)
  {
  }

  /** "Checks for due tasks and dispatches them" holds of a tick exactly when nothing is due or the
      dispatcher does not count the claim's own status as already dispatched. */
  lemma DueTasksAreSentIff(s: State, due: seq<DirectTask>, now: int, already: set<Status>, reachable: set<string>)
    requires Keyed(s) && IsDueList(s, now, due)
    requires forall i | 0 <= i < |due| :: due[i].id in reachable
    ensures ProcessAll(s, due, now, already, reachable).sent == s.sent + Ids(due)
       <==> due == [] || Dispatching !in already
  {
    if Dispatching in already {
      TickSendsNothing(s, due, now, already, reachable);
      assert |s.sent + Ids(due)| == |s.sent| + |due|;
    } else {
      TickSendsAll(s, due, now, already, reachable);
    }
  }

  // ---------------------------------------------------------------- over all ticks, as wired

  /** A tick's instant, its due list and the queues that accept messages then. */
  datatype Tick = Tick(now: int, due: seq<DirectTask>, reachable: set<string>)

  ghost predicate IsRun(s: State, ticks: seq<Tick>)
    decreases |ticks|
  {
    ticks == [] ||
    (IsDueList(s, ticks[0].now, ticks[0].due)
     && IsRun(ProcessAll(s, ticks[0].due, ticks[0].now, LOCAL_ALREADY, ticks[0].reachable), ticks[1..]))
  }

  ghost function RunTicks(s: State, ticks: seq<Tick>): State
    decreases |ticks|
  {
    if ticks == [] then s
    else RunTicks(ProcessAll(s, ticks[0].due, ticks[0].now, LOCAL_ALREADY, ticks[0].reachable), ticks[1..])
  }

  /** With the local dispatcher the claim hides the task from RunNow: over any number of ticks no
      message is sent, and a task that was due once is left Dispatching and never due again. */
  lemma {:induction false} ScheduledTasksAreNeverSent(s: State, ticks: seq<Tick>)
    requires Keyed(s) && IsRun(s, ticks)
    ensures var after := RunTicks(s, ticks);
            && Keyed(after) && after.tasks.Keys == s.tasks.Keys
            && after.sent == s.sent
            && (forall id | id in s.tasks && s.tasks[id].status == Dispatching :: after.tasks[id] == s.tasks[id])
            && (ticks != [] ==> forall id, later | id in s.tasks && IsDue(s.tasks[id], ticks[0].now) ::
                 after.tasks[id].status == Dispatching && !IsDue(after.tasks[id], later))
    decreases |ticks|
  {
    if ticks != [] {
      var tick := ticks[0];
      var next := ProcessAll(s, tick.due, tick.now, LOCAL_ALREADY, tick.reachable);
      TickEffect(s, tick.due, tick.now, LOCAL_ALREADY, tick.reachable);
      TickSendsNothing(s, tick.due, tick.now, LOCAL_ALREADY, tick.reachable);
      ScheduledTasksAreNeverSent(next, ticks[1..]);
      forall id | id in s.tasks && s.tasks[id].status == Dispatching ensures next.tasks[id] == s.tasks[id] {
        assert id !in Ids(tick.due);
      }
      forall id | id in s.tasks && IsDue(s.tasks[id], tick.now) ensures next.tasks[id].status == Dispatching {
        var i :| 0 <= i < |tick.due| && tick.due[i] == s.tasks[id];
      }
    }
  }

  /** A processed recurring task's next slot is strictly after the tick, and is the slot reached by
      stepping from the missed one exactly when no overflowed instant is missed. */
  lemma MissedSlotsCollapseIff(
      s: State, due: seq<DirectTask>, i: nat, now: int, already: set<Status>, reachable: set<string>)
    requires Keyed(s) && IsDueList(s, now, due) && i < |due|
    requires Dispatching in already || due[i].id in reachable
    requires due[i].schedule.mode == Schedules.Recurring && due[i].schedule.rule.Some?
    requires Recurrence.Advancing(due[i].schedule.rule.value)
    ensures var after := ProcessAll(s, due, now, already, reachable);
            && due[i].id in after.tasks
            && var next := after.tasks[due[i].id].nextRunAt;
            && next.Some? && next.value > now
            && (next.value == Recurrence.Iterate(due[i].schedule.rule.value, due[i].nextRunAt.value, now) <==>
                !Schedules.OverflowMissed(due[i].schedule.rule.value, due[i].nextRunAt.value, now))
  {
    TickEffect(s, due, now, already, reachable);
    Schedules.MissedRunsCollapseIff(due[i].schedule, due[i].nextRunAt.value, now);
  }
}
